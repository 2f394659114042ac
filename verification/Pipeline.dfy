/** From OpenAPI schemas to the primary keys the run time reads: the whole
    contract path, with LLM output at three points in the middle. */
module Pipeline {
  import opened Wrappers
  import opened Json
  import opened Names
  import opened Ir
  import opened Identity
  import opened IdentityProperties
  import opened EnumUnion
  import opened Merge
  import opened MergeProperties
  import opened Contract
  import opened ContractStamps
  import opened ContractSurvival
  import opened Loader

  /** Everything an LLM contributes on the way. */
  datatype LlmOutput = LlmOutput(enriched: seq<Entity>, fallback: Option<Fallback>, schema: Json)

  ghost function ModelFor(apiName: string, identity: IdentityModel, llm: LlmOutput): (r: Model) {
    var dm := Composed(apiName, identity, llm.enriched, llm.fallback).model;
    Model(dm.entities, dm.metadata)
  }

  ghost function FinalSchema(apiName: string, identity: IdentityModel, llm: LlmOutput): (r: Json) {
    Enforced(llm.schema, ModelFor(apiName, identity, llm))
  }

  /** The schema stage accepts what the LLM wrote. */
  ghost predicate Accepted(apiName: string, identity: IdentityModel, llm: LlmOutput) {
    MeetsContract(FinalSchema(apiName, identity, llm), ModelFor(apiName, identity, llm).metadata)
  }

  lemma DerivedDistinct(schemas: Object, synthetic: bool, deferred: set<string>, identity: IdentityModel)
    requires DerivedFrom(schemas, synthetic, deferred) == Derived(identity)
    ensures DistinctCollections(identity.entities)
  {
    CollectionsDistinct(schemas, synthetic, deferred, identity);
    hide DerivedFrom;
  }

  lemma ComposedCoherent(apiName: string, identity: IdentityModel, llm: LlmOutput)
    requires DistinctCollections(identity.entities)
    ensures Coherent(ModelFor(apiName, identity, llm).metadata)
    ensures forall e | e in ModelFor(apiName, identity, llm).entities ::
              ModelFor(apiName, identity, llm).metadata.PkOf(e.collection) == Some(e.primaryKey)
  {
    OneKeyPerEntity(apiName, identity, llm.enriched, llm.fallback);
    hide Composed;
    var m := ModelFor(apiName, identity, llm);
    forall c ensures c in m.metadata.collections <==> m.metadata.PkOf(c).Some? {
      FindPkSome(m.metadata.pkMap, c);
      if m.metadata.PkOf(c).Some? {
        var i :| 0 <= i < |m.metadata.pkMap| && m.metadata.pkMap[i].collection == c;
        assert m.metadata.collections[i] == c;
      }
      if c in m.metadata.collections {
        var i :| 0 <= i < |m.metadata.collections| && m.metadata.collections[i] == c;
        assert m.metadata.pkMap[i].collection == c;
      }
    }
    forall e | e in m.entities ensures m.metadata.PkOf(e.collection) == Some(e.primaryKey) {
      var i :| 0 <= i < |m.entities| && m.entities[i] == e;
      assert m.metadata.PkOf(m.entities[i].collection) == Some(m.entities[i].primaryKey);
    }
  }

  /** The derived contract survives end to end: for any schemas, any LLM output
      the stages accept, and any store of the database, the loader does not
      raise; for a derived collection it reads the key the derivation chose. */
  lemma DerivedKeysReachRuntime(
    schemas: Object, synthetic: bool, deferred: set<string>, identity: IdentityModel,
    apiName: string, llm: LlmOutput, store: string)
    requires DerivedFrom(schemas, synthetic, deferred) == Derived(identity)
    requires Accepted(apiName, identity, llm)
    ensures InferKey(FinalSchema(apiName, identity, llm), store).Key?
    ensures forall d | d in identity.entities && d.collection == store ::
              InferKey(FinalSchema(apiName, identity, llm), store) == Key(Str(d.primaryKey))
    ensures forall e | e in ModelFor(apiName, identity, llm).entities && e.collection == store ::
              InferKey(FinalSchema(apiName, identity, llm), store) == Key(Str(e.primaryKey))
  {
    DerivedDistinct(schemas, synthetic, deferred, identity);
    ComposedCoherent(apiName, identity, llm);
    ContractSurvives(llm.schema, ModelFor(apiName, identity, llm), store);
    hide DerivedFrom, Enforced, InferKey, Composed;
    forall d | d in identity.entities && d.collection == store
      ensures InferKey(FinalSchema(apiName, identity, llm), store) == Key(Str(d.primaryKey))
    {
      DerivedInModel(apiName, identity, llm, d);
    }
  }

  lemma DerivedInModel(apiName: string, identity: IdentityModel, llm: LlmOutput, d: DerivedEntity)
    requires d in identity.entities
    ensures exists e | e in ModelFor(apiName, identity, llm).entities :: e.collection == d.collection && e.primaryKey == d.primaryKey
  {
    DerivedFieldsPinned(identity, llm.enriched, llm.fallback, d);
    assert Pinned(d, llm.enriched) in ModelFor(apiName, identity, llm).entities;
  }

  /** Two generations of one specification, with LLM outputs that have nothing
      in common, give the run time the same key for every derived collection. */
  lemma GenerationsAgree(
    schemas: Object, synthetic: bool, deferred: set<string>, identity: IdentityModel,
    apiName: string, llms: set<LlmOutput>)
    requires DerivedFrom(schemas, synthetic, deferred) == Derived(identity)
    requires forall llm | llm in llms :: Accepted(apiName, identity, llm)
    ensures forall a, b, d | a in llms && b in llms && d in identity.entities ::
              InferKey(FinalSchema(apiName, identity, a), d.collection) == InferKey(FinalSchema(apiName, identity, b), d.collection)
  {
    hide DerivedFrom, InferKey, FinalSchema, Accepted;
    forall llm, d | llm in llms && d in identity.entities
      ensures InferKey(FinalSchema(apiName, identity, llm), d.collection) == Key(Str(d.primaryKey))
    {
      DerivedKeysReachRuntime(schemas, synthetic, deferred, identity, apiName, llm, d.collection);
    }
  }

  // ---- enums and element shapes ----

  lemma {:induction false} EntityOfDistinct(es: seq<Entity>, e: Entity)
    requires DistinctBy(es, CollectionOf) && e in es
    ensures EntityOf(es, e.collection) == Some(e)
  {
    var init, last := es[..|es| - 1], es[|es| - 1];
    if last.collection != e.collection {
      assert e in init;
      EntityOfDistinct(init, e);
    } else {
      var i :| 0 <= i < |es| && es[i] == e;
      assert i < |es| - 1 ==> CollectionOf(es[i]) != CollectionOf(last);
    }
  }

  lemma {:induction false} EnumMapWithout(ds: seq<DerivedEntity>, collection: string)
    requires forall i | 0 <= i < |ds| :: ds[i].collection != collection
    ensures collection !in EnumMap(ds)
  {
    if ds != [] { EnumMapWithout(ds[..|ds| - 1], collection); }
  }

  lemma {:induction false} EnumMapOf(ds: seq<DerivedEntity>, i: nat)
    requires DistinctCollections(ds) && i < |ds|
    ensures (if ds[i].collection in EnumMap(ds) then EnumMap(ds)[ds[i].collection] else []) == ds[i].enums
  {
    var n := |ds| - 1;
    if i < n {
      EnumMapOf(ds[..n], i);
    } else {
      EnumMapWithout(ds[..n], ds[n].collection);
    }
  }

  /** A derived entity has one enum per name. */
  lemma DerivedEnumsAgree(schemas: Object, synthetic: bool, deferred: set<string>, identity: IdentityModel)
    requires DerivedFrom(schemas, synthetic, deferred) == Derived(identity)
    ensures forall d | d in identity.entities :: Agreeing([], d.enums)
  {
    var clusters := AbsorbAll(Jobs(schemas, synthetic, deferred));
    var undecidable := UndecidableOf(schemas, SortedNames(schemas.Keys), synthetic, deferred);
    hide AbsorbAll, Jobs, UndecidableOf, SortedNames, ModelOf, Agreeing;
    forall d | d in identity.entities ensures Agreeing([], d.enums) {
      var noun := NounOfEntity(clusters, undecidable, synthetic, identity, d);
      EnumsAgree(clusters[noun].enums);
    }
  }

  lemma EnumsAgree(enums: Enums)
    ensures Agreeing([], FieldEnums(enums, SortedNames(enums.Keys)))
  {
    FieldEnumsMembers(enums, SortedNames(enums.Keys));
  }

  /** What a derived entity has to say about its collection's definition: its
      enums, and the shapes of the fields it ends up with. */
  lemma DerivedWrites(apiName: string, identity: IdentityModel, llm: LlmOutput, d: DerivedEntity)
    requires DistinctCollections(identity.entities) && d in identity.entities
    ensures CollectionWrites(ModelFor(apiName, identity, llm), PrimaryKey(d.collection, d.primaryKey))
         == [SetKey(d.primaryKey)] + ShapeWrites(Pinned(d, llm.enriched).fields) + EnumWrites(d.enums)
    ensures Agreeing(Pinned(d, llm.enriched).fields, [])
  {
    DerivedFieldsPinned(identity, llm.enriched, llm.fallback, d);
    MergedDistinct(identity, llm.enriched, llm.fallback);
    EntityOfDistinct(Merged(identity, llm.enriched, llm.fallback), Pinned(d, llm.enriched));
    var i :| 0 <= i < |identity.entities| && identity.entities[i] == d;
    EnumMapOf(identity.entities, i);
    hide Merged, EnumMap, Pinned, EntityOf, ShapeWrites, EnumWrites;
  }

  lemma DerivedWritesApart(apiName: string, identity: IdentityModel, llm: LlmOutput, d: DerivedEntity)
    requires DistinctCollections(identity.entities) && d in identity.entities && Agreeing([], d.enums)
    ensures NoClash(CollectionWrites(ModelFor(apiName, identity, llm), PrimaryKey(d.collection, d.primaryKey)))
  {
    DerivedWrites(apiName, identity, llm, d);
    hide Pinned;
    ShapeWritesApart(Pinned(d, llm.enriched).fields);
    EnumWritesApart(d.enums);
    hide ShapeWrites, EnumWrites, CollectionWrites, ModelFor;
  }

  /** Everything a derived entity says about its definition. */
  ghost function DerivedStamps(llm: LlmOutput, d: DerivedEntity): (r: seq<DefWrite>) {
    ShapeWrites(Pinned(d, llm.enriched).fields) + EnumWrites(d.enums)
  }

  /** The collection's definition says it exactly if the LLM declared the
      property with the matching type and no later collection on the same
      definition says otherwise; in a definition of its own, exactly if the
      property is so declared. */
  ghost predicate Stands(schema0: Json, ir: Model, pk: PrimaryKey, w: DefWrite)
    requires w.SetKeyword?
  {
    var name := DefName(schema0, pk.collection);
    && name.Some? && Definition(schema0, name.value).Some? && DefOf(Enforced(schema0, ir), pk.collection).Some?
    && var said := Says(DefOf(Enforced(schema0, ir), pk.collection).value, w);
       var declared := Declared(Definition(schema0, name.value).value, w.prop, w.declared).Some?;
       && (said <==> declared && FinalWord(schema0, ir, name.value, w) == Some(w.value))
       && (Sharing(schema0, ir.metadata.pkMap, name.value) == [pk] ==> (said <==> declared))
  }

  /** In the accepted schema what every derived entity has to say - element
      schemas, references and enums - stands. */
  lemma DerivedStampsReachSchema(
    schemas: Object, synthetic: bool, deferred: set<string>, identity: IdentityModel,
    apiName: string, llm: LlmOutput)
    requires DerivedFrom(schemas, synthetic, deferred) == Derived(identity)
    requires Accepted(apiName, identity, llm)
    ensures forall d, w | d in identity.entities && w in DerivedStamps(llm, d) ::
              w.SetKeyword? && Stands(llm.schema, ModelFor(apiName, identity, llm), PrimaryKey(d.collection, d.primaryKey), w)
  {
    DerivedDistinct(schemas, synthetic, deferred, identity);
    DerivedEnumsAgree(schemas, synthetic, deferred, identity);
    ComposedCoherent(apiName, identity, llm);
    hide DerivedFrom, DerivedStamps, Stands, ModelFor, Agreeing;
    forall d, w | d in identity.entities && w in DerivedStamps(llm, d)
      ensures w.SetKeyword? && Stands(llm.schema, ModelFor(apiName, identity, llm), PrimaryKey(d.collection, d.primaryKey), w)
    {
      OneDerivedStamp(apiName, identity, llm, d, w);
    }
  }

  lemma OneDerivedStamp(apiName: string, identity: IdentityModel, llm: LlmOutput, d: DerivedEntity, w: DefWrite)
    requires DistinctCollections(identity.entities) && d in identity.entities && Agreeing([], d.enums)
    requires Accepted(apiName, identity, llm) && w in DerivedStamps(llm, d)
    ensures w.SetKeyword? && Stands(llm.schema, ModelFor(apiName, identity, llm), PrimaryKey(d.collection, d.primaryKey), w)
  {
    var model, pk := ModelFor(apiName, identity, llm), PrimaryKey(d.collection, d.primaryKey);
    ComposedCoherent(apiName, identity, llm);
    DerivedWrites(apiName, identity, llm, d);
    DerivedWritesApart(apiName, identity, llm, d);
    DerivedInModel(apiName, identity, llm, d);
    ShapeWritesApart(Pinned(d, llm.enriched).fields);
    EnumWritesApart(d.enums);
    assert w in CollectionWrites(model, pk);
    hide ShapeWrites, EnumWrites, Pinned, ModelFor, CollectionWrites, Stands;
    OwnStamps(llm.schema, model, pk, w);
  }

  /** One collection's write, in a clean schema. */
  lemma OwnStamps(schema0: Json, ir: Model, pk: PrimaryKey, w: DefWrite)
    requires Coherent(ir.metadata) && MeetsContract(Enforced(schema0, ir), ir.metadata)
    requires ir.metadata.PkOf(pk.collection) == Some(pk.key)
    requires NoClash(CollectionWrites(ir, pk)) && w in CollectionWrites(ir, pk) && w.SetKeyword?
    ensures Stands(schema0, ir, pk, w)
  {
    var pks, top := ir.metadata.pkMap, StampTop(schema0, ir);
    CleanResolves(Enforced(schema0, ir), ir.metadata, pk.collection);
    KeptNames(schema0, ir, pk.collection);
    FindPkSome(pks, pk.collection);
    var d := DefName(schema0, pk.collection).value;
    hide Enforced, MeetsContract, Coherent, Says, CollectionWrites, DefName, Definition, StampTop;
    StampsReachSchema(schema0, ir, d, pk, w);
    SharingOfTop(schema0, ir, pks, d);
    if Sharing(schema0, pks, d) == [pk] {
      OnlyWrites(ir, pk);
      AgreedWord(CollectionWrites(ir, pk), w);
    }
  }

  lemma OnlyWrites(ir: Model, pk: PrimaryKey)
    ensures AllWrites(ir, [pk]) == CollectionWrites(ir, pk)
  {
    assert [pk][..0] == [];
    assert AllWrites(ir, []) == [];
    hide CollectionWrites;
  }

  lemma KeptNames(schema0: Json, ir: Model, c: string)
    ensures DefName(Enforced(schema0, ir), c) == DefName(StampTop(schema0, ir), c) == DefName(schema0, c)
    ensures forall d :: Definition(Enforced(schema0, ir), d).Some? <==> Definition(schema0, d).Some?
    ensures forall d :: Definition(StampTop(schema0, ir), d) == Definition(schema0, d)
  {
    var top, pks := StampTop(schema0, ir), ir.metadata.pkMap;
    StampCollectionsIsStampDefs(top, ir, pks);
    StampDefsKeepsRefs(top, ir, pks);
    assert top.GetObj("properties") == schema0.GetObj("properties") && top.GetObj("$defs") == schema0.GetObj("$defs");
    hide StampDef, Sharing, StampDefs, StampTop;
    forall d ensures Definition(Enforced(schema0, ir), d).Some? <==> Definition(schema0, d).Some? {
      StampDefsKeepsDefinitions(top, ir, pks, d);
    }
  }

  lemma StampDefsKeepsDefinitions(schema: Json, ir: Model, pks: seq<PrimaryKey>, d: string)
    ensures Definition(StampDefs(schema, ir, pks), d).Some? <==> Definition(schema, d).Some?
  {
    hide StampDef, Sharing;
  }
}
