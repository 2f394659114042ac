/** Two collections that share one definition: the contract check accepts it when
    their keys agree, and the collection stamped later has the last word
    (generation/stages/schema.py, `validate_schema` and `enforce_contract`). */
module SharedDefinitions {
  import opened Wrappers
  import opened Json
  import opened StableSort
  import opened Names
  import opened Ir
  import opened Identity
  import opened Merge
  import opened Contract
  import opened ContractStamps
  import StampMeaning
  import opened SchemaCheck
  import opened ContractSurvival
  import opened Pipeline

  /** A reference into the definitions names the definition it refers to. */
  lemma RefName(name: string)
    requires '/' !in name
    ensures StartsWith(DEFS_PREFIX + name, DEFS_PREFIX) && LastPart(DEFS_PREFIX + name) == name
  {
    assert DEFS_PREFIX + name == "#/$defs" + "/" + name;
    StampMeaning.LastPartMeaning("#/$defs", name);
  }

  // ---- cats and dogs ----

  const KEYS := [PrimaryKey("cats", "id"), PrimaryKey("dogs", "id")]

  function PetEntity(name: string, collection: string, kind: string): (r: DerivedEntity) {
    DerivedEntity(name, collection, "id", [FieldType("id", "string"), FieldType("kind", "string")], [name], [],
                  [FieldEnum("kind", [kind])])
  }

  const CAT := PetEntity("Cat", "cats", "tabby")
  const DOG := PetEntity("Dog", "dogs", "poodle")

  /** Two collections with equal keys whose `kind` has different derived values. */
  const PET_IDENTITY := IdentityModel([CAT, DOG], [])

  /** A generation without enrichment or fallback, and what it is composed to. */
  const PET_LLM := LlmOutput([], None, PETS)
  const CATS_AND_DOGS := Model([Structural(CAT), Structural(DOG)], StoreMetadata(["cats", "dogs"], KEYS,
    map["cats" := [FieldEnum("kind", ["tabby"])], "dogs" := [FieldEnum("kind", ["poodle"])]]))

  const TEXT := Obj(map["type" := Str("string")])

  const PET: Object := map["properties" := Obj(map["id" := TEXT, "kind" := TEXT])]

  const REF := Obj(map["items" := Obj(map["$ref" := Str(DEFS_PREFIX + "Pet")])])

  /** A schema that keeps both in one definition. */
  const PETS := Obj(map["properties" := Obj(map["cats" := REF, "dogs" := REF]), "$defs" := Obj(map["Pet" := Obj(PET)])])

  const CAT_KIND := SetKeyword("kind", "string", "enum", Strings(["tabby"]))
  const DOG_KIND := SetKeyword("kind", "string", "enum", Strings(["poodle"]))

  lemma PetModel()
    ensures ModelFor("pets", PET_IDENTITY, PET_LLM) == CATS_AND_DOGS
  {
    var es := PinnedAll(PET_IDENTITY.entities, []);
    assert es == [Structural(CAT), Structural(DOG)];
    PetsSorted(Structural(CAT), Structural(DOG));
    assert Merged(PET_IDENTITY, [], None) == es;
    PetMaps(Structural(CAT), Structural(DOG));
    assert Collections(es) == ["cats", "dogs"];
    hide Structural, Merged, PkMap, EnumMap, Sort;
  }

  lemma PetsSorted(cat: Entity, dog: Entity)
    requires cat.name == "Cat" && dog.name == "Dog"
    ensures Sort([cat, dog] + [], ByName) == [cat, dog]
  {
    assert [cat, dog] + [] == [cat, dog] && [cat, dog][1..] == [dog] && [dog][1..] == [];
    assert ByName(cat, dog) by { assert NameLe("Cat", "Dog"); }
    assert Sort([dog], ByName) == [dog];
  }

  lemma PetMaps(cat: Entity, dog: Entity)
    requires cat.collection == "cats" && cat.primaryKey == "id" && dog.collection == "dogs" && dog.primaryKey == "id"
    ensures PkMap([cat, dog]) == KEYS
    ensures EnumMap([CAT, DOG]) == CATS_AND_DOGS.metadata.enumMap
  {
    assert [cat, dog][..1] == [cat] && [cat][..0] == [];
    assert PkMap([]) == [] && PkMap([cat]) == [KEYS[0]];
    assert [KEYS[0]][1..] == [] && PutPk([], KEYS[1]) == [KEYS[1]];
    assert PutPk([KEYS[0]], KEYS[1]) == [KEYS[0]] + [KEYS[1]];
    assert [CAT, DOG][..1] == [CAT] && [CAT][..0] == [];
    assert EnumMap([CAT]) == map["cats" := [FieldEnum("kind", ["tabby"])]];
  }

  lemma PlainFields(d: DerivedEntity)
    requires d.elements == [] && |d.fields| == 2
    ensures ShapeWrites(Structural(d).fields) == []
  {
    var fs := Structural(d).fields;
    assert fs[..1][..0] == [];
    assert ElementWrites(fs[0]) == [] && ElementWrites(fs[1]) == [];
    hide ElementWrites, Structural;
    assert ShapeWrites(fs[..1]) == [];
  }

  lemma PetCollectionWrites(ir: Model, pk: PrimaryKey, d: DerivedEntity, kind: string)
    requires EntityOf(ir.entities, pk.collection) == Some(Structural(d)) && d.elements == [] && |d.fields| == 2
    requires EnumsOf(ir.metadata, pk.collection) == [FieldEnum("kind", [kind])]
    ensures CollectionWrites(ir, pk) == [SetKey(pk.key), SetKeyword("kind", "string", "enum", Strings([kind]))]
  {
    PlainFields(d);
    hide ShapeWrites, Structural;
  }

  lemma PetEntities(cat: Entity, dog: Entity)
    requires cat.collection == "cats" && dog.collection == "dogs"
    ensures EntityOf([cat, dog], "cats") == Some(cat) && EntityOf([cat, dog], "dogs") == Some(dog)
  {
    assert [cat, dog][..1] == [cat];
    assert EntityOf([cat], "cats") == Some(cat);
  }

  lemma PetWrites()
    ensures CollectionWrites(CATS_AND_DOGS, KEYS[0]) == [SetKey("id"), CAT_KIND]
    ensures CollectionWrites(CATS_AND_DOGS, KEYS[1]) == [SetKey("id"), DOG_KIND]
    ensures AllWrites(CATS_AND_DOGS, KEYS) == [SetKey("id"), CAT_KIND, SetKey("id"), DOG_KIND]
  {
    PetEntities(Structural(CAT), Structural(DOG));
    PetCollectionWrites(CATS_AND_DOGS, KEYS[0], CAT, "tabby");
    PetCollectionWrites(CATS_AND_DOGS, KEYS[1], DOG, "poodle");
    hide CollectionWrites, Structural, EntityOf;
    assert KEYS[..1] == [KEYS[0]] && KEYS[..1][..0] == [];
    assert AllWrites(CATS_AND_DOGS, []) == [];
    assert AllWrites(CATS_AND_DOGS, KEYS[..1]) == CollectionWrites(CATS_AND_DOGS, KEYS[0]);
  }

  lemma PetTop(ir: Model)
    ensures var top := StampTop(PETS, ir);
            && PETS.GetObj("properties") == top.GetObj("properties") == Some(map["cats" := REF, "dogs" := REF])
            && PETS.GetObj("$defs") == top.GetObj("$defs") == Some(map["Pet" := Obj(PET)])
  {
  }

  lemma PetNames(schema: Json, c: string)
    requires schema.GetObj("properties") == Some(map["cats" := REF, "dogs" := REF])
    ensures DefName(schema, c) == if c in {"cats", "dogs"} then Some("Pet") else None
  {
    RefName("Pet");
    hide LastPart, StartsWith;
  }

  lemma PetSharing(schema: Json)
    requires schema.GetObj("properties") == Some(map["cats" := REF, "dogs" := REF])
    ensures Sharing(schema, KEYS, "Pet") == KEYS
  {
    PetNames(schema, "cats");
    PetNames(schema, "dogs");
    hide DefName;
    assert KEYS[..1] == [KEYS[0]] && KEYS[..1][..0] == [];
    assert Sharing(schema, KEYS[..1], "Pet") == [KEYS[0]];
  }

  /** What both stamps leave of the shared definition. */
  lemma PetStamped(ir: Model)
    requires AllWrites(ir, KEYS) == [SetKey("id"), CAT_KIND, SetKey("id"), DOG_KIND]
    ensures Word(StampDef(PET, ir, KEYS), "kind", "string", "enum") == Some(DOG_KIND.value)
    ensures KeyProperty(StampDef(PET, ir, KEYS), "id") == Some(TEXT)
  {
    var def, ws := StampDef(PET, ir, KEYS), AllWrites(ir, KEYS);
    StampDefWord(PET, ir, KEYS, "kind", "string", "enum");
    StampDefExact(PET, ir, KEYS);
    hide AllWrites, StampDef;
    forall k ensures LastWord(ws, "id", "string", k) == None {
      NoWord(ws, "id", "string", k);
    }
    assert ws[|ws| - 1] == DOG_KIND;
    SameObject(def["properties"].fields["id"], TEXT);
  }

  lemma SameObject(a: Json, b: Json)
    ensures a.Obj? && b.Obj? && (forall k :: a.Get(k) == b.Get(k)) ==> a == b
  {
    if a.Obj? && b.Obj? && forall k :: a.Get(k) == b.Get(k) {
      assert forall k :: k in a.fields <==> a.Get(k).Some?;
      assert a.fields == b.fields;
    }
  }

  lemma {:induction false} NoWord(ws: seq<DefWrite>, prop: string, declared: string, keyword: string)
    requires forall w | w in ws :: w.SetKeyword? ==> w.prop != prop
    ensures LastWord(ws, prop, declared, keyword) == None
  {
    if ws != [] { NoWord(ws[..|ws| - 1], prop, declared, keyword); }
  }

  /** Enforcing stamps each definition with the collections that refer to it. */
  lemma EnforcedDefinition(schema: Json, ir: Model, d: string, def: Object, share: seq<PrimaryKey>)
    requires Definition(StampTop(schema, ir), d) == Some(def) && Sharing(StampTop(schema, ir), ir.metadata.pkMap, d) == share
    ensures Enforced(schema, ir).GetObj("properties") == StampTop(schema, ir).GetObj("properties")
    ensures Definition(Enforced(schema, ir), d) == Some(StampDef(def, ir, share))
  {
    var top, pks := StampTop(schema, ir), ir.metadata.pkMap;
    StampCollectionsIsStampDefs(top, ir, pks);
    StampDefsKeepsRefs(top, ir, pks);
    hide StampDef, Sharing, StampDefs, StampCollections, StampTop, Definition;
    DefinitionStamped(top, ir, pks, d);
  }

  lemma PetDefinition(schema: Json, def: Object)
    requires schema.GetObj("$defs") == Some(map["Pet" := Obj(def)])
    ensures Definition(schema, "Pet") == Some(def)
  {
  }

  lemma PetEnforced(schema: Json, ir: Model)
    requires ir.metadata.pkMap == KEYS && schema == PETS
    ensures Enforced(schema, ir).GetObj("properties") == Some(map["cats" := REF, "dogs" := REF])
    ensures Definition(Enforced(schema, ir), "Pet") == Some(StampDef(PET, ir, KEYS))
  {
    PetTop(ir);
    hide StampDef, Sharing, StampTop, Definition, Enforced;
    PetSharing(StampTop(schema, ir));
    PetDefinition(StampTop(schema, ir), PET);
    EnforcedDefinition(schema, ir, "Pet", PET, KEYS);
  }

  /** A schema that keeps the whole contract in one definition with a scalar key
      common to all is clean. */
  lemma CleanWhenShared(schema: Json, metadata: StoreMetadata, d: string, def: Object, key: string)
    requires schema.GetObj("properties").Some? && schema.GetObj("properties").value.Keys == Expected(metadata)
    requires forall c | c in Expected(metadata) :: DefName(schema, c) == Some(d) && metadata.PkOf(c) == Some(key)
    requires Definition(schema, d) == Some(def)
    requires KeyProperty(def, key).Some? && !DeclaredNonScalar(KeyProperty(def, key).value)
    ensures MeetsContract(schema, metadata)
  {
    hide DefName, Definition, KeyProperty, DeclaredNonScalar, Expected;
  }

  lemma PetsCleanIn(after: Json, def: Object)
    requires after.GetObj("properties") == Some(map["cats" := REF, "dogs" := REF])
    requires Definition(after, "Pet") == Some(def) && KeyProperty(def, "id") == Some(TEXT)
    ensures MeetsContract(after, CATS_AND_DOGS.metadata)
  {
    var metadata := CATS_AND_DOGS.metadata;
    assert metadata.collections[0] == "cats" && metadata.collections[1] == "dogs";
    assert Expected(metadata) == {"cats", "dogs"};
    assert metadata.PkOf("cats") == Some("id") && metadata.PkOf("dogs") == Some("id");
    assert !DeclaredNonScalar(TEXT);
    PetNames(after, "cats");
    PetNames(after, "dogs");
    hide DefName, KeyProperty, MeetsContract, Definition, DeclaredNonScalar, Expected, FindPk;
    CleanWhenShared(after, metadata, "Pet", def, "id");
  }

  lemma PetsOverwritten()
    ensures MeetsContract(Enforced(PETS, CATS_AND_DOGS), CATS_AND_DOGS.metadata)
    ensures CAT_KIND in CollectionWrites(CATS_AND_DOGS, KEYS[0])
    ensures var def := Definition(Enforced(PETS, CATS_AND_DOGS), "Pet");
            def.Some? && !Says(def.value, CAT_KIND) && Says(def.value, DOG_KIND)
  {
    PetWrites();
    PetEnforced(PETS, CATS_AND_DOGS);
    PetStamped(CATS_AND_DOGS);
    hide Enforced, StampDef, MeetsContract, CollectionWrites, AllWrites, KeyProperty, Definition;
    PetsCleanIn(Enforced(PETS, CATS_AND_DOGS), StampDef(PET, CATS_AND_DOGS, KEYS));
    assert CAT_KIND.value != DOG_KIND.value by { assert CAT_KIND.value.items[0] != DOG_KIND.value.items[0]; }
  }

  /** The stages accept this generation, yet the cats' derived values are gone
      from its schema: only the last word counts. */
  lemma SharedStampLost()
    ensures Accepted("pets", PET_IDENTITY, PET_LLM)
    ensures CAT_KIND in DerivedStamps(PET_LLM, CAT)
    ensures var def := Definition(FinalSchema("pets", PET_IDENTITY, PET_LLM), "Pet");
            def.Some? && !Says(def.value, CAT_KIND) && Says(def.value, DOG_KIND)
  {
    PetModel();
    PetsOverwritten();
    PlainFields(CAT);
    assert Pinned(CAT, []) == Structural(CAT);
    assert EnumWrites(CAT.enums) == [CAT_KIND];
    hide Enforced, MeetsContract, ModelFor, ShapeWrites, EnumWrites, Pinned, Structural, Definition, Says;
  }
}
