/** The contract reaches the run time unchanged, and stamping it changes
    nothing else in the schema. */
module ContractSurvival {
  import opened Wrappers
  import opened Json
  import opened Ir
  import opened Contract
  import opened SchemaCheck
  import opened Loader
  import opened ContractStamps

  /** What a clean report of `ValidateSchema` says. */
  ghost predicate MeetsContract(schema: Json, metadata: StoreMetadata) {
    && schema.GetObj("properties").Some?
    && forall e :: !Holds(e, schema, metadata)
  }

  /** `pk_map` is a dictionary over exactly the declared collections. */
  ghost predicate Coherent(metadata: StoreMetadata) {
    && DistinctKeys(metadata.pkMap)
    && forall c :: c in metadata.collections <==> metadata.PkOf(c).Some?
  }

  ghost predicate HasKey(def: Object, key: string) {
    "x-primary-key" in def && def["x-primary-key"] == Str(key)
  }

  lemma {:induction false} PutAllKey(def: Object, ws: seq<DefWrite>, key: string)
    requires HasKey(def, key) && forall w | w in ws :: w.SetKey? ==> w.key == key
    ensures HasKey(PutAll(def, ws), key)
    decreases ws
  {
    if ws != [] {
      PutAllKey(Put(def, ws[0]), ws[1..], key);
    }
  }

  lemma {:induction false} ShapeWritesSetNoKey(fields: seq<Field>)
    ensures forall w | w in ShapeWrites(fields) :: !w.SetKey?
  {
    if fields != [] {
      ShapeWritesSetNoKey(fields[..|fields| - 1]);
    }
  }

  lemma CollectionSetsKey(def: Object, ir: Model, pk: PrimaryKey)
    ensures HasKey(PutAll(def, CollectionWrites(ir, pk)), pk.key)
  {
    var ws := CollectionWrites(ir, pk);
    var entity := EntityOf(ir.entities, pk.collection);
    if entity.Some? { ShapeWritesSetNoKey(entity.value.fields); }
    assert ws[0] == SetKey(pk.key);
    PutAllKey(Put(def, ws[0]), ws[1..], pk.key);
  }

  /** The collection stamped last decides the key. */
  lemma StampDefKey(def: Object, ir: Model, pks: seq<PrimaryKey>)
    requires pks != []
    ensures HasKey(StampDef(def, ir, pks), pks[|pks| - 1].key)
  {
    var last := pks[|pks| - 1];
    CollectionSetsKey(Require(StampDef(def, ir, pks[..|pks| - 1]), last.key), ir, last);
  }

  lemma CleanResolves(schema: Json, metadata: StoreMetadata, c: string)
    requires Coherent(metadata) && MeetsContract(schema, metadata) && c in metadata.collections
    ensures DefName(schema, c).Some? && Resolves(schema, metadata, c, DefName(schema, c).value)
  {
    assert !Holds(Missing(c), schema, metadata);
    assert !Holds(NoReference(c), schema, metadata);
    assert !Holds(Undefined(c, DefName(schema, c).value), schema, metadata);
  }

  /** Of the collections sharing a definition, `c` is one. */
  lemma SharesWithItself(schema: Json, metadata: StoreMetadata, c: string, d: string)
    requires Coherent(metadata) && c in metadata.collections && DefName(schema, c) == Some(d)
    ensures var share := Sharing(schema, metadata.pkMap, d);
            && share != []
            && share[|share| - 1] in metadata.pkMap
            && DefName(schema, share[|share| - 1].collection) == Some(d)
  {
    var share := Sharing(schema, metadata.pkMap, d);
    SharingMembers(schema, metadata.pkMap, d);
    FindPkSome(metadata.pkMap, c);
    assert PrimaryKey(c, metadata.PkOf(c).value) in share;
    assert share[|share| - 1] in share;
  }

  /** In a clean schema every contract collection refers to a definition that
      carries the collection's own key, even where collections share it. */
  lemma StampedKey(schema0: Json, ir: Model, c: string)
    requires Coherent(ir.metadata) && MeetsContract(Enforced(schema0, ir), ir.metadata)
    requires c in ir.metadata.collections
    ensures DefOf(Enforced(schema0, ir), c).Some?
    ensures HasKey(DefOf(Enforced(schema0, ir), c).value, ir.metadata.PkOf(c).value)
  {
    var metadata := ir.metadata;
    var pks := metadata.pkMap;
    var schema, top := Enforced(schema0, ir), StampTop(schema0, ir);
    CleanResolves(schema, metadata, c);
    var d := DefName(schema, c).value;
    StampCollectionsIsStampDefs(top, ir, pks);
    StampDefsKeepsRefs(top, ir, pks);
    var share := Sharing(top, pks, d);
    hide Sharing, StampDef, StampTop, MeetsContract, Coherent;
    SharesWithItself(top, metadata, c, d);
    SharedKey(schema, metadata, c, share[|share| - 1], d);
    StampDefKey(top.GetObj("$defs").value[d].fields, ir, share);
  }

  lemma SharedKey(schema: Json, metadata: StoreMetadata, c: string, other: PrimaryKey, d: string)
    requires Coherent(metadata) && MeetsContract(schema, metadata)
    requires Resolves(schema, metadata, c, d) && other in metadata.pkMap && DefName(schema, other.collection) == Some(d)
    ensures metadata.PkOf(c) == Some(other.key)
  {
    var i :| 0 <= i < |metadata.pkMap| && metadata.pkMap[i] == other;
    FindPkAt(metadata.pkMap, i);
    assert other.collection in metadata.collections;
    assert !Holds(Missing(other.collection), schema, metadata);
    assert Resolves(schema, metadata, other.collection, d);
    assert !Holds(KeysDiffer(d), schema, metadata);
  }

  /** End to end: whatever schema an LLM wrote, if it is clean once enforced,
      the loader raises on no store and reads exactly the derived keys. A store
      outside the contract is not in the schema and falls back to `id`. */
  lemma ContractSurvives(schema0: Json, ir: Model, store: string)
    requires Coherent(ir.metadata) && MeetsContract(Enforced(schema0, ir), ir.metadata)
    ensures InferKey(Enforced(schema0, ir), store)
         == Key(Str(match ir.metadata.PkOf(store) case Some(key) => key case None => "id"))
  {
    var schema := Enforced(schema0, ir);
    if store in ir.metadata.collections {
      StampedKey(schema0, ir, store);
    } else {
      assert !Holds(Undeclared(store), schema, ir.metadata);
      assert GetOr(schema, "$defs", NOTHING).Some?;
    }
  }

  // ---- nothing else is touched ----

  /** A property that is not an object with a declared type is left alone; of
      any other each keyword has its last written value, or the one it had. */
  ghost predicate StampedProperty(a: Json, b: Json, prop: string, ws: seq<DefWrite>) {
    match a.GetStr("type")
    case None => b == a
    case Some(declared) => b.Obj? && forall k :: b.Get(k) == Else(LastWord(ws, prop, declared, k), a.Get(k))
  }

  ghost predicate StampedProperties(a: Option<Json>, b: Option<Json>, ws: seq<DefWrite>) {
    match (a, b)
    case (Some(Obj(m)), Some(Obj(n))) => m.Keys == n.Keys && forall p | p in m :: StampedProperty(m[p], n[p], p, ws)
    case _ => a == b
  }

  /** Exactly the missing names are appended; what is no list is left alone. */
  ghost predicate RequiredGrows(a: Option<Json>, b: Option<Json>, keys: set<string>) {
    match a
    case None => if keys == {} then b == None else b.Some? && b.value.Arr? && Appended([], b.value.items, keys)
    case Some(Arr(xs)) => b.Some? && b.value.Arr? && Appended(xs, b.value.items, keys)
    case _ => a == b
  }

  ghost predicate Appended(xs: seq<Json>, ys: seq<Json>, keys: set<string>) {
    && xs <= ys
    && (forall y :: y in ys[|xs|..] <==> y !in xs && exists k :: k in keys && y == Str(k))
    && forall i, j | |xs| <= i < j < |ys| :: ys[i] != ys[j]
  }

  /** `b` is `a` as stamped by these collections: it has the last one's key,
      requires the keys of all, and its properties have the last words; nothing
      else differs. */
  ghost predicate StampedDefinition(a: Object, b: Object, ir: Model, pks: seq<PrimaryKey>) {
    && (forall k | k !in {"x-primary-key", "required", "properties"} :: Obj(a).Get(k) == Obj(b).Get(k))
    && Obj(b).Get("x-primary-key") == (if pks == [] then Obj(a).Get("x-primary-key") else Some(Str(pks[|pks| - 1].key)))
    && RequiredGrows(Obj(a).Get("required"), Obj(b).Get("required"), KeysOf(pks))
    && StampedProperties(Obj(a).Get("properties"), Obj(b).Get("properties"), AllWrites(ir, pks))
  }

  lemma PutOthers(def: Object, w: DefWrite)
    ensures forall k | k !in {"x-primary-key", "properties"} :: Obj(Put(def, w)).Get(k) == Obj(def).Get(k)
    ensures Obj(Put(def, w)).Get("properties").Some? <==> Obj(def).Get("properties").Some?
    ensures var (a, b) := (Obj(def).Get("properties"), Obj(Put(def, w)).Get("properties"));
            if Obj(def).GetObj("properties").None? then a == b
            else b.value.Obj? && b.value.fields.Keys == a.value.fields.Keys
    ensures forall p :: KeptProperty(def, p) ==> KeptProperty(Put(def, w), p) && Property(Put(def, w), p) == Property(def, p)
  {
  }

  ghost function Property(def: Object, p: string): Option<Json> {
    match Obj(def).GetObj("properties")
    case Some(m) => Obj(m).Get(p)
    case None => None
  }

  /** No write applies to it. */
  ghost predicate KeptProperty(def: Object, p: string) {
    Property(def, p).Some? && Property(def, p).value.GetStr("type").None?
  }

  lemma {:induction false} PutAllOthers(def: Object, ws: seq<DefWrite>)
    ensures forall k | k !in {"x-primary-key", "properties"} :: Obj(PutAll(def, ws)).Get(k) == Obj(def).Get(k)
    ensures var (a, b) := (Obj(def).Get("properties"), Obj(PutAll(def, ws)).Get("properties"));
            if Obj(def).GetObj("properties").None? then a == b
            else b.Some? && b.value.Obj? && b.value.fields.Keys == a.value.fields.Keys
    ensures forall p :: KeptProperty(def, p) ==> Property(PutAll(def, ws), p) == Property(def, p)
    decreases ws
  {
    if ws != [] {
      PutOthers(def, ws[0]);
      PutAllOthers(Put(def, ws[0]), ws[1..]);
    }
  }

  lemma StampedPropertiesHold(def: Object, ws: seq<DefWrite>)
    requires Stamps(ws)
    ensures StampedProperties(Obj(def).Get("properties"), Obj(PutAll(def, ws)).Get("properties"), ws)
  {
    PutAllOthers(def, ws);
    if Obj(def).GetObj("properties").Some? {
      var m, n := def["properties"].fields, PutAll(def, ws)["properties"].fields;
      forall p | p in m ensures StampedProperty(m[p], n[p], p, ws) {
        PropertyStamped(def, ws, p);
      }
    }
  }

  lemma PropertyStamped(def: Object, ws: seq<DefWrite>, p: string)
    requires Stamps(ws) && Property(def, p).Some? && Property(PutAll(def, ws), p).Some?
    ensures StampedProperty(Property(def, p).value, Property(PutAll(def, ws), p).value, p, ws)
  {
    PutAllOthers(def, ws);
    match Property(def, p).value.GetStr("type")
    case None => assert KeptProperty(def, p);
    case Some(declared) =>
      PutAllKeepsTypes(def, ws, p, declared);
      forall k ensures Word(PutAll(def, ws), p, declared, k) == Else(LastWord(ws, p, declared, k), Word(def, p, declared, k)) {
        PutAllWord(def, ws, p, declared, k);
      }
      hide PutAll, LastWord;
  }

  lemma {:induction false} KeyAfter(def: Object, ir: Model, pks: seq<PrimaryKey>)
    ensures Obj(StampDef(def, ir, pks)).Get("x-primary-key") ==
              if pks == [] then Obj(def).Get("x-primary-key") else Some(Str(pks[|pks| - 1].key))
  {
    if pks != [] { StampDefKey(def, ir, pks); }
  }

  lemma {:induction false} RequireAllGrows(def: Object, pks: seq<PrimaryKey>)
    ensures RequiredGrows(Obj(def).Get("required"), Obj(RequireAll(def, pks)).Get("required"), KeysOf(pks))
  {
    if pks != [] {
      var init, last := pks[..|pks| - 1], pks[|pks| - 1];
      RequireAllGrows(def, init);
      assert pks == init + [last];
      assert KeysOf(pks) == KeysOf(init) + {last.key};
      hide RequiredGrows, Require;
      RequireMore(Obj(def).Get("required"), RequireAll(def, init), KeysOf(init), last.key);
    }
  }

  ghost function KeysOf(pks: seq<PrimaryKey>): (r: set<string>) {
    set pk | pk in pks :: pk.key
  }

  lemma {:induction false} RequireAllOthers(def: Object, pks: seq<PrimaryKey>)
    ensures forall k | k != "required" :: Obj(RequireAll(def, pks)).Get(k) == Obj(def).Get(k)
  {
    if pks != [] { RequireAllOthers(def, pks[..|pks| - 1]); }
  }

  lemma RequireMore(a: Option<Json>, def: Object, keys: set<string>, key: string)
    requires RequiredGrows(a, Obj(def).Get("required"), keys)
    ensures RequiredGrows(a, Obj(Require(def, key)).Get("required"), keys + {key})
  {
    match Obj(def).Get("required")
    case None => assert Obj(Require(def, key)).Get("required") == Some(Arr([Str(key)]));
    case Some(Arr(ys)) =>
      if a.None? || a.value.Arr? {
        AppendMore(if a.None? then [] else a.value.items, ys, keys, key);
      }
    case _ =>
  }

  lemma AppendMore(xs: seq<Json>, ys: seq<Json>, keys: set<string>, key: string)
    requires Appended(xs, ys, keys)
    ensures Appended(xs, if Str(key) in ys then ys else ys + [Str(key)], keys + {key})
  {
    assert ys == xs + ys[|xs|..];
    if Str(key) !in ys {
      var zs := ys + [Str(key)];
      assert zs[|xs|..] == ys[|xs|..] + [Str(key)];
    }
  }

  /** One definition, stamped by the collections that share it. */
  lemma StampDefExact(def: Object, ir: Model, pks: seq<PrimaryKey>)
    ensures StampedDefinition(def, StampDef(def, ir, pks), ir, pks)
  {
    var ws := AllWrites(ir, pks);
    StampDefSplit(def, ir, pks);
    PutAllOthers(def, ws);
    StampedPropertiesHold(def, ws);
    RequireAllGrows(PutAll(def, ws), pks);
    RequireAllOthers(PutAll(def, ws), pks);
    KeyAfter(def, ir, pks);
    hide StampDef, AllWrites, RequireAll, PutAll, StampedProperties, RequiredGrows, Property, KeptProperty;
  }

  ghost predicate StampedDefinitions(a: Option<Json>, b: Option<Json>, schema: Json, ir: Model) {
    match (a, b)
    case (Some(Obj(m)), Some(Obj(n))) =>
      && m.Keys == n.Keys
      && forall d | d in m ::
           if m[d].Obj? then n[d].Obj? && StampedDefinition(m[d].fields, n[d].fields, ir, Sharing(schema, ir.metadata.pkMap, d))
           else n[d] == m[d]
    case _ => a == b
  }

  lemma {:induction false} SharingOfTop(schema: Json, ir: Model, pks: seq<PrimaryKey>, d: string)
    ensures Sharing(StampTop(schema, ir), pks, d) == Sharing(schema, pks, d)
  {
    SharingSame(StampTop(schema, ir), schema, pks, d);
  }

  /** Of a schema of any shape, enforcement changes the top-level `required` and
      `additionalProperties` and, in each definition, exactly what the
      collections that refer to it stamp there. */
  lemma EnforceTouchesOnlyContract(schema: Json, ir: Model)
    ensures var after := Enforced(schema, ir);
            if schema.Obj? then
              && after.Obj?
              && (forall k | k !in {"required", "additionalProperties", "$defs"} :: after.Get(k) == schema.Get(k))
              && after.Get("required") == Some(Strings(ir.metadata.collections))
              && after.Get("additionalProperties") == Some(Bool(false))
              && StampedDefinitions(schema.Get("$defs"), after.Get("$defs"), schema, ir)
            else after == schema
  {
    var pks, top := ir.metadata.pkMap, StampTop(schema, ir);
    StampCollectionsIsStampDefs(top, ir, pks);
    if schema.GetObj("$defs").Some? {
      var defs := schema.GetObj("$defs").value;
      assert top.GetObj("$defs") == Some(defs);
      forall d | d in defs && defs[d].Obj?
        ensures StampedDefs(top, ir, pks, defs)[d].Obj?
        ensures StampedDefinition(defs[d].fields, StampedDefs(top, ir, pks, defs)[d].fields, ir, Sharing(schema, pks, d))
      {
        SharingOfTop(schema, ir, pks, d);
        StampDefExact(defs[d].fields, ir, Sharing(schema, pks, d));
      }
    }
    hide StampDef, Sharing, StampedDefinition, DefName;
  }
}
