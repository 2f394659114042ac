/** Which fallback entities survive, candidate by candidate, and what the composed
    model consists of (analyze/merge.py, `_surviving_fallback_entities` and
    `compose_data_model`). */
module SurvivorRules {
  import opened Wrappers
  import opened Json
  import opened StableSort
  import opened Names
  import opened Ir
  import opened Identity
  import opened Merge
  import opened MergeProperties

  // ---- the rule, over positions ----

  /** The candidate claims no derived name and no derived collection. */
  ghost predicate FreeAt(cs: seq<Entity>, collections: set<string>, names: set<string>, i: nat)
    requires i < |cs|
  {
    NameKey(cs[i]) !in names && CollectionKey(cs[i]) !in collections
  }

  /** ... and no other free candidate claims its collection. */
  ghost predicate ApartAt(cs: seq<Entity>, collections: set<string>, names: set<string>, i: nat)
    requires i < |cs|
  {
    && FreeAt(cs, collections, names, i)
    && forall j: nat | j < |cs| && j != i && FreeAt(cs, collections, names, j) :: CollectionKey(cs[j]) != CollectionKey(cs[i])
  }

  /** ... and no other of those claims its name. */
  ghost predicate SurvivesAt(cs: seq<Entity>, collections: set<string>, names: set<string>, i: nat)
    requires i < |cs|
  {
    && ApartAt(cs, collections, names, i)
    && forall j: nat | j < |cs| && j != i && ApartAt(cs, collections, names, j) :: NameKey(cs[j]) != NameKey(cs[i])
  }

  lemma {:induction false} SelectNone(es: seq<Entity>, p: Entity -> bool)
    requires forall i | 0 <= i < |es| :: !p(es[i])
    ensures Select(es, p) == []
  {
    if es != [] { SelectNone(es[..|es| - 1], p); }
  }

  /** A selected element is alone exactly if no other position is selected. */
  lemma {:induction false} AloneAt(es: seq<Entity>, p: Entity -> bool, i: nat)
    requires i < |es| && p(es[i])
    ensures |Select(es, p)| <= 1 <==> forall j | 0 <= j < |es| && j != i :: !p(es[j])
  {
    var n := |es| - 1;
    if i == n {
      if forall j | 0 <= j < n :: !p(es[j]) {
        SelectNone(es[..n], p);
      } else {
        var j :| 0 <= j < n && p(es[j]);
        SelectLength(es[..n], p, j, n);
      }
    } else {
      AloneAt(es[..n], p, i);
      SelectLength(es[..n], p, i, n);
    }
  }

  lemma {:induction false} SelectBoth(es: seq<Entity>, p: Entity -> bool, q: Entity -> bool)
    ensures Select(Select(es, p), q) == Select(es, e => p(e) && q(e))
  {
    if es != [] {
      var init, last := es[..|es| - 1], es[|es| - 1];
      SelectBoth(init, p, q);
      var before := Select(init, p);
      if p(last) {
        assert (before + [last])[..|before|] == before;
      } else {
        assert before + [] == before;
      }
    }
  }

  lemma UniqueAt(es: seq<Entity>, p: Entity -> bool, key: Entity -> string, i: nat)
    requires i < |es| && p(es[i])
    ensures Unique(Select(es, p), key)(es[i]) <==> forall j | 0 <= j < |es| && j != i && p(es[j]) :: key(es[j]) != key(es[i])
  {
    var k := key(es[i]);
    SelectBoth(es, p, e => key(e) == k);
    AloneAt(es, e => p(e) && key(e) == k, i);
    SelectSame(es, e => p(e) && key(e) == k, e => p(e) && (e => key(e) == k)(e));
  }

  /** A candidate survives exactly by this rule. */
  lemma SurvivesExactly(cs: seq<Entity>, collections: set<string>, names: set<string>, i: nat)
    requires i < |cs|
    ensures cs[i] in Survivors(cs, collections, names) <==> SurvivesAt(cs, collections, names, i)
  {
    var free := Unreserved(collections, names);
    var contested := Select(cs, free);
    var alone := Unique(contested, CollectionKey);
    var apart := Select(contested, alone);
    var both := e => free(e) && alone(e);
    SelectBoth(cs, free, alone);
    assert apart == Select(cs, both);
    forall j: nat | j < |cs| ensures free(cs[j]) <==> FreeAt(cs, collections, names, j) {}
    forall j: nat | j < |cs| ensures both(cs[j]) <==> ApartAt(cs, collections, names, j) {
      if free(cs[j]) { UniqueAt(cs, free, CollectionKey, j); }
    }
    SelectMembers(cs, both);
    SelectMembers(apart, Unique(apart, NameKey));
    hide Unique, Select, NameKey, CollectionKey;
    if both(cs[i]) { UniqueAt(cs, both, NameKey, i); }
  }

  // ---- when two names collide ----

  lemma {:induction false} TrimLeftSkips(spaces: string, core: string)
    requires forall c | c in spaces :: Space(c)
    requires core != [] ==> !Space(core[0])
    ensures TrimLeft(spaces + core) == core
  {
    if spaces == [] {
      assert spaces + core == core;
    } else {
      assert (spaces + core)[1..] == spaces[1..] + core;
      TrimLeftSkips(spaces[1..], core);
    }
  }

  lemma {:induction false} TrimRightSkips(core: string, spaces: string)
    requires forall c | c in spaces :: Space(c)
    requires core != [] ==> !Space(core[|core| - 1])
    ensures TrimRight(core + spaces) == core
  {
    if spaces == [] {
      assert core + spaces == core;
    } else {
      var n := |core + spaces| - 1;
      assert (core + spaces)[..n] == core + spaces[..|spaces| - 1];
      assert (core + spaces)[n] == spaces[|spaces| - 1];
      TrimRightSkips(core, spaces[..|spaces| - 1]);
    }
  }

  /** Names collide regardless of the case of letters and of space around them. */
  lemma KeyIgnores(left: string, core: string, right: string)
    requires forall c | c in left + right :: Space(c)
    requires core != [] && !Space(core[0]) && !Space(core[|core| - 1])
    ensures Key(left + core + right) == Lower(core)
  {
    assert left + core + right == left + (core + right);
    TrimLeftSkips(left, core + right);
    TrimRightSkips(core, right);
  }

  // ---- the composed model ----

  /** What a derived entity reserves: the keys of its collection and of its name. */
  ghost function KeysOf(ds: seq<DerivedEntity>): (r: set<string>) {
    set i | 0 <= i < |ds| :: Key(ds[i].collection)
  }

  ghost function NameKeysOf(ds: seq<DerivedEntity>): (r: set<string>) {
    set i | 0 <= i < |ds| :: Key(ds[i].name)
  }

  lemma ReservedKeys(ds: seq<DerivedEntity>)
    ensures Reserved(ds) == KeysOf(ds) && ReservedNames(ds) == NameKeysOf(ds)
  {
    hide Key;
    forall d | d in ds ensures Key(d.collection) in KeysOf(ds) && Key(d.name) in NameKeysOf(ds) {
      var i :| 0 <= i < |ds| && ds[i] == d;
    }
    forall i | 0 <= i < |ds| ensures Key(ds[i].collection) in Reserved(ds) && Key(ds[i].name) in ReservedNames(ds) {
      assert ds[i] in ds;
    }
  }

  /** The composed model has the pinned derived entities and the surviving
      candidates, and lists exactly their collections. */
  lemma ComposedOf(apiName: string, identity: IdentityModel, enriched: seq<Entity>, fallback: Option<Fallback>)
    ensures var model := Composed(apiName, identity, enriched, fallback).model;
            && (forall e :: e in model.entities <==>
                  || (exists d | d in identity.entities :: e == Pinned(d, enriched))
                  || (fallback.Some? && exists i: nat | i < |fallback.value.entities| ::
                        SurvivesAt(fallback.value.entities, KeysOf(identity.entities), NameKeysOf(identity.entities), i)
                        && e == fallback.value.entities[i]))
            && (forall c :: c in model.metadata.collections <==> exists e | e in model.entities :: e.collection == c)
            && Sorted(model.entities, ByName)
            && model.declined == (if fallback.Some? then fallback.value.declined else [])
  {
    var pinned, extras := PinnedAll(identity.entities, enriched), Extras(identity, fallback);
    var merged := Merged(identity, enriched, fallback);
    SortMembers(pinned + extras, ByName);
    ByNameTotal();
    SortSorted(pinned + extras, ByName);
    PinnedMembers(identity.entities, enriched);
    CollectionsMembers(merged);
    ReservedKeys(identity.entities);
    if fallback.Some? { SurvivorMembers(fallback.value.entities, Reserved(identity.entities), ReservedNames(identity.entities)); }
    hide Pinned, SurvivesAt, Sort, Survivors, ByName, Reserved, ReservedNames, KeysOf, NameKeysOf, PinnedAll;
  }

  lemma PinnedMembers(ds: seq<DerivedEntity>, enriched: seq<Entity>)
    ensures forall e :: e in PinnedAll(ds, enriched) <==> exists d | d in ds :: e == Pinned(d, enriched)
  {
    hide Pinned;
    forall e ensures e in PinnedAll(ds, enriched) <==> exists d | d in ds :: e == Pinned(d, enriched) {
      if d :| d in ds && e == Pinned(d, enriched) {
        var i :| 0 <= i < |ds| && ds[i] == d;
        assert PinnedAll(ds, enriched)[i] == e;
      }
    }
  }

  lemma CollectionsMembers(es: seq<Entity>)
    ensures forall c :: c in Collections(es) <==> exists e | e in es :: e.collection == c
  {
    forall c ensures c in Collections(es) <==> exists e | e in es :: e.collection == c {
      if e :| e in es && e.collection == c {
        var i :| 0 <= i < |es| && es[i] == e;
        assert Collections(es)[i] == c;
      }
    }
  }

  lemma SurvivorMembers(cs: seq<Entity>, collections: set<string>, names: set<string>)
    ensures forall e :: e in Survivors(cs, collections, names) <==> exists i: nat | i < |cs| :: SurvivesAt(cs, collections, names, i) && e == cs[i]
  {
    SurvivorsApart(cs, collections, names);
    forall i: nat | i < |cs| ensures cs[i] in Survivors(cs, collections, names) <==> SurvivesAt(cs, collections, names, i) {
      SurvivesExactly(cs, collections, names, i);
    }
    hide Survivors, SurvivesAt;
    forall e | e in Survivors(cs, collections, names) ensures exists i: nat | i < |cs| :: SurvivesAt(cs, collections, names, i) && e == cs[i] {
      assert e in cs;
      var i: nat :| i < |cs| && cs[i] == e;
    }
  }

  /** A surviving candidate is in the model with its collection and its key. */
  lemma SurvivorComposed(apiName: string, identity: IdentityModel, enriched: seq<Entity>, fallback: Fallback, i: nat)
    requires DistinctCollections(identity.entities) && i < |fallback.entities|
    requires SurvivesAt(fallback.entities, KeysOf(identity.entities), NameKeysOf(identity.entities), i)
    ensures var model := Composed(apiName, identity, enriched, Some(fallback)).model;
            && fallback.entities[i] in model.entities
            && fallback.entities[i].collection in model.metadata.collections
            && model.metadata.PkOf(fallback.entities[i].collection) == Some(fallback.entities[i].primaryKey)
  {
    ComposedOf(apiName, identity, enriched, Some(fallback));
    OneKeyPerEntity(apiName, identity, enriched, Some(fallback));
    hide Composed, SurvivesAt, Pinned;
    var model := Composed(apiName, identity, enriched, Some(fallback)).model;
    var e := fallback.entities[i];
    assert e in model.entities;
    var k :| 0 <= k < |model.entities| && model.entities[k] == e;
    assert model.metadata.PkOf(model.entities[k].collection) == Some(model.entities[k].primaryKey);
  }

  // ---- what a derived entity takes from its enrichment ----

  lemma {:induction false} LastNamedIs(es: seq<Entity>, name: string)
    ensures LastNamed(es, name).None? <==> forall e | e in es :: e.name != name
    ensures LastNamed(es, name).Some? ==>
              exists i | 0 <= i < |es| :: es[i] == LastNamed(es, name).value && es[i].name == name
                && forall j | i < j < |es| :: es[j].name != name
  {
    if es != [] {
      var n := |es| - 1;
      LastNamedIs(es[..n], name);
      assert es == es[..n] + [es[n]];
      if es[n].name != name && LastNamed(es[..n], name).Some? {
        var i :| 0 <= i < n && es[..n][i] == LastNamed(es[..n], name).value && es[..n][i].name == name
          && forall j | i < j < n :: es[..n][j].name != name;
        assert es[i] == es[..n][i];
        forall j | i < j < |es| ensures es[j].name != name { if j < n { assert es[j] == es[..n][j]; } }
      }
    }
  }

  /** With an enriched entity of its name, a derived entity keeps its name,
      collection and key and takes that entity's fields, in order and with their
      types, and its relationships; without one it has the derived fields. */
  lemma SoftContent(d: DerivedEntity, enriched: seq<Entity>)
    ensures var p := Pinned(d, enriched);
            p.name == d.name && p.collection == d.collection && p.primaryKey == d.primaryKey
    ensures var (p, e) := (Pinned(d, enriched), LastNamed(enriched, d.name));
            e.Some? ==>
              && |p.fields| == |e.value.fields| && p.relationships == e.value.relationships
              && p.fingerprintFields == e.value.fingerprintFields && p.temporalFields == e.value.temporalFields
              && forall i | 0 <= i < |p.fields| ::
                   var (f, g) := (p.fields[i], e.value.fields[i]);
                   && f.name == g.name && f.type_ == g.type_ && f.required == g.required
                   && f.format == g.format && f.description == g.description
                   && (LastEnum(d.enums, f.name).None? ==> f.values == g.values)
    ensures LastNamed(enriched, d.name).None? ==>
              var p := Pinned(d, enriched);
              && |p.fields| == |d.fields| && p.relationships == [] && p.fingerprintFields == [] && p.temporalFields == []
              && forall i | 0 <= i < |p.fields| ::
                   && p.fields[i].name == d.fields[i].name && p.fields[i].type_ == d.fields[i].type_
                   && (p.fields[i].required <==> d.fields[i].name == d.primaryKey)
                   && p.fields[i].format.None? && p.fields[i].description.None?
  {
  }

  /** The provenance records exactly the composed names: those of surviving
      candidates as the LLM's, all others as derived. */
  lemma ProvenanceOf(apiName: string, identity: IdentityModel, enriched: seq<Entity>, fallback: Option<Fallback>, name: string)
    ensures var r := Composed(apiName, identity, enriched, fallback).provenance;
            var derived := exists d | d in identity.entities :: d.name == name;
            var extra := exists e | e in Extras(identity, fallback) :: e.name == name;
            && (name in r <==> derived || extra)
            && (name in r ==> r[name] == if extra then FromLlm else FromDerivation)
  {
    hide Extras, Merged, PkMap, EnumMap, Collections, Provenance;
    ProvenanceIs(identity.entities, Extras(identity, fallback), name);
  }

  lemma ProvenanceIs(ds: seq<DerivedEntity>, extras: seq<Entity>, name: string)
    ensures var r := Provenance(ds, extras);
            var derived := exists d | d in ds :: d.name == name;
            var extra := exists e | e in extras :: e.name == name;
            && (name in r <==> derived || extra)
            && (name in r ==> r[name] == if extra then FromLlm else FromDerivation)
  {
    NamesOf(extras);
    DerivedNamesAre(ds, name);
    hide EntityNames, DerivedNames;
  }

  lemma DerivedNamesAre(ds: seq<DerivedEntity>, name: string)
    ensures name in DerivedNames(ds) <==> exists d | d in ds :: d.name == name
  {
    if d :| d in ds && d.name == name {
      var i :| 0 <= i < |ds| && ds[i] == d;
      assert DerivedNames(ds)[i] == name;
    }
    if name in DerivedNames(ds) {
      var i :| 0 <= i < |ds| && DerivedNames(ds)[i] == name;
      assert ds[i] in ds;
    }
  }

  // ---- what is pinned ----

  /** The shape listed last under this name. */
  ghost predicate ShapeNamed(elements: seq<FieldShape>, name: string, shape: ElementShape) {
    exists i | 0 <= i < |elements| :: elements[i] == FieldShape(name, shape) && forall k | i < k < |elements| :: elements[k].name != name
  }

  /** The values listed last under this name. */
  ghost predicate EnumNamed(enums: seq<FieldEnum>, name: string, values: seq<string>) {
    exists i | 0 <= i < |enums| :: enums[i] == FieldEnum(name, values) && forall k | i < k < |enums| :: enums[k].name != name
  }

  lemma {:induction false} LastShapeIs(elements: seq<FieldShape>, name: string)
    ensures forall shape :: LastShape(elements, name) == Some(shape) <==> ShapeNamed(elements, name, shape)
  {
    if elements != [] {
      var n := |elements| - 1;
      var init, last := elements[..n], elements[n];
      assert elements == init + [last];
      LastShapeIs(init, name);
      if last.name == name {
        assert ShapeNamed(elements, name, last.shape);
      } else {
        forall shape ensures ShapeNamed(elements, name, shape) <==> ShapeNamed(init, name, shape) {
          if i :| 0 <= i < |init| && init[i] == FieldShape(name, shape) && forall k | i < k < |init| :: init[k].name != name {
            assert elements[i] == FieldShape(name, shape);
          }
          if i :| 0 <= i < |elements| && elements[i] == FieldShape(name, shape) && forall k | i < k < |elements| :: elements[k].name != name {
            assert init[i] == FieldShape(name, shape);
          }
        }
      }
    }
  }

  lemma {:induction false} LastEnumIs(enums: seq<FieldEnum>, name: string)
    ensures forall values :: LastEnum(enums, name) == Some(values) <==> EnumNamed(enums, name, values)
  {
    if enums != [] {
      var n := |enums| - 1;
      var init, last := enums[..n], enums[n];
      assert enums == init + [last];
      LastEnumIs(init, name);
      if last.name == name {
        assert EnumNamed(enums, name, last.values);
      } else {
        forall values ensures EnumNamed(enums, name, values) <==> EnumNamed(init, name, values) {
          if i :| 0 <= i < |init| && init[i] == FieldEnum(name, values) && forall k | i < k < |init| :: init[k].name != name {
            assert enums[i] == FieldEnum(name, values);
          }
          if i :| 0 <= i < |enums| && enums[i] == FieldEnum(name, values) && forall k | i < k < |enums| :: enums[k].name != name {
            assert init[i] == FieldEnum(name, values);
          }
        }
      }
    }
  }

  /** A field of a derived entity has a shape exactly if one was derived for its
      name, and the derived values where there are any. */
  lemma FieldsPinned(d: DerivedEntity, enriched: seq<Entity>, f: Field)
    requires f in Pinned(d, enriched).fields
    ensures forall shape :: f.element == Some(shape) <==> ShapeNamed(d.elements, f.name, shape)
    ensures forall values | values != [] && EnumNamed(d.enums, f.name, values) :: f.values == Some(values)
  {
    LastShapeIs(d.elements, f.name);
    LastEnumIs(d.enums, f.name);
    hide ShapeNamed, EnumNamed, LastShape, LastEnum, LastNamed;
  }

  /** Entity `i` is derived last for this collection and has these enums. */
  ghost predicate SpeaksAt(ds: seq<DerivedEntity>, collection: string, enums: seq<FieldEnum>, i: int) {
    && 0 <= i < |ds| && ds[i].collection == collection && ds[i].enums == enums != []
    && forall k | i < k < |ds| :: ds[k].collection != collection || ds[k].enums == []
  }

  lemma SpeaksMore(ds: seq<DerivedEntity>, d: DerivedEntity, collection: string, enums: seq<FieldEnum>, i: int)
    requires d.collection != collection || d.enums == []
    ensures SpeaksAt(ds + [d], collection, enums, i) <==> SpeaksAt(ds, collection, enums, i)
  {
    if SpeaksAt(ds + [d], collection, enums, i) {
      forall k | i < k < |ds| ensures ds[k].collection != collection || ds[k].enums == [] { assert (ds + [d])[k] == ds[k]; }
    }
  }

  /** The contract lists the enums of a collection exactly if its entity has any. */
  lemma {:induction false} EnumMapIs(ds: seq<DerivedEntity>, collection: string, enums: seq<FieldEnum>)
    ensures (collection in EnumMap(ds) && EnumMap(ds)[collection] == enums) <==> exists i :: SpeaksAt(ds, collection, enums, i)
  {
    if ds != [] {
      var n := |ds| - 1;
      var init, last := ds[..n], ds[n];
      assert ds == init + [last];
      EnumMapIs(init, collection, enums);
      if last.collection == collection && last.enums != [] {
        assert enums == last.enums ==> SpeaksAt(ds, collection, enums, n);
        forall i | SpeaksAt(ds, collection, enums, i) ensures enums == last.enums { }
      } else {
        forall i ensures SpeaksAt(ds, collection, enums, i) <==> SpeaksAt(init, collection, enums, i) {
          SpeaksMore(init, last, collection, enums, i);
        }
      }
    }
  }
}
