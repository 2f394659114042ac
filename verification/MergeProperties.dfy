/** The composed contract is a function of the specification and of which
    fallback entities there are - not of enrichment, nor of any LLM's order. */
module MergeProperties {
  import opened Wrappers
  import opened StableSort
  import opened Names
  import opened Ir
  import opened Identity
  import opened Merge

  // ---- selections count ----

  lemma {:induction false} SelectCounts(es: seq<Entity>, keep: Entity -> bool)
    ensures forall e :: multiset(Select(es, keep))[e] == if keep(e) then multiset(es)[e] else 0
  {
    if es != [] {
      SelectCounts(es[..|es| - 1], keep);
      assert es == es[..|es| - 1] + [es[|es| - 1]];
    }
  }

  lemma SelectPermuted(a: seq<Entity>, b: seq<Entity>, keep: Entity -> bool)
    requires multiset(a) == multiset(b)
    ensures multiset(Select(a, keep)) == multiset(Select(b, keep))
  {
    SelectCounts(a, keep);
    SelectCounts(b, keep);
  }

  lemma SelectMembers(es: seq<Entity>, keep: Entity -> bool)
    ensures forall e :: e in Select(es, keep) <==> e in es && keep(e)
  {
    SelectCounts(es, keep);
    forall e ensures e in Select(es, keep) <==> e in es && keep(e) {
      InMultiset(es, e);
      InMultiset(Select(es, keep), e);
    }
  }

  lemma CountPermuted(a: seq<Entity>, b: seq<Entity>, key: Entity -> string, k: string)
    requires multiset(a) == multiset(b)
    ensures CountOf(a, key, k) == CountOf(b, key, k)
  {
    CountAsMultiset(a, key, k);
    CountAsMultiset(b, key, k);
    var p: Entity -> bool := e => key(e) == k;
    SelectPermuted(a, b, p);
  }

  lemma CountAsMultiset(a: seq<Entity>, key: Entity -> string, k: string)
    ensures CountOf(a, key, k) == |multiset(Select(a, e => key(e) == k))|
  {
  }

  /** Selecting by a test that agrees on all members selects the same. */
  lemma {:induction false} SelectSame(es: seq<Entity>, p: Entity -> bool, q: Entity -> bool)
    requires forall e :: p(e) == q(e)
    ensures Select(es, p) == Select(es, q)
  {
    if es != [] {
      SelectSame(es[..|es| - 1], p, q);
    }
  }

  lemma UniquePermuted(a: seq<Entity>, b: seq<Entity>, key: Entity -> string)
    requires multiset(a) == multiset(b)
    ensures multiset(Select(a, Unique(a, key))) == multiset(Select(b, Unique(b, key)))
  {
    forall e ensures Unique(a, key)(e) == Unique(b, key)(e) {
      CountPermuted(a, b, key, key(e));
    }
    SelectSame(b, Unique(a, key), Unique(b, key));
    SelectPermuted(a, b, Unique(a, key));
  }

  lemma SurvivorsPermuted(a: seq<Entity>, b: seq<Entity>, collections: set<string>, names: set<string>)
    requires multiset(a) == multiset(b)
    ensures multiset(Survivors(a, collections, names)) == multiset(Survivors(b, collections, names))
  {
    var ca, cb := Select(a, Unreserved(collections, names)), Select(b, Unreserved(collections, names));
    SelectPermuted(a, b, Unreserved(collections, names));
    UniquePermuted(ca, cb, CollectionKey);
    UniquePermuted(Select(ca, Unique(ca, CollectionKey)), Select(cb, Unique(cb, CollectionKey)), NameKey);
  }

  // ---- survivors are distinct ----

  ghost predicate DistinctBy(es: seq<Entity>, key: Entity -> string) {
    forall i, j | 0 <= i < j < |es| :: key(es[i]) != key(es[j])
  }

  lemma {:induction false} CountTwo(es: seq<Entity>, key: Entity -> string, i: nat, j: nat)
    requires i < j < |es| && key(es[i]) == key(es[j])
    ensures CountOf(es, key, key(es[i])) >= 2
  {
    var k := key(es[i]);
    var p: Entity -> bool := e => key(e) == k;
    SelectLength(es, p, i, j);
    assert CountOf(es, key, k) == |Select(es, e => key(e) == k)|;
    SelectSame(es, p, e => key(e) == k);
  }

  lemma {:induction false} SelectLength(es: seq<Entity>, p: Entity -> bool, i: nat, j: nat)
    requires i < |es| && p(es[i])
    ensures |Select(es, p)| >= 1
    ensures i < j < |es| && p(es[j]) ==> |Select(es, p)| >= 2
  {
    var n := |es| - 1;
    if i < n {
      SelectLength(es[..n], p, i, j);
    }
  }

  /** A selection keeps the order, so a repeated member was repeated before. */
  lemma {:induction false} SelectPositions(es: seq<Entity>, keep: Entity -> bool, i: nat, j: nat) returns (p: nat, q: nat)
    requires i < j < |Select(es, keep)|
    ensures p < q < |es| && es[p] == Select(es, keep)[i] && es[q] == Select(es, keep)[j]
  {
    var n := |es| - 1;
    var before := Select(es[..n], keep);
    if j < |before| {
      p, q := SelectPositions(es[..n], keep, i, j);
    } else {
      q := n;
      SelectMembers(es[..n], keep);
      assert before[i] in before;
      p :| 0 <= p < n && es[..n][p] == before[i];
    }
  }

  lemma SelectUniqueDistinct(es: seq<Entity>, key: Entity -> string)
    ensures DistinctBy(Select(es, Unique(es, key)), key)
  {
    var r := Select(es, Unique(es, key));
    SelectMembers(es, Unique(es, key));
    forall i, j | 0 <= i < j < |r| ensures key(r[i]) != key(r[j]) {
      var p, q := SelectPositions(es, Unique(es, key), i, j);
      assert r[i] in r;
      if key(es[p]) == key(es[q]) {
        CountTwo(es, key, p, q);
        assert false;
      }
    }
  }

  lemma SelectKeepsDistinct(es: seq<Entity>, keep: Entity -> bool, key: Entity -> string)
    requires DistinctBy(es, key)
    ensures DistinctBy(Select(es, keep), key)
  {
    var r := Select(es, keep);
    forall i, j | 0 <= i < j < |r| ensures key(r[i]) != key(r[j]) {
      var p, q := SelectPositions(es, keep, i, j);
    }
  }

  /** No survivor collides with a reserved collection or name, and no two with each other. */
  lemma SurvivorsApart(candidates: seq<Entity>, collections: set<string>, names: set<string>)
    ensures var r := Survivors(candidates, collections, names);
            && DistinctBy(r, CollectionKey) && DistinctBy(r, NameKey)
            && forall e | e in r :: e in candidates && CollectionKey(e) !in collections && NameKey(e) !in names
  {
    var contested := Select(candidates, Unreserved(collections, names));
    var apart := Select(contested, Unique(contested, CollectionKey));
    SelectMembers(candidates, Unreserved(collections, names));
    SelectUniqueDistinct(contested, CollectionKey);
    SelectMembers(contested, Unique(contested, CollectionKey));
    SelectKeepsDistinct(apart, Unique(apart, NameKey), CollectionKey);
    SelectUniqueDistinct(apart, NameKey);
    SelectMembers(apart, Unique(apart, NameKey));
  }

  // ---- independence from the order of the fallback ----

  lemma ByNameTotal()
    ensures TotalPreorder(ByName)
  {
    NameOrder();
    ByTotal((e: Entity) => e.name, NameLe);
  }

  lemma {:induction false} TiesAppend<T>(a: seq<T>, b: seq<T>, v: T, le: Order<T>)
    ensures Ties(a + b, v, le) == Ties(a, v, le) + Ties(b, v, le)
  {
    if a == [] {
      assert a + b == b;
    } else {
      assert (a + b)[1..] == a[1..] + b;
      TiesAppend(a[1..], b, v, le);
    }
  }

  /** With distinct names a tie class has at most one member. */
  lemma {:induction false} NamedTies(es: seq<Entity>, v: Entity)
    requires DistinctBy(es, NameKey)
    ensures (forall e | e in es :: e.name != v.name) ==> Ties(es, v, ByName) == []
    ensures forall e | e in es && e.name == v.name :: Ties(es, v, ByName) == [e]
  {
    if es != [] {
      NameLeTotal(es[0].name, v.name);
      NamedTies(es[1..], v);
      assert ByName(es[0], v) && ByName(v, es[0]) <==> es[0].name == v.name;
      forall e | e in es[1..] && es[0].name == v.name ensures e.name != v.name {
        var j :| 0 <= j < |es[1..]| && es[1..][j] == e;
        assert NameKey(es[0]) != NameKey(es[j + 1]);
      }
      forall e | e in es && e.name == v.name ensures Ties(es, v, ByName) == [e] {
        if e != es[0] { assert e in es[1..]; }
      }
    }
  }

  lemma SameTies(a: seq<Entity>, b: seq<Entity>, v: Entity)
    requires multiset(a) == multiset(b) && DistinctBy(a, NameKey) && DistinctBy(b, NameKey)
    ensures Ties(a, v, ByName) == Ties(b, v, ByName)
  {
    NamedTies(a, v);
    NamedTies(b, v);
    forall e ensures e in a <==> e in b {
      InMultiset(a, e);
      InMultiset(b, e);
    }
  }

  /** Permuting the fallback's entities changes nothing at all: not the final
      entity list, not the store metadata, not the provenance. */
  lemma FallbackOrderIrrelevant(apiName: string, identity: IdentityModel, enriched: seq<Entity>, a: Fallback, b: Fallback)
    requires multiset(a.entities) == multiset(b.entities) && a.declined == b.declined
    ensures Composed(apiName, identity, enriched, Some(a)) == Composed(apiName, identity, enriched, Some(b))
  {
    var pinned := PinnedAll(identity.entities, enriched);
    var collections, names := Reserved(identity.entities), ReservedNames(identity.entities);
    var x, y := Survivors(a.entities, collections, names), Survivors(b.entities, collections, names);
    SurvivorsPermuted(a.entities, b.entities, collections, names);
    SurvivorsApart(a.entities, collections, names);
    SurvivorsApart(b.entities, collections, names);
    hide Survivors, Sort, NameLe, Pinned, Ties, PkMap, EnumMap, Key;
    ByNameTotal();
    SortSorted(pinned + x, ByName);
    SortSorted(pinned + y, ByName);
    forall v ensures Ties(Sort(pinned + x, ByName), v, ByName) == Ties(Sort(pinned + y, ByName), v, ByName) {
      SortStable(pinned + x, v, ByName);
      SortStable(pinned + y, v, ByName);
      TiesAppend(pinned, x, v, ByName);
      TiesAppend(pinned, y, v, ByName);
      SameTies(x, y, v);
    }
    StableSortUnique(Sort(pinned + x, ByName), Sort(pinned + y, ByName), ByName);
    SameNames(x, y);
    MarkSame(Mark(map[], DerivedNames(identity.entities), FromDerivation), EntityNames(x), EntityNames(y), FromLlm);
  }

  lemma SameNames(a: seq<Entity>, b: seq<Entity>)
    requires multiset(a) == multiset(b)
    ensures forall n :: n in EntityNames(a) <==> n in EntityNames(b)
  {
    NamesOf(a);
    NamesOf(b);
    forall e ensures e in a <==> e in b {
      InMultiset(a, e);
      InMultiset(b, e);
    }
  }

  lemma NamesOf(a: seq<Entity>)
    ensures forall n :: n in EntityNames(a) <==> exists e | e in a :: e.name == n
  {
    forall n ensures n in EntityNames(a) <==> exists e | e in a :: e.name == n {
      if e :| e in a && e.name == n {
        var i :| 0 <= i < |a| && a[i] == e;
        assert EntityNames(a)[i] == n;
      }
      if n in EntityNames(a) {
        var i :| 0 <= i < |a| && EntityNames(a)[i] == n;
        assert a[i] in a;
      }
    }
  }

  lemma MarkSame(into: map<string, Origin>, a: seq<string>, b: seq<string>, origin: Origin)
    requires forall n :: n in a <==> n in b
    ensures Mark(into, a, origin) == Mark(into, b, origin)
  {
  }

  // ---- independence from enrichment ----

  /** Two entities agree on the contract. */
  ghost predicate SameContract(a: Entity, b: Entity) {
    a.name == b.name && a.collection == b.collection && a.primaryKey == b.primaryKey
  }

  ghost predicate Pointwise(a: seq<Entity>, b: seq<Entity>) {
    |a| == |b| && forall i | 0 <= i < |a| :: SameContract(a[i], b[i])
  }

  lemma {:induction false} InsertPointwise(x: Entity, y: Entity, s: seq<Entity>, t: seq<Entity>)
    requires SameContract(x, y) && Pointwise(s, t)
    ensures Pointwise(Insert(x, s, ByName), Insert(y, t, ByName))
  {
    hide NameLe;
    if s != [] && !ByName(x, s[0]) {
      InsertPointwise(x, y, s[1..], t[1..]);
    }
  }

  lemma {:induction false} SortPointwise(s: seq<Entity>, t: seq<Entity>)
    requires Pointwise(s, t)
    ensures Pointwise(Sort(s, ByName), Sort(t, ByName))
  {
    if s != [] {
      SortPointwise(s[1..], t[1..]);
      InsertPointwise(s[0], t[0], Sort(s[1..], ByName), Sort(t[1..], ByName));
    }
  }

  lemma {:induction false} PkMapPointwise(a: seq<Entity>, b: seq<Entity>)
    requires Pointwise(a, b)
    ensures PkMap(a) == PkMap(b) && Collections(a) == Collections(b)
  {
    if a != [] {
      PkMapPointwise(a[..|a| - 1], b[..|b| - 1]);
    }
  }

  /** Whatever the enrichment returned, it cannot move the contract: collections,
      keys, enums and provenance are the same for any two enrichments. */
  lemma EnrichmentIrrelevant(apiName: string, identity: IdentityModel, a: seq<Entity>, b: seq<Entity>, fallback: Option<Fallback>)
    ensures var x, y := Composed(apiName, identity, a, fallback), Composed(apiName, identity, b, fallback);
            && x.model.metadata == y.model.metadata
            && x.provenance == y.provenance
            && Pointwise(x.model.entities, y.model.entities)
  {
    var ds, extras := identity.entities, Extras(identity, fallback);
    assert Pointwise(PinnedAll(ds, a) + extras, PinnedAll(ds, b) + extras);
    SortPointwise(PinnedAll(ds, a) + extras, PinnedAll(ds, b) + extras);
    PkMapPointwise(Merged(identity, a, fallback), Merged(identity, b, fallback));
  }

  /** Every field a derived entity ends up with carries the derived element
      shape for its name, or none, and the derived enum where there is one. */
  lemma DerivedFieldsPinned(identity: IdentityModel, enriched: seq<Entity>, fallback: Option<Fallback>, d: DerivedEntity)
    requires d in identity.entities
    ensures Pinned(d, enriched) in Merged(identity, enriched, fallback)
    ensures SameContract(Pinned(d, enriched), Structural(d))
    ensures forall f | f in Pinned(d, enriched).fields ::
              && f.element == ShapeFor(d, f.name)
              && (LastEnum(d.enums, f.name).Some? && LastEnum(d.enums, f.name).value != [] ==> f.values == LastEnum(d.enums, f.name))
  {
    var pinned := PinnedAll(identity.entities, enriched);
    var i :| 0 <= i < |identity.entities| && identity.entities[i] == d;
    assert pinned[i] == Pinned(d, enriched);
    assert pinned[i] in pinned + Extras(identity, fallback);
    SortMembers(pinned + Extras(identity, fallback), ByName);
  }

  // ---- one primary key per entity ----

  function CollectionOf(e: Entity): (r: string) { e.collection }

  lemma {:induction false} InsertDistinctBy(x: Entity, s: seq<Entity>)
    requires DistinctBy(s, CollectionOf) && forall e | e in s :: e.collection != x.collection
    ensures DistinctBy(Insert(x, s, ByName), CollectionOf)
  {
    hide NameLe;
    if s != [] && !ByName(x, s[0]) {
      InsertDistinctBy(x, s[1..]);
      InsertMembers(x, s[1..], ByName);
      var r := Insert(x, s[1..], ByName);
      forall j | 0 <= j < |r| ensures r[j].collection != s[0].collection {
        assert r[j] in r;
        if r[j] != x {
          var k :| 0 <= k < |s[1..]| && s[1..][k] == r[j];
          assert CollectionOf(s[0]) != CollectionOf(s[k + 1]);
        }
      }
    }
  }

  lemma {:induction false} SortDistinctBy(s: seq<Entity>)
    requires DistinctBy(s, CollectionOf)
    ensures DistinctBy(Sort(s, ByName), CollectionOf)
  {
    if s != [] {
      SortDistinctBy(s[1..]);
      SortMembers(s[1..], ByName);
      forall e | e in Sort(s[1..], ByName) ensures e.collection != s[0].collection {
        var k :| 0 <= k < |s[1..]| && s[1..][k] == e;
        assert CollectionOf(s[0]) != CollectionOf(s[k + 1]);
      }
      InsertDistinctBy(s[0], Sort(s[1..], ByName));
    }
  }

  lemma {:induction false} PutPkNew(items: seq<PrimaryKey>, pk: PrimaryKey)
    requires forall i | 0 <= i < |items| :: items[i].collection != pk.collection
    ensures PutPk(items, pk) == items + [pk]
  {
    if items != [] {
      PutPkNew(items[1..], pk);
    }
  }

  lemma {:induction false} PkMapExact(es: seq<Entity>)
    requires DistinctBy(es, CollectionOf)
    ensures |PkMap(es)| == |es|
    ensures forall i | 0 <= i < |es| :: PkMap(es)[i] == PrimaryKey(es[i].collection, es[i].primaryKey)
  {
    if es != [] {
      var n := |es| - 1;
      PkMapExact(es[..n]);
      forall i | 0 <= i < n ensures PkMap(es[..n])[i].collection != es[n].collection {
        assert CollectionOf(es[i]) != CollectionOf(es[n]);
      }
      PutPkNew(PkMap(es[..n]), PrimaryKey(es[n].collection, es[n].primaryKey));
    }
  }

  ghost predicate DistinctCollections(ds: seq<DerivedEntity>) {
    forall i, j | 0 <= i < j < |ds| :: ds[i].collection != ds[j].collection
  }

  lemma MergedDistinct(identity: IdentityModel, enriched: seq<Entity>, fallback: Option<Fallback>)
    requires DistinctCollections(identity.entities)
    ensures DistinctBy(Merged(identity, enriched, fallback), CollectionOf)
  {
    var ds := identity.entities;
    var pinned, extras := PinnedAll(ds, enriched), Extras(identity, fallback);
    if fallback.Some? { SurvivorsApart(fallback.value.entities, Reserved(ds), ReservedNames(ds)); }
    var all := pinned + extras;
    hide Survivors, Key, Sort, NameLe;
    forall i, j | 0 <= i < j < |all| ensures CollectionOf(all[i]) != CollectionOf(all[j]) {
      if j < |pinned| {
        assert ds[i].collection != ds[j].collection;
      } else if i < |pinned| {
        assert extras[j - |pinned|] in extras;
        assert Key(ds[i].collection) in Reserved(ds);
      } else {
        assert CollectionKey(extras[i - |pinned|]) != CollectionKey(extras[j - |pinned|]);
      }
    }
    SortDistinctBy(all);
  }

  /** After composition the key map has exactly one item per entity, holding
      that entity's own key. */
  lemma OneKeyPerEntity(apiName: string, identity: IdentityModel, enriched: seq<Entity>, fallback: Option<Fallback>)
    requires DistinctCollections(identity.entities)
    ensures var model := Composed(apiName, identity, enriched, fallback).model;
            && |model.metadata.pkMap| == |model.entities| == |model.metadata.collections|
            && DistinctKeys(model.metadata.pkMap)
            && forall i | 0 <= i < |model.entities| ::
                 && model.metadata.pkMap[i] == PrimaryKey(model.entities[i].collection, model.entities[i].primaryKey)
                 && model.metadata.collections[i] == model.entities[i].collection
                 && model.metadata.PkOf(model.entities[i].collection) == Some(model.entities[i].primaryKey)
  {
    var merged := Merged(identity, enriched, fallback);
    MergedDistinct(identity, enriched, fallback);
    PkMapExact(merged);
    hide Merged, PkMap, EnumMap;
    var pkMap := PkMap(merged);
    forall i, j | 0 <= i < j < |pkMap| ensures pkMap[i].collection != pkMap[j].collection {
      assert CollectionOf(merged[i]) != CollectionOf(merged[j]);
    }
    forall i | 0 <= i < |merged| ensures FindPk(pkMap, merged[i].collection) == Some(merged[i].primaryKey) {
      FindPkAt(pkMap, i);
    }
  }
}
