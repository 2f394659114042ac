/** When the elements of a container are stored by reference, when inline, and
    what each form holds (analyze/identity.py, `_element_shape`). */
module ShapeRules {
  import opened Wrappers
  import opened Json
  import opened StableSort
  import opened Names
  import opened Naming
  import opened NamingProperties
  import opened Ir
  import opened Identity
  import opened ElementMeaning
  import opened ClusterFields
  import opened EnumUnion
  import ElementShapes

  // ---- the fields of an element ----

  /** What is known of one field of an element. */
  ghost predicate FieldOf(element: Object, enums: Enums, f: ElementField) {
    && f.name in OwnProps(element)
    && TypeOf(OwnProps(element)[f.name], f.type_)
    && (f.required <==> Requires(Obj(element), f.name))
    && (match f.values
        case Some(vs) => vs != [] && f.name in enums && enums[f.name] == Values(vs)
        case None => f.name in enums ==> enums[f.name] == Blocked || enums[f.name] == Values([]))
  }

  /** The fields of an element are its properties, in the order of their names. */
  lemma ElementFieldsMeaning(element: Object, enums: Enums)
    ensures var fields := ElementFields(element, enums);
            && (forall f | f in fields :: FieldOf(element, enums, f))
            && (forall n | n in OwnProps(element) :: exists f :: f in fields && f.name == n)
            && (forall i, j | 0 <= i < j < |fields| :: fields[i].name != fields[j].name && NameLe(fields[i].name, fields[j].name))
  {
    var props := OwnProps(element);
    var names := SortedNames(props.Keys);
    SortedNamesLists(props.Keys);
    hide NameLe, SortedNames;
    var fields := ElementFields(element, enums);
    forall f | f in fields ensures FieldOf(element, enums, f) {
      var i :| 0 <= i < |fields| && fields[i] == f;
      assert names[i] in names;
      OneField(element, enums, names, i);
    }
    forall n | n in props ensures exists f :: f in fields && f.name == n {
      assert n in names;
      var i :| 0 <= i < |names| && names[i] == n;
      assert fields[i] in fields && fields[i].name == n;
    }
  }

  lemma OneField(element: Object, enums: Enums, names: seq<string>, i: nat)
    requires i < |names| && names[i] in OwnProps(element)
    ensures FieldOf(element, enums, FieldsAmong(element, names, enums)[i])
  {
    RequiredMeaning(Obj(element), names[i]);
  }

  // ---- the foreign key of an element ----

  /** The only property that could be a key of another entity's, naming another entity. */
  ghost predicate RefersBy(element: Object, clusters: Clusters, parent: Option<string>, local: string, noun: string) {
    && Candidate(OwnProps(element), local) && (forall c :: Candidate(OwnProps(element), c) ==> c == local)
    && noun == NounFor(local, "") && noun in clusters && parent != Some(noun)
  }

  lemma ForeignKeyMeaning(element: Object, clusters: Clusters, parent: Option<string>, local: string, noun: string)
    ensures ForeignKey(element, clusters, parent) == Some((local, noun)) <==> RefersBy(element, clusters, parent, local, noun)
  {
    var props := OwnProps(element);
    KeyCandidatesMeaning(props);
    hide KeyCandidates, Candidate, NounFor, NameLe;
    var candidates := KeyCandidates(props);
    if |candidates| >= 1 { assert candidates[0] in candidates; }
    if |candidates| >= 2 { assert candidates[1] in candidates && candidates[0] != candidates[1]; }
    if |candidates| == 1 { assert forall c | c in candidates :: c == candidates[0]; }
  }

  // ---- hops ----

  lemma {:induction false} BeforeLastDotMeaning(a: string, b: string)
    requires '.' !in b
    ensures BeforeLastDot(a + "." + b) == a
    ensures BeforeLastDot(b) == b
    decreases |b|
  {
    var s := a + "." + b;
    if b == [] {
      assert s == a + ".";
      assert s[|s| - 1] == '.';
    } else {
      var n := |b| - 1;
      assert s[..|s| - 1] == a + "." + b[..n];
      assert s[|a|] == '.' && '.' in s;
      assert s[|s| - 1] == b[n] && b[n] in b;
      BeforeLastDotMeaning(a, b[..n]);
    }
  }

  /** A container of the holder has elements that refer to the collection. */
  ghost predicate RefersTo(e: Element, collection: string, clusters: Clusters) {
    exists element, local, noun ::
      FirstAmong(MapPlaces(e.schema), element) && RefersBy(element, clusters, None, local, noun) && Pluralize(noun) == collection
  }

  lemma PointsToMeaning(e: Element, collection: string, clusters: Clusters)
    ensures PointsTo(e, collection, clusters) <==> RefersTo(e, collection, clusters)
  {
    NestedInMeaning(e.schema);
    hide NestedIn, FirstAmong, MapPlaces, ForeignKey, RefersBy, Pluralize;
    if NestedIn(e.schema).Some? {
      var element := NestedIn(e.schema).value;
      forall local, noun ensures ForeignKey(element, clusters, None) == Some((local, noun)) <==> RefersBy(element, clusters, None, local, noun) {
        ForeignKeyMeaning(element, clusters, None, local, noun);
      }
      if ForeignKey(element, clusters, None).Some? {
        assert RefersBy(element, clusters, None, ForeignKey(element, clusters, None).value.0, ForeignKey(element, clusters, None).value.1);
      }
    }
  }

  /** The target is nested in the holder: one of its sources is a property of one
      of the holder's, or a container of the holder refers to its collection. */
  ghost predicate NestedUnder(clusters: Clusters, holder: Cluster, target: Cluster, collection: string) {
    || (exists a, b: string :: a in holder.sources && '.' !in b && a + "." + b in target.sources)
    || exists prop | prop in holder.elementSchemas :: RefersTo(holder.elementSchemas[prop], collection, clusters)
  }

  lemma NestedInHolderMeaning(clusters: Clusters, holder: Cluster, target: Cluster, collection: string)
    ensures NestedInHolder(clusters, holder, target, collection) <==> NestedUnder(clusters, holder, target, collection)
  {
    hide PointsTo, RefersTo, BeforeLastDot;
    forall e ensures PointsTo(e, collection, clusters) <==> RefersTo(e, collection, clusters) { PointsToMeaning(e, collection, clusters); }
    forall s: string | '.' in s ensures exists b :: '.' !in b && s == BeforeLastDot(s) + "." + b {
      var b := LastDot(s);
    }
    forall a: string, b: string | '.' !in b ensures BeforeLastDot(a + "." + b) == a && '.' in a + "." + b {
      BeforeLastDotMeaning(a, b);
      assert (a + "." + b)[|a|] == '.';
    }
    if s :| s in target.sources && '.' in s && BeforeLastDot(s) in holder.sources {
      var b: string :| '.' !in b && s == BeforeLastDot(s) + "." + b;
      assert BeforeLastDot(s) + "." + b in target.sources;
    }
  }

  lemma {:induction false} LastDot(s: string) returns (b: string)
    requires '.' in s
    ensures '.' !in b && s == BeforeLastDot(s) + "." + b
  {
    var n := |s| - 1;
    if s[n] == '.' {
      b := "";
      assert s == s[..n] + ".";
    } else {
      assert s == s[..n] + [s[n]];
      b := LastDot(s[..n]);
      b := b + [s[n]];
    }
  }

  /** Another entity that the target is nested in and that carries the field from
      a source of its own. */
  ghost predicate Hop(clusters: Clusters, noun: string, target: string, field: string, own: set<string>) {
    && noun in clusters && target in clusters && noun != target
    && (exists s :: s in Sources(clusters[noun], field) && s !in own)
    && NestedUnder(clusters, clusters[noun], clusters[target], Pluralize(target))
  }

  lemma HopMeaning(clusters: Clusters, noun: string, target: string, field: string, own: set<string>)
    ensures IsHop(clusters, noun, target, field, own) <==> Hop(clusters, noun, target, field, own)
  {
    if noun in clusters && target in clusters {
      NestedInHolderMeaning(clusters, clusters[noun], clusters[target], Pluralize(target));
      hide NestedInHolder, NestedUnder, Pluralize;
      var sources := Sources(clusters[noun], field);
      if s :| s in sources && s !in own { assert s in sources - own; }
    }
  }

  /** The first hop in noun order. */
  ghost predicate FirstHop(clusters: Clusters, noun: string, target: string, field: string, own: set<string>) {
    Hop(clusters, noun, target, field, own) && forall n :: Hop(clusters, n, target, field, own) ==> NameLe(noun, n)
  }

  lemma {:induction false} OneHopOutMeaning(clusters: Clusters, nouns: seq<string>, target: string, field: string, own: set<string>)
    ensures match OneHopOut(clusters, nouns, target, field, own)
            case None => forall n | n in nouns :: !Hop(clusters, n, target, field, own)
            case Some(h) => exists i | 0 <= i < |nouns| ::
              nouns[i] == h && Hop(clusters, h, target, field, own) && forall k | 0 <= k < i :: !Hop(clusters, nouns[k], target, field, own)
  {
    hide IsHop, Hop;
    if nouns != [] {
      HopMeaning(clusters, nouns[0], target, field, own);
      OneHopOutMeaning(clusters, nouns[1..], target, field, own);
      if !Hop(clusters, nouns[0], target, field, own) && OneHopOut(clusters, nouns, target, field, own).Some? {
        var h := OneHopOut(clusters, nouns, target, field, own).value;
        var i :| 0 <= i < |nouns[1..]| && nouns[1..][i] == h && Hop(clusters, h, target, field, own)
          && forall k | 0 <= k < i :: !Hop(clusters, nouns[1..][k], target, field, own);
        assert nouns[i + 1] == h;
        forall k | 0 <= k < i + 1 ensures !Hop(clusters, nouns[k], target, field, own) {
          if k > 0 { assert nouns[k] == nouns[1..][k - 1]; }
        }
      }
    }
  }

  lemma HopOutMeaning(clusters: Clusters, target: string, field: string, own: set<string>)
    ensures match OneHopOut(clusters, SortedNames(clusters.Keys), target, field, own)
            case None => forall n :: !Hop(clusters, n, target, field, own)
            case Some(h) => FirstHop(clusters, h, target, field, own)
  {
    var nouns := SortedNames(clusters.Keys);
    SortedNamesLists(clusters.Keys);
    OneHopOutMeaning(clusters, nouns, target, field, own);
    assert forall n :: Hop(clusters, n, target, field, own) ==> n in nouns;
    hide Hop, NameLe, SortedNames;
    match OneHopOut(clusters, nouns, target, field, own)
    case None =>
    case Some(h) =>
      var i :| 0 <= i < |nouns| && nouns[i] == h && forall k | 0 <= k < i :: !Hop(clusters, nouns[k], target, field, own);
      forall n | Hop(clusters, n, target, field, own) ensures NameLe(h, n) {
        var k :| 0 <= k < |nouns| && nouns[k] == n;
        if k == i { NameLeTotal(h, n); }
      }
  }

  // ---- what a reference keeps ----

  /** Neither the target nor a hop carries the field. */
  ghost predicate LeftOver(clusters: Clusters, target: string, own: set<string>, f: ElementField) {
    && target in clusters
    && (forall s | s in Sources(clusters[target], f.name) :: s in own)
    && forall n :: !Hop(clusters, n, target, f.name, own)
  }

  /** The hop's collection is needed for a field that the target lacks. */
  ghost predicate NeededHop(clusters: Clusters, target: string, own: set<string>, f: ElementField, collection: string) {
    && target in clusters
    && (forall s | s in Sources(clusters[target], f.name) :: s in own)
    && exists n :: FirstHop(clusters, n, target, f.name, own) && Pluralize(n) == collection
  }

  lemma CarriedMeaning(c: Cluster, field: string, own: set<string>)
    ensures CarriedElsewhere(c, field, own) <==> exists s :: s in Sources(c, field) && s !in own
  {
    var sources := Sources(c, field);
    if s :| s in sources && s !in own { assert s in sources - own; }
  }

  lemma FirstHopOnce(clusters: Clusters, m: string, n: string, target: string, field: string, own: set<string>)
    requires FirstHop(clusters, m, target, field, own) && FirstHop(clusters, n, target, field, own)
    ensures m == n
  {
    NameLeTotal(m, n);
  }

  lemma SiftOne(clusters: Clusters, target: string, own: set<string>, f: ElementField)
    requires target in clusters
    ensures var hop := OneHopOut(clusters, SortedNames(clusters.Keys), target, f.name, own);
            && (LeftOver(clusters, target, own, f) <==> !CarriedElsewhere(clusters[target], f.name, own) && hop.None?)
            && (forall h :: NeededHop(clusters, target, own, f, h) <==>
                  !CarriedElsewhere(clusters[target], f.name, own) && hop.Some? && h == Pluralize(hop.value))
  {
    CarriedMeaning(clusters[target], f.name, own);
    HopOutMeaning(clusters, target, f.name, own);
    hide OneHopOut, Pluralize, CarriedElsewhere, SortedNames, Sources, FirstHop;
    var hop := OneHopOut(clusters, SortedNames(clusters.Keys), target, f.name, own);
    forall n | FirstHop(clusters, n, target, f.name, own) ensures hop == Some(n) {
      IsAHop(clusters, n, target, f.name, own);
      FirstHopOnce(clusters, n, hop.value, target, f.name, own);
    }
    if hop.Some? { IsAHop(clusters, hop.value, target, f.name, own); }
  }

  lemma IsAHop(clusters: Clusters, n: string, target: string, field: string, own: set<string>)
    requires FirstHop(clusters, n, target, field, own)
    ensures Hop(clusters, n, target, field, own)
  {
  }

  lemma SiftStep(clusters: Clusters, target: string, own: set<string>, fields: seq<ElementField>)
    requires target in clusters && fields != []
    ensures var before, s, f := Sift(clusters, target, own, fields[..|fields| - 1]), Sift(clusters, target, own, fields), fields[|fields| - 1];
            && s.fields == before.fields + (if LeftOver(clusters, target, own, f) then [f] else [])
            && (s.hops == before.hops
                || exists h :: s.hops == before.hops + [h] && h !in before.hops && NeededHop(clusters, target, own, f, h))
            && forall h | NeededHop(clusters, target, own, f, h) :: h in s.hops
  {
    SiftOne(clusters, target, own, fields[|fields| - 1]);
    hide CarriedElsewhere, OneHopOut, Pluralize, SortedNames, LeftOver, NeededHop;
  }

  /** Sifting keeps exactly the fields left over, in their order. */
  lemma {:induction false} SiftMeaning(clusters: Clusters, target: string, own: set<string>, fields: seq<ElementField>)
    requires target in clusters
    ensures forall f :: f in Sift(clusters, target, own, fields).fields <==> f in fields && LeftOver(clusters, target, own, f)
    ensures Within(Sift(clusters, target, own, fields).fields, fields)
  {
    if fields == [] {
      EmptyWithin<ElementField>([]);
    } else {
      var init, f := fields[..|fields| - 1], fields[|fields| - 1];
      assert fields == init + [f];
      SiftMeaning(clusters, target, own, init);
      SiftStep(clusters, target, own, fields);
      hide Sift, LeftOver, NeededHop, Within;
      WithinMore(Sift(clusters, target, own, init).fields, init, f);
      assert Sift(clusters, target, own, init).fields + [] == Sift(clusters, target, own, init).fields;
    }
  }

  /** It names exactly the hops needed, each once. */
  lemma {:induction false} SiftedHops(clusters: Clusters, target: string, own: set<string>, fields: seq<ElementField>)
    requires target in clusters
    ensures forall h :: h in Sift(clusters, target, own, fields).hops <==> exists f | f in fields :: NeededHop(clusters, target, own, f, h)
    ensures Distinct(Sift(clusters, target, own, fields).hops)
  {
    if fields != [] {
      var init, f := fields[..|fields| - 1], fields[|fields| - 1];
      assert fields == init + [f];
      SiftedHops(clusters, target, own, init);
      SiftStep(clusters, target, own, fields);
      hide Sift, LeftOver, NeededHop;
    }
  }

  /** `some` is `all` with elements left out, the order kept. */
  ghost predicate Within<T>(some: seq<T>, all: seq<T>) {
    || some == []
    || (all != [] && Within(some, all[..|all| - 1]))
    || (all != [] && some[|some| - 1] == all[|all| - 1] && Within(some[..|some| - 1], all[..|all| - 1]))
  }

  lemma EmptyWithin<T>(all: seq<T>)
    ensures Within([], all)
  {
  }

  lemma WithinMore<T>(some: seq<T>, all: seq<T>, x: T)
    requires Within(some, all)
    ensures Within(some, all + [x]) && Within(some + [x], all + [x])
  {
    assert (all + [x])[..|all|] == all && (some + [x])[..|some|] == some;
  }

  // ---- the shape ----

  /** The cluster that the elements described here are promoted to: they have a
      key of their own, and its noun became an entity. */
  ghost predicate Promoted(clusters: Clusters, parent: string, prop: string, schema: Object, synthetic: bool, element: Object, key: string, noun: string) {
    && parent in clusters && FirstAmong(MapPlaces(schema), element)
    && IdentityKey(prop, element, synthetic, true) == Some(key) && key != clusters[parent].primaryKey
    && noun == NounFor(key, prop) && noun in clusters
  }

  /** The elements have no key of their own, but refer to another entity. */
  ghost predicate Refers(clusters: Clusters, parent: string, prop: string, schema: Object, synthetic: bool, element: Object, local: string, noun: string) {
    && parent in clusters && FirstAmong(MapPlaces(schema), element)
    && (IdentityKey(prop, element, synthetic, true).None? || IdentityKey(prop, element, synthetic, true) == Some(clusters[parent].primaryKey))
    && RefersBy(element, clusters, Some(parent), local, noun)
  }

  /** The target of a shape is this cluster. */
  ghost predicate Targets(clusters: Clusters, shape: ElementShape, noun: string) {
    noun in clusters && shape.targetCollection == Some(Pluralize(noun)) && shape.targetKey == Some(clusters[noun].primaryKey)
  }

  ghost function ElementEnums(clusters: Clusters, parent: string, prop: string): (r: Enums)
    requires parent in clusters
  {
    if prop in clusters[parent].elementEnums then clusters[parent].elementEnums[prop] else map[]
  }

  /** Elements that are no objects: a scalar if a type is named, else nothing is known. */
  lemma ScalarShape(clusters: Clusters, parent: string, prop: string, e: Element, synthetic: bool)
    requires parent in clusters && e.schema != map[] && forall element :: !FirstAmong(MapPlaces(e.schema), element)
    ensures match ShapeOf(clusters, parent, prop, e, synthetic)
            case None => forall t :: Obj(e.schema).Get("type") != Some(Str(t))
            case Some(shape) =>
              && shape.kind.Scalar? && shape.container == e.container && shape.type_.Some?
              && Obj(e.schema).Get("type") == Some(Str(shape.type_.value))
              && shape.fields == [] && shape.targetCollection.None? && shape.targetKey.None? && shape.localKey.None?
              && shape.linkFields == [] && shape.hopCollections == []
  {
    NestedInMeaning(e.schema);
    hide NestedIn, FirstAmong;
  }

  lemma PromotedShape(clusters: Clusters, parent: string, prop: string, e: Element, synthetic: bool, element: Object, key: string, noun: string)
    requires Promoted(clusters, parent, prop, e.schema, synthetic, element, key, noun) && e.schema != map[]
    ensures var s := ShapeOf(clusters, parent, prop, e, synthetic);
            && s.Some? && s.value.container == e.container && Targets(clusters, s.value, noun) && s.value.localKey.None? && s.value.type_.None?
            && (s.value.kind == if e.container.MapOf? then Embedded else Reference)
            && (if e.container.MapOf? then
                  && s.value.fields == ElementFields(element, ElementEnums(clusters, parent, prop))
                  && s.value.linkFields == [] && s.value.hopCollections == []
                else s.value.fields == [])
  {
    NestedInMeaning(e.schema);
    hide NestedIn, FirstAmong, IdentityKey, NounFor, ElementFields, Sift, LinkFields, Sort, NameLe, Pluralize, OwnSources, ForeignKey;
  }

  /** A link object holds the key, then the fields left over, and nothing if none
      is; the hops needed come by name. */
  lemma ReferenceHolds(clusters: Clusters, parent: string, prop: string, e: Element, synthetic: bool, element: Object, key: string, noun: string)
    requires Promoted(clusters, parent, prop, e.schema, synthetic, element, key, noun) && e.schema != map[] && e.container.ArrayOf?
    ensures var s := ShapeOf(clusters, parent, prop, e, synthetic);
            var fields := ElementFields(element, ElementEnums(clusters, parent, prop));
            var own := set a | a in clusters[parent].sources :: a + "." + prop;
            && s.Some?
            && (s.value.linkFields != [] <==> exists f | f in fields :: LeftOver(clusters, noun, own, f))
            && (s.value.linkFields != [] ==>
                  forall f :: f in s.value.linkFields <==> f in fields && (f.name == key || LeftOver(clusters, noun, own, f)))
            && (forall h :: h in s.value.hopCollections <==> exists f | f in fields :: NeededHop(clusters, noun, own, f, h))
            && Sorted(s.value.hopCollections, NameLe)
  {
    NestedInMeaning(e.schema);
    var fields := ElementFields(element, ElementEnums(clusters, parent, prop));
    var own := OwnSources(clusters[parent], prop);
    var sifted := Sift(clusters, noun, own, fields);
    var s := ShapeOf(clusters, parent, prop, e, synthetic);
    assert s.Some? && s.value.linkFields == LinkFields(fields, sifted.fields, key) && s.value.hopCollections == Sort(sifted.hops, NameLe) by {
      hide NestedIn, FirstAmong, IdentityKey, NounFor, ElementFields, Sift, LinkFields, Sort, NameLe, Pluralize, OwnSources, ForeignKey;
    }
    assert own == set a | a in clusters[parent].sources :: a + "." + prop;
    hide NestedIn, FirstAmong, IdentityKey, NounFor, ElementFields, Sift, LinkFields, Sort, NameLe, Pluralize, OwnSources, ForeignKey, ShapeOf, LeftOver, NeededHop;
    LinkHolds(clusters, noun, own, fields, key);
  }

  lemma LinkHolds(clusters: Clusters, noun: string, own: set<string>, fields: seq<ElementField>, key: string)
    requires noun in clusters
    ensures var sifted := Sift(clusters, noun, own, fields);
            var link, hops := LinkFields(fields, sifted.fields, key), Sort(sifted.hops, NameLe);
            && (link != [] <==> exists f | f in fields :: LeftOver(clusters, noun, own, f))
            && (link != [] ==> forall f :: f in link <==> f in fields && (f.name == key || LeftOver(clusters, noun, own, f)))
            && (forall h :: h in hops <==> exists f | f in fields :: NeededHop(clusters, noun, own, f, h))
            && Sorted(hops, NameLe)
  {
    var sifted := Sift(clusters, noun, own, fields);
    SiftMeaning(clusters, noun, own, fields);
    SiftedHops(clusters, noun, own, fields);
    ElementShapes.NamedMembers(fields, key, true);
    ElementShapes.NamedMembers(sifted.fields, key, false);
    SortMembers(sifted.hops, NameLe);
    NameOrder();
    SortSorted(sifted.hops, NameLe);
    hide Sift, Named, Sort, NameLe, LeftOver, NeededHop;
    var link := LinkFields(fields, sifted.fields, key);
    if sifted.fields != [] {
      var f := sifted.fields[0];
      assert f in sifted.fields;
      assert f in link;
    }
  }

  ghost predicate ByName(fields: seq<ElementField>) {
    forall i, j | 0 <= i < j < |fields| :: NameLe(fields[i].name, fields[j].name)
  }

  lemma {:induction false} NamedByName(fields: seq<ElementField>, name: string, same: bool)
    requires ByName(fields)
    ensures ByName(Named(fields, name, same))
  {
    hide NameLe;
    if fields != [] {
      NamedByName(fields[1..], name, same);
      ElementShapes.NamedMembers(fields[1..], name, same);
      var rest := Named(fields[1..], name, same);
      forall j | 0 <= j < |rest| ensures NameLe(fields[0].name, rest[j].name) {
        assert rest[j] in fields[1..];
        var k :| 0 <= k < |fields[1..]| && fields[1..][k] == rest[j];
        assert fields[k + 1] == rest[j];
      }
    }
  }

  lemma {:induction false} WithinByName(some: seq<ElementField>, all: seq<ElementField>)
    requires Within(some, all) && ByName(all)
    ensures ByName(some) && forall f | f in some :: f in all
    decreases |all|
  {
    hide NameLe;
    if some != [] {
      var n, m := |all| - 1, |some| - 1;
      assert all == all[..n] + [all[n]];
      assert some == some[..m] + [some[m]];
      if Within(some, all[..n]) {
        WithinByName(some, all[..n]);
      } else {
        WithinByName(some[..m], all[..n]);
        forall i | 0 <= i < m ensures NameLe(some[i].name, some[m].name) {
          assert some[..m][i] in all[..n];
          var k :| 0 <= k < n && all[..n][k] == some[i];
          assert all[k] == some[i];
        }
      }
    }
  }

  /** The key comes first, the rest by name. */
  lemma LinkOrder(clusters: Clusters, noun: string, own: set<string>, fields: seq<ElementField>, key: string)
    requires noun in clusters && ByName(fields)
    ensures var link := LinkFields(fields, Sift(clusters, noun, own, fields).fields, key);
            exists n :: 0 <= n <= |link| && (forall i | 0 <= i < |link| :: link[i].name == key <==> i < n) && ByName(link[n..])
  {
    var left := Sift(clusters, noun, own, fields).fields;
    SiftMeaning(clusters, noun, own, fields);
    WithinByName(left, fields);
    NamedByName(left, key, false);
    ElementShapes.NamedMembers(fields, key, true);
    ElementShapes.NamedMembers(left, key, false);
    hide Sift, Within, LeftOver, NameLe, Named;
    var first, rest := Named(fields, key, true), Named(left, key, false);
    var link := LinkFields(fields, left, key);
    if left == [] {
      assert link[0..] == [];
    } else {
      assert link == first + rest && link[|first|..] == rest;
      forall i | 0 <= i < |link| ensures link[i].name == key <==> i < |first| {
        if i < |first| { assert first[i] in first; } else { assert rest[i - |first|] in rest; }
      }
    }
  }

  /** Objects that are not promoted are kept inline, with all their fields, and
      point at another entity exactly if they refer to one. */
  lemma InlineShape(clusters: Clusters, parent: string, prop: string, e: Element, synthetic: bool, element: Object)
    requires parent in clusters && e.schema != map[] && FirstAmong(MapPlaces(e.schema), element)
    requires forall key, noun :: !Promoted(clusters, parent, prop, e.schema, synthetic, element, key, noun)
    ensures var s := ShapeOf(clusters, parent, prop, e, synthetic);
            && s.Some? && s.value.kind.Embedded? && s.value.container == e.container && s.value.type_.None?
            && s.value.fields == ElementFields(element, ElementEnums(clusters, parent, prop))
            && s.value.linkFields == [] && s.value.hopCollections == []
            && (forall local, noun | Refers(clusters, parent, prop, e.schema, synthetic, element, local, noun) ::
                  s.value.localKey == Some(local) && Targets(clusters, s.value, noun))
            && ((forall local, noun :: !Refers(clusters, parent, prop, e.schema, synthetic, element, local, noun)) ==>
                  s.value.localKey.None? && s.value.targetCollection.None? && s.value.targetKey.None?)
  {
    NestedInMeaning(e.schema);
    var nested := IdentityKey(prop, element, synthetic, true);
    if nested.Some? && nested.value != clusters[parent].primaryKey {
      var noun := NounFor(nested.value, prop);
      assert !Promoted(clusters, parent, prop, e.schema, synthetic, element, nested.value, noun);
      assert noun !in clusters;
      hide NestedIn, FirstAmong, IdentityKey, NounFor, ElementFields, Sift, LinkFields, Sort, NameLe, Pluralize, OwnSources, ForeignKey, RefersBy;
    } else {
      forall local, noun ensures ForeignKey(element, clusters, Some(parent)) == Some((local, noun)) <==> RefersBy(element, clusters, Some(parent), local, noun) {
        ForeignKeyMeaning(element, clusters, Some(parent), local, noun);
      }
      hide NestedIn, FirstAmong, IdentityKey, NounFor, ElementFields, Sift, LinkFields, Sort, NameLe, Pluralize, OwnSources, ForeignKey, RefersBy;
      var fk := ForeignKey(element, clusters, Some(parent));
      if fk.Some? {
        assert Refers(clusters, parent, prop, e.schema, synthetic, element, fk.value.0, fk.value.1);
      }
    }
  }

  // ---- the derived entity ----

  ghost predicate ByTypeName(fields: seq<FieldType>) {
    forall i, j | 0 <= i < j < |fields| :: fields[i].name != fields[j].name && NameLe(fields[i].name, fields[j].name)
  }

  lemma {:induction false} FieldTypesMeaning(fields: map<string, string>, names: seq<string>)
    requires Sorted(names, NameLe) && Distinct(names)
    ensures forall f :: f in FieldTypes(fields, names) <==> f.name in names && f.name in fields && fields[f.name] == f.type_
    ensures ByTypeName(FieldTypes(fields, names))
  {
    hide NameLe;
    if names != [] {
      var init, last := names[..|names| - 1], names[|names| - 1];
      assert names == init + [last];
      FieldTypesMeaning(fields, init);
      var before := FieldTypes(fields, init);
      forall i | 0 <= i < |before| ensures before[i].name != last && NameLe(before[i].name, last) {
        assert before[i] in before;
        var k :| 0 <= k < |init| && init[k] == before[i].name;
        assert names[k] == before[i].name && names[|names| - 1] == last;
      }
    }
  }

  lemma {:induction false} ShapesMeaning(clusters: Clusters, noun: string, names: seq<string>, synthetic: bool)
    requires noun in clusters
    ensures forall s :: s in Shapes(clusters, noun, names, synthetic) <==>
              && s.name in names && s.name in clusters[noun].elementSchemas
              && ShapeOf(clusters, noun, s.name, clusters[noun].elementSchemas[s.name], synthetic) == Some(s.shape)
  {
    hide ShapeOf;
    if names != [] {
      var init, last := names[..|names| - 1], names[|names| - 1];
      assert names == init + [last];
      ShapesMeaning(clusters, noun, init, synthetic);
    }
  }

  /** An entity has its cluster's key, sources and typed fields by name, a shape
      for each container whose elements have one, and each enum with values. */
  lemma EntityHolds(clusters: Clusters, noun: string, synthetic: bool)
    requires noun in clusters
    ensures var (e, c) := (EntityFor(clusters, noun, synthetic), clusters[noun]);
            && e.name == Camel(noun) && e.collection == Pluralize(noun) && e.primaryKey == c.primaryKey && e.sources == c.sources
            && (forall f :: f in e.fields <==> f.name in c.fields && c.fields[f.name] == f.type_) && ByTypeName(e.fields)
            && (forall s :: s in e.elements <==>
                  s.name in c.elementSchemas && ShapeOf(clusters, noun, s.name, c.elementSchemas[s.name], synthetic) == Some(s.shape))
            && (forall v :: v in e.enums <==> v.name in c.enums && c.enums[v.name] == Values(v.values) && v.values != [])
  {
    var c := clusters[noun];
    SortedNamesLists(c.fields.Keys);
    SortedNamesLists(c.elementSchemas.Keys);
    SortedNamesLists(c.enums.Keys);
    FieldTypesMeaning(c.fields, SortedNames(c.fields.Keys));
    ShapesMeaning(clusters, noun, SortedNames(c.elementSchemas.Keys), synthetic);
    FieldEnumsMembers(c.enums, SortedNames(c.enums.Keys));
    hide SortedNames, NameLe, FieldTypes, Shapes, FieldEnums, ShapeOf, Camel, Pluralize, ByTypeName;
  }
}
