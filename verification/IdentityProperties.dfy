/** What the derived contract guarantees, for every set of schemas. */
module IdentityProperties {
  import opened Wrappers
  import opened Json
  import opened StableSort
  import opened Names
  import opened Naming
  import opened Identity
  import opened ElementMeaning

  // ---- clusters and entities correspond ----

  lemma {:induction false} EntitiesOfClusters(clusters: Clusters, nouns: seq<string>, synthetic: bool)
    requires forall n | n in nouns :: n in clusters
    ensures |Entities(clusters, nouns, synthetic)| == |nouns|
    ensures forall i | 0 <= i < |nouns| :: Entities(clusters, nouns, synthetic)[i] == EntityFor(clusters, nouns[i], synthetic)
  {
    hide EntityFor;
    if nouns != [] {
      EntitiesOfClusters(clusters, nouns[..|nouns| - 1], synthetic);
      assert nouns[|nouns| - 1] in nouns;
    }
  }

  /** Entity `i` is the one of the `i`-th noun. */
  lemma EntityAt(clusters: Clusters, undecidable: seq<string>, synthetic: bool, model: IdentityModel)
    requires ModelOf(clusters, undecidable, synthetic) == Derived(model)
    ensures var nouns := SortedNames(clusters.Keys);
            && |model.entities| == |nouns|
            && Distinct(nouns)
            && (forall n :: n in nouns <==> n in clusters)
            && forall i | 0 <= i < |nouns| :: nouns[i] in clusters && model.entities[i] == EntityFor(clusters, nouns[i], synthetic)
  {
    var nouns := SortedNames(clusters.Keys);
    SortedNamesLists(clusters.Keys);
    EntitiesOfClusters(clusters, nouns, synthetic);
    forall i | 0 <= i < |nouns| ensures nouns[i] in clusters { assert nouns[i] in nouns; }
  }

  /** Each entity has its cluster. */
  lemma NounOfEntity(clusters: Clusters, undecidable: seq<string>, synthetic: bool, model: IdentityModel, e: DerivedEntity)
    returns (noun: string)
    requires ModelOf(clusters, undecidable, synthetic) == Derived(model) && e in model.entities
    ensures noun in clusters && e == EntityFor(clusters, noun, synthetic)
  {
    EntityAt(clusters, undecidable, synthetic, model);
    var i :| 0 <= i < |model.entities| && model.entities[i] == e;
    noun := SortedNames(clusters.Keys)[i];
  }

  /** Each cluster has its entity. */
  lemma EntityOfNoun(clusters: Clusters, undecidable: seq<string>, synthetic: bool, model: IdentityModel, noun: string)
    requires ModelOf(clusters, undecidable, synthetic) == Derived(model) && noun in clusters
    ensures EntityFor(clusters, noun, synthetic) in model.entities
  {
    hide EntityFor;
    EntityAt(clusters, undecidable, synthetic, model);
    var nouns := SortedNames(clusters.Keys);
    assert noun in nouns;
    var i :| 0 <= i < |nouns| && nouns[i] == noun;
    assert model.entities[i] == EntityFor(clusters, noun, synthetic);
  }

  /** No primary key is silently lost: unless the derivation raises, no two
      entities share a collection. */
  lemma CollectionsDistinct(schemas: Object, synthetic: bool, deferred: set<string>, model: IdentityModel)
    requires DerivedFrom(schemas, synthetic, deferred) == Derived(model)
    ensures forall i, j | 0 <= i < j < |model.entities| :: model.entities[i].collection != model.entities[j].collection
  {
    var clusters := AbsorbAll(Jobs(schemas, synthetic, deferred));
    var undecidable := UndecidableOf(schemas, SortedNames(schemas.Keys), synthetic, deferred);
    EntityAt(clusters, undecidable, synthetic, model);
    hide AbsorbAll, Jobs, UndecidableOf, SortedNames, Pluralize, Entities;
  }

  /** It raises exactly if two nouns have the same plural. */
  lemma RaisesExactly(schemas: Object, synthetic: bool, deferred: set<string>)
    ensures var clusters := AbsorbAll(Jobs(schemas, synthetic, deferred));
            DerivedFrom(schemas, synthetic, deferred).CollidingCollections? <==>
              exists m, n :: m in clusters && n in clusters && m != n && Pluralize(m) == Pluralize(n)
  {
    hide AbsorbAll, Jobs, UndecidableOf, SortedNames, Pluralize, Entities;
  }

  /** The check is needed: different nouns may pluralize alike. */
  lemma PluralizeNotInjective()
    ensures Pluralize("box") == Pluralize("boxes")
  {
    assert EndsWith("box", "x");
    assert !EndsWith("box", "s");
    assert EndsWith("boxes", "s");
    assert !EndsWith("boxes", "ss") && !EndsWith("boxes", "us") && !EndsWith("boxes", "is");
  }

  // ---- every schema is decided once ----

  lemma {:induction false} UndecidableMembers(schemas: Object, names: seq<string>, synthetic: bool, deferred: set<string>)
    ensures forall n :: n in UndecidableOf(schemas, names, synthetic, deferred) <==> n in names && !Decidable(schemas, n, synthetic, deferred)
  {
    hide Decidable;
    if names != [] {
      UndecidableMembers(schemas, names[..|names| - 1], synthetic, deferred);
      assert names == names[..|names| - 1] + [names[|names| - 1]];
    }
  }

  /** The sources that the jobs of one noun bring, in order. */
  ghost function SourcesFor(jobs: seq<Job>, noun: string): (r: seq<string>) {
    if jobs == [] then []
    else
      var last := jobs[|jobs| - 1];
      SourcesFor(jobs[..|jobs| - 1], noun) + (if last.noun == noun then [last.source] else [])
  }

  lemma {:induction false} AbsorbPropsKeepsSources(c: Cluster, props: Object, names: seq<string>, source: string)
    ensures AbsorbProps(c, props, names, source).sources == c.sources
    ensures AbsorbProps(c, props, names, source).primaryKey == c.primaryKey
  {
    if names != [] {
      AbsorbPropsKeepsSources(c, props, names[..|names| - 1], source);
      hide UnionEnum, ContainerElement, UnionEnums, SortedNames;
      var before := AbsorbProps(c, props, names[..|names| - 1], source);
      var last := names[|names| - 1];
      assert AbsorbProp(before, last, Lookup(props, last), source).sources == before.sources;
    }
  }

  /** A cluster's sources are its jobs' sources, and every cluster has one. */
  lemma {:induction false} ClusterSources(jobs: seq<Job>)
    ensures forall n :: n in AbsorbAll(jobs) <==> SourcesFor(jobs, n) != []
    ensures forall n | n in AbsorbAll(jobs) :: AbsorbAll(jobs)[n].sources == SourcesFor(jobs, n)
  {
    if jobs != [] {
      var init, last := jobs[..|jobs| - 1], jobs[|jobs| - 1];
      ClusterSources(init);
      var clusters := AbsorbAll(init);
      var c := if last.noun in clusters then clusters[last.noun] else NewCluster(last.key);
      var props := OwnProps(last.schema);
      AbsorbPropsKeepsSources(c, props, SortedNames(props.Keys), last.source);
      hide AbsorbProps, SortedNames;
      assert AbsorbedCluster(c, last).sources == c.sources + [last.source];
    }
  }

  lemma {:induction false} SourcesForMembers(jobs: seq<Job>, noun: string)
    ensures forall s :: s in SourcesFor(jobs, noun) <==> exists j | j in jobs :: j.noun == noun && j.source == s
  {
    if jobs != [] {
      SourcesForMembers(jobs[..|jobs| - 1], noun);
      assert jobs == jobs[..|jobs| - 1] + [jobs[|jobs| - 1]];
    }
  }

  /** The jobs one property brings, if any. */
  lemma {:induction false} NestedJobsMembers(name: string, key: string, props: Object, names: seq<string>, synthetic: bool)
    ensures forall j :: j in NestedJobs(name, key, props, names, synthetic) <==>
              exists p | p in names :: j in NestedJob(name, key, p, Lookup(props, p), synthetic)
  {
    hide NestedJob;
    if names != [] {
      var init, last := names[..|names| - 1], names[|names| - 1];
      NestedJobsMembers(name, key, props, init, synthetic);
      assert names == init + [last];
    }
  }

  /** The name under which the nested schema is recorded as a source. */
  function Dotted(holder: string, prop: string): (r: string) {
    holder + "." + prop
  }

  ghost predicate PropertyOf(schema: Json, p: string, prop: Json) {
    schema.GetObj("properties").Some? && p in schema.GetObj("properties").value && schema.GetObj("properties").value[p] == prop
  }

  /** Below the property is an element with a key of its own. */
  ghost predicate Nests(prop: Json, p: string, synthetic: bool, key: string, element: Object, nested: string) {
    && prop.Obj? && ElementOf(prop.fields, element)
    && IdentityKey(p, element, synthetic, true) == Some(nested) && nested != key
  }

  ghost predicate TopJobOf(schemas: Object, synthetic: bool, deferred: set<string>, name: string, j: Job) {
    && Decided(schemas, synthetic, deferred, name, j.key) && schemas[name] == Obj(j.schema)
    && j.noun == NounFor(j.key, name) && j.source == name
  }

  ghost predicate NestedJobOf(schemas: Object, synthetic: bool, deferred: set<string>, holder: string, p: string, j: Job) {
    exists key, prop ::
      && Decided(schemas, synthetic, deferred, holder, key) && PropertyOf(schemas[holder], p, prop)
      && Nests(prop, p, synthetic, key, j.schema, j.key)
      && j.noun == NounFor(j.key, p) && j.source == Dotted(holder, p)
  }

  /** The schema is absorbed for this component: itself, or as one of its elements. */
  ghost predicate JobOf(schemas: Object, synthetic: bool, deferred: set<string>, name: string, j: Job) {
    TopJobOf(schemas, synthetic, deferred, name, j) || exists p :: NestedJobOf(schemas, synthetic, deferred, name, p, j)
  }

  lemma NestedJobMeaning(name: string, key: string, p: string, prop: Json, synthetic: bool)
    ensures forall j :: j in NestedJob(name, key, p, prop, synthetic) <==>
              Nests(prop, p, synthetic, key, j.schema, j.key) && j.noun == NounFor(j.key, p) && j.source == Dotted(name, p)
  {
    if prop.Obj? { NestedMeaning(prop.fields); }
    hide NestedObject, IdentityKey, NounFor, ElementOf;
    var jobs := NestedJob(name, key, p, prop, synthetic);
    forall j: Job | Nests(prop, p, synthetic, key, j.schema, j.key) && j.noun == NounFor(j.key, p) && j.source == Dotted(name, p) ensures j in jobs {
      assert jobs == [j];
    }
  }

  lemma SchemaJobsMeaning(schemas: Object, synthetic: bool, deferred: set<string>, name: string)
    requires Decidable(schemas, name, synthetic, deferred)
    ensures forall j :: j in SchemaJobs(name, schemas[name], synthetic) <==> JobOf(schemas, synthetic, deferred, name, j)
  {
    DecidedMeaning(schemas, synthetic, deferred, name);
    var schema := schemas[name];
    var key := SchemaKey(name, schema, synthetic).value;
    var props := OwnProps(AsObject(schema));
    var names := SortedNames(props.Keys);
    SortedNamesLists(props.Keys);
    NestedJobsMembers(name, key, props, names, synthetic);
    assert forall p, prop :: PropertyOf(schema, p, prop) <==> p in props && prop == Lookup(props, p);
    forall p ensures forall j :: j in NestedJob(name, key, p, Lookup(props, p), synthetic) <==>
              Nests(Lookup(props, p), p, synthetic, key, j.schema, j.key) && j.noun == NounFor(j.key, p) && j.source == Dotted(name, p)
    {
      NestedJobMeaning(name, key, p, Lookup(props, p), synthetic);
    }
    var top, nested := TopJob(name, schema, key), NestedJobs(name, key, props, names, synthetic);
    assert SchemaJobs(name, schema, synthetic) == [top] + nested;
    assert schema.Obj?;
    hide NestedJob, NestedJobs, SchemaKey, SchemaJobs, SortedNames, Dotted, NounFor, Nests, Decidable, PropertyOf, Lookup, OwnProps, Decided;
    forall j ensures j in nested <==> exists p :: NestedJobOf(schemas, synthetic, deferred, name, p, j) {
      if j in nested {
        var p :| p in names && j in NestedJob(name, key, p, Lookup(props, p), synthetic);
        assert PropertyOf(schema, p, Lookup(props, p));
        assert NestedJobOf(schemas, synthetic, deferred, name, p, j);
      }
    }
    assert forall j :: j == top <==> TopJobOf(schemas, synthetic, deferred, name, j);
  }

  lemma {:induction false} JobsOfMeaning(schemas: Object, names: seq<string>, synthetic: bool, deferred: set<string>)
    ensures forall j :: j in JobsOf(schemas, names, synthetic, deferred) <==>
              exists name | name in names :: JobOf(schemas, synthetic, deferred, name, j)
  {
    if names != [] {
      var init, last := names[..|names| - 1], names[|names| - 1];
      JobsOfMeaning(schemas, init, synthetic, deferred);
      assert names == init + [last];
      if Decidable(schemas, last, synthetic, deferred) {
        SchemaJobsMeaning(schemas, synthetic, deferred, last);
      } else {
        NoJobsOf(schemas, synthetic, deferred, last);
      }
      hide SchemaJobs, JobOf, Decidable;
    }
  }

  lemma NoJobsOf(schemas: Object, synthetic: bool, deferred: set<string>, name: string)
    requires !Decidable(schemas, name, synthetic, deferred)
    ensures forall j :: !JobOf(schemas, synthetic, deferred, name, j)
  {
    DecidedMeaning(schemas, synthetic, deferred, name);
    hide Decided, Decidable, Nests, NounFor, Dotted;
  }

  /** The schemas absorbed are exactly the decided components and the elements
      with another key below their properties. */
  lemma JobsMeaning(schemas: Object, synthetic: bool, deferred: set<string>)
    ensures forall j :: j in Jobs(schemas, synthetic, deferred) <==> exists name :: JobOf(schemas, synthetic, deferred, name, j)
  {
    JobsOfMeaning(schemas, SortedNames(schemas.Keys), synthetic, deferred);
    SortedNamesLists(schemas.Keys);
    hide SortedNames, JobsOf, Nests, NounFor, Dotted, PropertyOf, IdentityKey;
    forall j, name | JobOf(schemas, synthetic, deferred, name, j) ensures name in schemas {
    }
  }

  /** A decided schema has, below this property, an element with another key and
      this noun. */
  ghost predicate Holder(schemas: Object, synthetic: bool, deferred: set<string>, holder: string, p: string, noun: string) {
    exists key, prop, element, nested ::
      && Decided(schemas, synthetic, deferred, holder, key) && PropertyOf(schemas[holder], p, prop)
      && Nests(prop, p, synthetic, key, element, nested) && noun == NounFor(nested, p)
  }

  ghost predicate NestedAs(schemas: Object, synthetic: bool, deferred: set<string>, source: string, noun: string) {
    exists holder, p :: Holder(schemas, synthetic, deferred, holder, p, noun) && source == Dotted(holder, p)
  }

  /** The noun a decided schema's own key names. */
  ghost predicate NamedBy(schemas: Object, synthetic: bool, deferred: set<string>, name: string, noun: string) {
    exists key :: Decided(schemas, synthetic, deferred, name, key) && noun == NounFor(key, name)
  }

  ghost predicate SourceOf(clusters: Clusters, name: string, noun: string) {
    noun in clusters && name in clusters[noun].sources
  }

  ghost predicate HasJob(jobs: seq<Job>, source: string, noun: string) {
    exists j | j in jobs :: j.source == source && j.noun == noun
  }

  lemma SourceNonEmpty(jobs: seq<Job>, noun: string, s: string)
    requires s in SourcesFor(jobs, noun)
    ensures SourcesFor(jobs, noun) != []
  {
  }

  lemma HasJobMeaning(schemas: Object, synthetic: bool, deferred: set<string>, source: string, noun: string)
    ensures HasJob(Jobs(schemas, synthetic, deferred), source, noun) <==>
              NamedBy(schemas, synthetic, deferred, source, noun) || NestedAs(schemas, synthetic, deferred, source, noun)
  {
    JobsMeaning(schemas, synthetic, deferred);
    var jobs := Jobs(schemas, synthetic, deferred);
    hide Jobs, Nests, NounFor, Dotted, PropertyOf, IdentityKey;
    if HasJob(jobs, source, noun) {
      var j :| j in jobs && j.source == source && j.noun == noun;
      var name :| JobOf(schemas, synthetic, deferred, name, j);
      if !TopJobOf(schemas, synthetic, deferred, name, j) {
        var p :| NestedJobOf(schemas, synthetic, deferred, name, p, j);
        assert Holder(schemas, synthetic, deferred, name, p, noun);
      }
    }
    if NamedBy(schemas, synthetic, deferred, source, noun) {
      var key :| Decided(schemas, synthetic, deferred, source, key) && noun == NounFor(key, source);
      var j := Job(noun, key, schemas[source].fields, source);
      assert TopJobOf(schemas, synthetic, deferred, source, j);
      assert JobOf(schemas, synthetic, deferred, source, j);
    }
    if holder, p :| Holder(schemas, synthetic, deferred, holder, p, noun) && source == Dotted(holder, p) {
      var key, prop, element, nested :|
        && Decided(schemas, synthetic, deferred, holder, key) && PropertyOf(schemas[holder], p, prop)
        && Nests(prop, p, synthetic, key, element, nested) && noun == NounFor(nested, p);
      var j := Job(noun, nested, element, source);
      assert NestedJobOf(schemas, synthetic, deferred, holder, p, j);
      assert JobOf(schemas, synthetic, deferred, holder, j);
    }
  }

  /** The clusters a name is a source of: the one its own key names, if it is
      decided, and those of the elements with keys of their own that are recorded
      under that very name. And whatever is not decided is reported. */
  lemma SchemasPartitioned(schemas: Object, synthetic: bool, deferred: set<string>, name: string, noun: string)
    ensures var clusters := AbsorbAll(Jobs(schemas, synthetic, deferred));
            && (SourceOf(clusters, name, noun) <==>
                  NamedBy(schemas, synthetic, deferred, name, noun) || NestedAs(schemas, synthetic, deferred, name, noun))
            && (name in UndecidableOf(schemas, SortedNames(schemas.Keys), synthetic, deferred) <==>
                  name in schemas && forall key :: !Decided(schemas, synthetic, deferred, name, key))
  {
    var jobs, names := Jobs(schemas, synthetic, deferred), SortedNames(schemas.Keys);
    SortedNamesLists(schemas.Keys);
    UndecidableMembers(schemas, names, synthetic, deferred);
    DecidedMeaning(schemas, synthetic, deferred, name);
    HasJobMeaning(schemas, synthetic, deferred, name, noun);
    ClusterSources(jobs);
    SourcesForMembers(jobs, noun);
    hide AbsorbAll, Jobs, UndecidableOf, SortedNames, SourcesFor, Holder, NamedBy, NestedAs, Dotted, Decided, Decidable;
    if HasJob(jobs, name, noun) {
      SourceNonEmpty(jobs, noun, name);
    }
  }

  /** An array of objects with a key of their own makes an entity of them. */
  lemma ArrayOfEntities(schemas: Object, synthetic: bool, deferred: set<string>, name: string, key: string, p: string, prop: Object, items: Object, nested: string)
    requires Decided(schemas, synthetic, deferred, name, key) && PropertyOf(schemas[name], p, Obj(prop))
    requires Obj(prop).Get("type") == Some(Str("array")) && Obj(prop).Get("items") == Some(Obj(items))
    requires Obj(items).GetObj("properties").Some? && Obj(items).GetObj("additionalProperties").None?
    requires IdentityKey(p, items, synthetic, true) == Some(nested) && nested != key
    ensures SourceOf(AbsorbAll(Jobs(schemas, synthetic, deferred)), name + "." + p, NounFor(nested, p))
  {
    ElementForms(prop, items);
    hide IdentityKey, NounFor, ElementOf, SourceOf, Jobs, AbsorbAll;
    NestedDerived(schemas, synthetic, deferred, name, key, p, Obj(prop), items, nested);
  }

  /** So does a property of any other form. */
  lemma NestedDerived(schemas: Object, synthetic: bool, deferred: set<string>, name: string, key: string, p: string, prop: Json, element: Object, nested: string)
    requires Decided(schemas, synthetic, deferred, name, key) && PropertyOf(schemas[name], p, prop)
    requires Nests(prop, p, synthetic, key, element, nested)
    ensures SourceOf(AbsorbAll(Jobs(schemas, synthetic, deferred)), name + "." + p, NounFor(nested, p))
  {
    hide IdentityKey, Nests, Jobs, AbsorbAll, Decided, PropertyOf;
    assert Holder(schemas, synthetic, deferred, name, p, NounFor(nested, p));
    assert NestedAs(schemas, synthetic, deferred, Dotted(name, p), NounFor(nested, p));
    hide NounFor, Holder, NestedAs;
    SchemasPartitioned(schemas, synthetic, deferred, Dotted(name, p), NounFor(nested, p));
  }

  // ---- the order in which schemas are absorbed ----

  /** A component, or one of its properties. */
  datatype Place = Place(name: string, prop: Option<string>)

  /** By name, and each component before its properties, these by name. */
  ghost predicate Before(a: Place, b: Place) {
    if a.name != b.name then NameLe(a.name, b.name)
    else b.prop.Some? && (a.prop.Some? ==> a.prop.value != b.prop.value && NameLe(a.prop.value, b.prop.value))
  }

  ghost predicate JobAt(schemas: Object, synthetic: bool, deferred: set<string>, at: Place, j: Job) {
    match at.prop
    case None => TopJobOf(schemas, synthetic, deferred, at.name, j)
    case Some(p) => NestedJobOf(schemas, synthetic, deferred, at.name, p, j)
  }

  ghost predicate InOrder(schemas: Object, synthetic: bool, deferred: set<string>, jobs: seq<Job>, places: seq<Place>) {
    && |places| == |jobs|
    && (forall i | 0 <= i < |jobs| :: JobAt(schemas, synthetic, deferred, places[i], jobs[i]))
    && forall i, k | 0 <= i < k < |jobs| :: Before(places[i], places[k])
  }

  lemma PropertyInOrder(schemas: Object, synthetic: bool, deferred: set<string>, name: string, key: string, p: string) returns (places: seq<Place>)
    requires Decided(schemas, synthetic, deferred, name, key) && p in OwnProps(AsObject(schemas[name]))
    ensures InOrder(schemas, synthetic, deferred, NestedJob(name, key, p, Lookup(OwnProps(AsObject(schemas[name])), p), synthetic), places)
    ensures forall at | at in places :: at == Place(name, Some(p))
  {
    var prop := Lookup(OwnProps(AsObject(schemas[name])), p);
    var jobs := NestedJob(name, key, p, prop, synthetic);
    NestedJobMeaning(name, key, p, prop, synthetic);
    OneNestedJob(name, key, p, prop, synthetic);
    assert PropertyOf(schemas[name], p, prop);
    hide NestedJob, Lookup, Nests, NounFor, Dotted, PropertyOf, OwnProps, Decided, Before;
    places := [];
    if jobs != [] {
      places := [Place(name, Some(p))];
      assert jobs[0] in jobs;
      assert NestedJobOf(schemas, synthetic, deferred, name, p, jobs[0]);
    }
  }

  ghost predicate Below(places: seq<Place>, name: string, names: seq<string>) {
    forall at | at in places :: at.name == name && at.prop.Some? && at.prop.value in names
  }

  lemma BelowBefore(places: seq<Place>, name: string, init: seq<string>, last: string)
    requires Below(places, name, init) && Sorted(init + [last], NameLe) && Distinct(init + [last])
    ensures forall at | at in places :: Before(at, Place(name, Some(last)))
  {
    forall p | p in init ensures NameLe(p, last) && p != last {
      var i :| 0 <= i < |init| && init[i] == p;
      assert (init + [last])[i] == p && (init + [last])[|init|] == last;
    }
    hide NameLe;
  }

  lemma {:induction false} NestedInOrder(schemas: Object, synthetic: bool, deferred: set<string>, name: string, key: string, names: seq<string>)
    returns (places: seq<Place>)
    requires Decided(schemas, synthetic, deferred, name, key)
    requires Sorted(names, NameLe) && Distinct(names) && forall p | p in names :: p in OwnProps(AsObject(schemas[name]))
    ensures InOrder(schemas, synthetic, deferred, NestedJobs(name, key, OwnProps(AsObject(schemas[name])), names, synthetic), places)
    ensures Below(places, name, names)
  {
    assert NestedJobs(name, key, OwnProps(AsObject(schemas[name])), [], synthetic) == [];
    places := [];
    if names != [] {
      var init, last := names[..|names| - 1], names[|names| - 1];
      assert names == init + [last] && last in names;
      NestedJobsStep(name, key, OwnProps(AsObject(schemas[name])), names, synthetic);
      hide NestedJob, NestedJobs, Lookup, OwnProps, Decided, InOrder, Before, NameLe;
      var before := NestedInOrder(schemas, synthetic, deferred, name, key, init);
      var own := PropertyInOrder(schemas, synthetic, deferred, name, key, last);
      var props := OwnProps(AsObject(schemas[name]));
      BelowBefore(before, name, init, last);
      AppendInOrder(schemas, synthetic, deferred, NestedJobs(name, key, props, init, synthetic), before,
                    NestedJob(name, key, last, Lookup(props, last), synthetic), own);
      places := before + own;
    }
  }

  lemma NestedJobsStep(name: string, key: string, props: Object, names: seq<string>, synthetic: bool)
    requires names != []
    ensures NestedJobs(name, key, props, names, synthetic)
         == NestedJobs(name, key, props, names[..|names| - 1], synthetic)
          + NestedJob(name, key, names[|names| - 1], Lookup(props, names[|names| - 1]), synthetic)
  {
  }

  lemma OneNestedJob(name: string, key: string, p: string, prop: Json, synthetic: bool)
    ensures |NestedJob(name, key, p, prop, synthetic)| <= 1
  {
    hide NestedObject, IdentityKey, NounFor;
  }

  lemma AppendInOrder(schemas: Object, synthetic: bool, deferred: set<string>, a: seq<Job>, p: seq<Place>, b: seq<Job>, q: seq<Place>)
    requires InOrder(schemas, synthetic, deferred, a, p) && InOrder(schemas, synthetic, deferred, b, q)
    requires forall x, y | x in p && y in q :: Before(x, y)
    ensures InOrder(schemas, synthetic, deferred, a + b, p + q)
  {
    hide JobAt, Before;
    forall i, k | 0 <= i < k < |a + b| ensures Before((p + q)[i], (p + q)[k]) {
      if i < |a| && k >= |a| { assert p[i] in p && q[k - |a|] in q; }
    }
  }

  lemma SchemaInOrder(schemas: Object, synthetic: bool, deferred: set<string>, name: string) returns (places: seq<Place>)
    requires Decidable(schemas, name, synthetic, deferred)
    ensures InOrder(schemas, synthetic, deferred, SchemaJobs(name, schemas[name], synthetic), places)
    ensures forall at | at in places :: at.name == name
  {
    DecidedMeaning(schemas, synthetic, deferred, name);
    var schema := schemas[name];
    var key := SchemaKey(name, schema, synthetic).value;
    var props := OwnProps(AsObject(schema));
    SortedNamesLists(props.Keys);
    var top, nested := TopJob(name, schema, key), NestedJobs(name, key, props, SortedNames(props.Keys), synthetic);
    assert SchemaJobs(name, schema, synthetic) == [top] + nested;
    assert TopJobOf(schemas, synthetic, deferred, name, top);
    hide NestedJobs, SchemaKey, SchemaJobs, SortedNames, NounFor, NameLe, Decidable, InOrder, OwnProps, TopJob;
    var below := NestedInOrder(schemas, synthetic, deferred, name, key, SortedNames(props.Keys));
    places := [Place(name, None)] + below;
    AloneInOrder(schemas, synthetic, deferred, name, top);
    AppendInOrder(schemas, synthetic, deferred, [top], [Place(name, None)], nested, below);
  }

  lemma AloneInOrder(schemas: Object, synthetic: bool, deferred: set<string>, name: string, top: Job)
    requires TopJobOf(schemas, synthetic, deferred, name, top)
    ensures InOrder(schemas, synthetic, deferred, [top], [Place(name, None)])
  {
    hide TopJobOf;
  }

  lemma {:induction false} JobsOfInOrder(schemas: Object, names: seq<string>, synthetic: bool, deferred: set<string>) returns (places: seq<Place>)
    requires Sorted(names, NameLe) && Distinct(names)
    ensures InOrder(schemas, synthetic, deferred, JobsOf(schemas, names, synthetic, deferred), places)
    ensures forall at | at in places :: at.name in names
  {
    places := [];
    if names != [] {
      var init, last := names[..|names| - 1], names[|names| - 1];
      places := JobsOfInOrder(schemas, init, synthetic, deferred);
      assert names == init + [last];
      if Decidable(schemas, last, synthetic, deferred) {
        var own := SchemaInOrder(schemas, synthetic, deferred, last);
        hide NameLe, InOrder, Decidable, SchemaJobs;
        assert forall n | n in init :: NameLe(n, last) && n != last;
        AppendInOrder(schemas, synthetic, deferred, JobsOf(schemas, init, synthetic, deferred), places, SchemaJobs(last, schemas[last], synthetic), own);
        places := places + own;
      }
    }
  }

  /** Schemas are absorbed in the order of their names, each before its elements,
      and these in the order of the properties. */
  lemma JobsInOrder(schemas: Object, synthetic: bool, deferred: set<string>)
    ensures exists places :: InOrder(schemas, synthetic, deferred, Jobs(schemas, synthetic, deferred), places)
  {
    SortedNamesLists(schemas.Keys);
    hide SortedNames, InOrder, JobsOf, NameLe;
    var places := JobsOfInOrder(schemas, SortedNames(schemas.Keys), synthetic, deferred);
    assert InOrder(schemas, synthetic, deferred, Jobs(schemas, synthetic, deferred), places);
  }

  // ---- one source, one cluster ----

  ghost predicate OnlySourceOf(clusters: Clusters, name: string, own: string) {
    forall n :: SourceOf(clusters, name, n) <==> n == own
  }

  ghost predicate NestedOnlyAs(schemas: Object, synthetic: bool, deferred: set<string>, name: string, own: string) {
    forall n :: NestedAs(schemas, synthetic, deferred, name, n) ==> n == own
  }

  /** So a decided schema is a source of exactly the cluster its key names, if
      and only if no element with another noun is recorded under its name. */
  lemma OneCluster(schemas: Object, synthetic: bool, deferred: set<string>, name: string, key: string)
    requires Decided(schemas, synthetic, deferred, name, key)
    ensures var own := NounFor(key, name);
            OnlySourceOf(AbsorbAll(Jobs(schemas, synthetic, deferred)), name, own) <==>
              NestedOnlyAs(schemas, synthetic, deferred, name, own)
  {
    hide AbsorbAll, Jobs, IdentityKey, NounFor, OnlySourceOf, NestedOnlyAs;
    OneClusterFor(schemas, synthetic, deferred, name, NounFor(key, name));
  }

  lemma OneClusterFor(schemas: Object, synthetic: bool, deferred: set<string>, name: string, own: string)
    requires forall n :: NamedBy(schemas, synthetic, deferred, name, n) <==> n == own
    ensures OnlySourceOf(AbsorbAll(Jobs(schemas, synthetic, deferred)), name, own)
       <==> NestedOnlyAs(schemas, synthetic, deferred, name, own)
  {
    hide AbsorbAll, Jobs, NestedAs, SourceOf, NamedBy;
    var clusters := AbsorbAll(Jobs(schemas, synthetic, deferred));
    if NestedOnlyAs(schemas, synthetic, deferred, name, own) {
      forall n ensures SourceOf(clusters, name, n) <==> n == own {
        SchemasPartitioned(schemas, synthetic, deferred, name, n);
      }
    } else {
      var n :| NestedAs(schemas, synthetic, deferred, name, n) && n != own;
      SchemasPartitioned(schemas, synthetic, deferred, name, n);
    }
  }

  // ---- a name with a dot ----

  const B_SCHEMA: Object := map["x-primary-key" := Str("b_id"), "properties" := Obj(map[])]
  const A_SCHEMA: Object := map["x-primary-key" := Str("a_id"), "properties" := Obj(map["b" := Obj(B_SCHEMA)])]
  const C_SCHEMA: Object := map["x-primary-key" := Str("c_id")]

  /** A component that has the dotted name of another's nested entity. */
  const DOTTED: Object := map["A" := Obj(A_SCHEMA), "A.b" := Obj(C_SCHEMA)]

  lemma ShortNouns()
    ensures NounFor("b_id", "b") == "b" && NounFor("c_id", "A.b") == "c"
  {
    assert "b_id"[..1] == "b" && "c_id"[..1] == "c";
    assert Snake("") == "" && "b"[..0] == "" && "c"[..0] == "";
  }

  lemma DeclaredKey(name: string, schema: Object, key: string, nested: bool)
    requires Obj(schema).Get("x-primary-key") == Some(Str(key)) && key != ""
    ensures IdentityKey(name, schema, false, nested) == Some(key)
  {
  }

  lemma OwnElement(prop: Object)
    requires Obj(prop).GetObj("properties").Some? && "type" !in prop && "additionalProperties" !in prop
    ensures ElementOf(prop, prop)
  {
    assert Places(prop) == [prop];
    assert Places(prop)[0] == prop;
  }

  lemma DottedSchemas()
    ensures "A" in DOTTED && DOTTED["A"] == Obj(A_SCHEMA) && "A.b" in DOTTED && DOTTED["A.b"] == Obj(C_SCHEMA)
    ensures "b" in OwnProps(A_SCHEMA) && OwnProps(A_SCHEMA)["b"] == Obj(B_SCHEMA)
    ensures Obj(A_SCHEMA).Get("x-primary-key") == Some(Str("a_id"))
    ensures Dotted("A", "b") == "A.b"
  {
  }

  lemma DottedHeld()
    ensures NestedAs(DOTTED, false, {}, "A.b", "b")
  {
    DottedSchemas();
    ShortNouns();
    DeclaredKey("A", A_SCHEMA, "a_id", false);
    DeclaredKey("b", B_SCHEMA, "b_id", true);
    OwnElement(B_SCHEMA);
    hide IdentityKey, NounFor, Dotted, ElementOf;
    assert Decided(DOTTED, false, {}, "A", "a_id");
    assert PropertyOf(DOTTED["A"], "b", Obj(B_SCHEMA));
    assert Nests(Obj(B_SCHEMA), "b", false, "a_id", B_SCHEMA, "b_id");
    assert Holder(DOTTED, false, {}, "A", "b", "b");
  }

  lemma DottedNamed()
    ensures NamedBy(DOTTED, false, {}, "A.b", "c")
  {
    DottedSchemas();
    ShortNouns();
    DeclaredKey("A.b", C_SCHEMA, "c_id", false);
    hide IdentityKey, NounFor, Dotted;
    assert Decided(DOTTED, false, {}, "A.b", "c_id");
  }

  /** Its name is then a source of two clusters. */
  lemma DottedNameCollides()
    ensures var clusters := AbsorbAll(Jobs(DOTTED, false, {}));
            SourceOf(clusters, "A.b", "b") && SourceOf(clusters, "A.b", "c")
  {
    DottedHeld();
    DottedNamed();
    hide AbsorbAll, Jobs, NestedAs, NamedBy, SourceOf;
    SchemasPartitioned(DOTTED, false, {}, "A.b", "b");
    SchemasPartitioned(DOTTED, false, {}, "A.b", "c");
  }

  // ---- undecidable schemas contribute nothing ----

  function Keep(names: seq<string>, kept: set<string>): (r: seq<string>) {
    if names == [] then []
    else Keep(names[..|names| - 1], kept) + (if names[|names| - 1] in kept then [names[|names| - 1]] else [])
  }

  lemma {:induction false} KeepLists(names: seq<string>, kept: set<string>)
    requires Sorted(names, NameLe) && Distinct(names)
    ensures forall x :: x in Keep(names, kept) <==> x in names && x in kept
    ensures Sorted(Keep(names, kept), NameLe) && Distinct(Keep(names, kept))
  {
    hide NameLe;
    if names != [] {
      var init, last := names[..|names| - 1], names[|names| - 1];
      KeepLists(init, kept);
      var k := Keep(init, kept);
      assert names == init + [last];
      forall i | 0 <= i < |k| ensures NameLe(k[i], last) && k[i] != last {
        assert k[i] in k;
        var m :| 0 <= m < |init| && init[m] == k[i];
        assert NameLe(names[m], names[|names| - 1]);
      }
    }
  }

  ghost function DecidableNames(schemas: Object, synthetic: bool, deferred: set<string>): (r: set<string>) {
    set n | n in schemas && Decidable(schemas, n, synthetic, deferred)
  }

  /** The schemas that are decided. */
  ghost function DecidableOnly(schemas: Object, synthetic: bool, deferred: set<string>): (r: Object) {
    map n | n in DecidableNames(schemas, synthetic, deferred) :: schemas[n]
  }

  lemma {:induction false} JobsOfDecidable(schemas: Object, names: seq<string>, synthetic: bool, deferred: set<string>)
    ensures JobsOf(schemas, names, synthetic, deferred)
         == JobsOf(DecidableOnly(schemas, synthetic, deferred), Keep(names, DecidableNames(schemas, synthetic, deferred)), synthetic, deferred)
  {
    hide SchemaKey, SchemaJobs;
    if names != [] {
      JobsOfDecidable(schemas, names[..|names| - 1], synthetic, deferred);
      var last := names[|names| - 1];
      var kept := Keep(names[..|names| - 1], DecidableNames(schemas, synthetic, deferred));
      if last in DecidableNames(schemas, synthetic, deferred) {
        assert (kept + [last])[..|kept|] == kept;
        assert Decidable(DecidableOnly(schemas, synthetic, deferred), last, synthetic, deferred);
      } else {
        assert kept + [] == kept;
        assert !Decidable(schemas, last, synthetic, deferred);
      }
    }
  }

  lemma DecidableListed(schemas: Object, synthetic: bool, deferred: set<string>)
    ensures var only := DecidableOnly(schemas, synthetic, deferred);
            && SortedNames(only.Keys) == Keep(SortedNames(schemas.Keys), DecidableNames(schemas, synthetic, deferred))
            && forall n | n in SortedNames(only.Keys) :: Decidable(only, n, synthetic, deferred)
  {
    var names, kept := SortedNames(schemas.Keys), DecidableNames(schemas, synthetic, deferred);
    var only := DecidableOnly(schemas, synthetic, deferred);
    SortedNamesLists(schemas.Keys);
    SortedNamesLists(only.Keys);
    hide SchemaKey, SortedNames, NameLe;
    KeepLists(names, kept);
    ListsUnique(Keep(names, kept), SortedNames(only.Keys), only.Keys);
  }

  lemma SameJobs(schemas: Object, synthetic: bool, deferred: set<string>)
    ensures Jobs(schemas, synthetic, deferred) == Jobs(DecidableOnly(schemas, synthetic, deferred), synthetic, deferred)
  {
    DecidableListed(schemas, synthetic, deferred);
    JobsOfDecidable(schemas, SortedNames(schemas.Keys), synthetic, deferred);
    hide JobsOf, SortedNames, Decidable, DecidableOnly, Keep;
  }

  /** Deleting every undecidable and deferred schema leaves the entities as they are. */
  lemma UndecidableIrrelevant(schemas: Object, synthetic: bool, deferred: set<string>)
    ensures var all := DerivedFrom(schemas, synthetic, deferred);
            var rest := DerivedFrom(DecidableOnly(schemas, synthetic, deferred), synthetic, deferred);
            && (all.CollidingCollections? <==> rest.CollidingCollections?)
            && (all.Derived? ==> all.model.entities == rest.model.entities && rest.model.undecidable == [])
  {
    var only := DecidableOnly(schemas, synthetic, deferred);
    SameJobs(schemas, synthetic, deferred);
    DecidableListed(schemas, synthetic, deferred);
    hide AbsorbAll, Jobs, SortedNames, Entities, Decidable, DecidableOnly, UndecidableOf, Colliding;
    NoneUndecidable(only, SortedNames(only.Keys), synthetic, deferred);
  }

  lemma {:induction false} NoneUndecidable(schemas: Object, names: seq<string>, synthetic: bool, deferred: set<string>)
    requires forall n | n in names :: Decidable(schemas, n, synthetic, deferred)
    ensures UndecidableOf(schemas, names, synthetic, deferred) == []
  {
    hide Decidable;
    if names != [] {
      NoneUndecidable(schemas, names[..|names| - 1], synthetic, deferred);
      assert names[|names| - 1] in names;
    }
  }
}
