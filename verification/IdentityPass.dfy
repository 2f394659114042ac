/** The derivation as the code runs it: loops over sorted names that update
    clusters and lists, proved to compute the functions of `Identity`. The order
    in which a dictionary yields its keys is left open (`SortNames`), so the
    result cannot depend on it. */
module IdentityPass {
  import opened Wrappers
  import opened Json
  import opened StableSort
  import opened Names
  import opened Naming
  import opened Ir
  import opened Identity

  method UnionElementEnums(into: Enums, props: Object) returns (acc: Enums)
    ensures acc == UnionEnums(into, props, SortedNames(props.Keys))
  {
    hide UnionEnum, SortedNames;
    acc := into;
    var names := SortNames(props.Keys);
    for i := 0 to |names|
      invariant acc == UnionEnums(into, props, names[..i])
    {
      assert names[..i + 1][..i] == names[..i];
      acc := UnionEnum(acc, names[i], Lookup(props, names[i]));
    }
    assert names[..|names|] == names;
  }

  /** One property, and the enums of the elements it may hold. */
  method AbsorbProperty(c: Cluster, name: string, prop: Json, source: string) returns (r: Cluster)
    ensures r == AbsorbProp(c, name, prop, source)
  {
    hide UnionEnum, UnionEnums, ContainerElement, SortedNames;
    r := c.(
      fields := if name in c.fields then c.fields else c.fields[name := JsonType(AsObject(prop))],
      fieldSources := c.fieldSources[name := (if name in c.fieldSources then c.fieldSources[name] else {}) + {source}],
      enums := UnionEnum(c.enums, name, prop));
    if !prop.Obj? { return; }
    var captured := ContainerElement(prop.fields);
    if captured.None? { return; }
    if name !in r.elementSchemas {
      r := r.(elementSchemas := r.elementSchemas[name := captured.value]);
    }
    var props := Obj(captured.value.schema).GetObj("properties");
    if props.Some? {
      var acc := if name in r.elementEnums then r.elementEnums[name] else map[];
      acc := UnionElementEnums(acc, props.value);
      r := r.(elementEnums := r.elementEnums[name := acc]);
    }
  }

  method AbsorbSchema(clusters: Clusters, job: Job) returns (r: Clusters)
    ensures r == Absorb(clusters, job)
  {
    hide AbsorbProp, SortedNames;
    var cluster := if job.noun in clusters then clusters[job.noun] else NewCluster(job.key);
    ghost var fresh_ := cluster;
    var props := OwnProps(job.schema);
    var names := SortNames(props.Keys);
    for i := 0 to |names|
      invariant cluster == AbsorbProps(fresh_, props, names[..i], job.source)
    {
      assert names[..i + 1][..i] == names[..i];
      cluster := AbsorbProperty(cluster, names[i], Lookup(props, names[i]), job.source);
    }
    assert names[..|names|] == names;
    cluster := cluster.(sources := cluster.sources + [job.source]);
    r := clusters[job.noun := cluster];
  }

  lemma AbsorbOne(jobs: seq<Job>, job: Job)
    ensures AbsorbAll(jobs + [job]) == Absorb(AbsorbAll(jobs), job)
  {
    assert (jobs + [job])[..|jobs|] == jobs;
  }

  /** The entity nested in one property, if there is one. */
  method AbsorbNestedIn(clusters: Clusters, ghost jobs: seq<Job>, name: string, key: string, propName: string, prop: Json, synthetic: bool)
    returns (r: Clusters)
    requires clusters == AbsorbAll(jobs)
    ensures r == AbsorbAll(jobs + NestedJob(name, key, propName, prop, synthetic))
  {
    hide AbsorbAll, IdentityKey, NestedObject, NounFor;
    r := clusters;
    if prop.Obj? {
      var target := NestedObject(prop.fields);
      if target.Some? {
        var nested := IdentityKey(propName, target.value, synthetic, true);
        if nested.Some? && nested.value != key {
          var job := Job(NounFor(nested.value, propName), nested.value, target.value, name + "." + propName);
          AbsorbOne(jobs, job);
          r := AbsorbSchema(clusters, job);
          return;
        }
      }
    }
    assert jobs + [] == jobs;
  }

  /** The entities nested in one schema's properties. */
  method AbsorbNested(clusters: Clusters, ghost jobs: seq<Job>, name: string, key: string, props: Object, synthetic: bool)
    returns (r: Clusters)
    requires clusters == AbsorbAll(jobs)
    ensures r == AbsorbAll(jobs + NestedJobs(name, key, props, SortedNames(props.Keys), synthetic))
  {
    hide AbsorbAll, NestedJob, SortedNames;
    r := clusters;
    var names := SortNames(props.Keys);
    ghost var done := jobs;
    assert jobs == jobs + NestedJobs(name, key, props, [], synthetic);
    for i := 0 to |names|
      invariant r == AbsorbAll(done)
      invariant done == jobs + NestedJobs(name, key, props, names[..i], synthetic)
    {
      assert names[..i + 1][..i] == names[..i];
      r := AbsorbNestedIn(r, done, name, key, names[i], Lookup(props, names[i]), synthetic);
      done := done + NestedJob(name, key, names[i], Lookup(props, names[i]), synthetic);
    }
    assert names[..|names|] == names;
  }

  /** One decidable schema and the entities nested in it. */
  method AbsorbDecided(clusters: Clusters, ghost jobs: seq<Job>, name: string, schema: Json, key: string, synthetic: bool)
    returns (r: Clusters)
    requires clusters == AbsorbAll(jobs) && SchemaKey(name, schema, synthetic) == Some(key)
    ensures r == AbsorbAll(jobs + SchemaJobs(name, schema, synthetic))
  {
    hide AbsorbAll, NestedJobs, NounFor, SortedNames;
    var top := TopJob(name, schema, key);
    AbsorbOne(jobs, top);
    r := AbsorbSchema(clusters, top);
    var props := OwnProps(AsObject(schema));
    r := AbsorbNested(r, jobs + [top], name, key, props, synthetic);
    ghost var nested := NestedJobs(name, key, props, SortedNames(props.Keys), synthetic);
    assert jobs + [top] + nested == jobs + SchemaJobs(name, schema, synthetic);
  }

  method DeriveIdentity(schemas: Object, synthetic: bool, deferred: set<string>) returns (r: Derivation)
    ensures r == DerivedFrom(schemas, synthetic, deferred)
  {
    var clusters, undecidable := AbsorbDecidable(schemas, synthetic, deferred);
    hide AbsorbAll, Jobs, UndecidableOf, SortedNames, Entities, Colliding, ShapesAt;
    var colliding := CollectionsCollide(clusters);
    if colliding { return CollidingCollections; }
    var shapes := DeriveElementShapes(clusters, synthetic);
    var entities := BuildEntities(clusters, shapes, synthetic);
    return Derived(IdentityModel(entities, undecidable));
  }

  lemma NextName(schemas: Object, names: seq<string>, i: nat, synthetic: bool, deferred: set<string>)
    requires i < |names|
    ensures var (jobs, more) := (JobsOf(schemas, names[..i], synthetic, deferred), JobsOf(schemas, names[..i + 1], synthetic, deferred));
            if Decidable(schemas, names[i], synthetic, deferred)
            then more == jobs + SchemaJobs(names[i], schemas[names[i]], synthetic) else more == jobs
    ensures var (left, more) := (UndecidableOf(schemas, names[..i], synthetic, deferred), UndecidableOf(schemas, names[..i + 1], synthetic, deferred));
            if Decidable(schemas, names[i], synthetic, deferred) then more == left else more == left + [names[i]]
  {
    assert names[..i + 1][..i] == names[..i];
    hide SchemaJobs, SchemaKey;
  }

  /** The first pass: every schema is absorbed or reported. */
  method AbsorbDecidable(schemas: Object, synthetic: bool, deferred: set<string>) returns (clusters: Clusters, undecidable: seq<string>)
    ensures clusters == AbsorbAll(Jobs(schemas, synthetic, deferred))
    ensures undecidable == UndecidableOf(schemas, SortedNames(schemas.Keys), synthetic, deferred)
  {
    assert AbsorbAll([]) == map[];
    assert JobsOf(schemas, [], synthetic, deferred) == [] && UndecidableOf(schemas, [], synthetic, deferred) == [];
    hide AbsorbAll, SchemaJobs, SchemaKey, SortedNames, JobsOf, UndecidableOf;
    clusters, undecidable := map[], [];
    var names := SortNames(schemas.Keys);
    NamesInKeys(schemas);
    for i := 0 to |names|
      invariant clusters == AbsorbAll(JobsOf(schemas, names[..i], synthetic, deferred))
      invariant undecidable == UndecidableOf(schemas, names[..i], synthetic, deferred)
    {
      var name := names[i];
      var schema := schemas[name];
      var key := SchemaKey(name, schema, synthetic);
      NextName(schemas, names, i, synthetic, deferred);
      if name in deferred || key.None? {
        assert !Decidable(schemas, name, synthetic, deferred);
        undecidable := undecidable + [name];
      } else {
        assert Decidable(schemas, name, synthetic, deferred);
        clusters := AbsorbDecided(clusters, JobsOf(schemas, names[..i], synthetic, deferred), name, schema, key.value, synthetic);
      }
    }
    assert names[..|names|] == names;
  }

  lemma NamesInKeys(schemas: Object)
    ensures forall i | 0 <= i < |SortedNames(schemas.Keys)| :: SortedNames(schemas.Keys)[i] in schemas
  {
    SortedNamesLists(schemas.Keys);
    var names := SortedNames(schemas.Keys);
    forall i | 0 <= i < |names| ensures names[i] in schemas { assert names[i] in names; }
  }

  /** Groups the nouns by the collection they pluralize to. */
  method CollectionsCollide(clusters: Clusters) returns (r: bool)
    ensures r <==> Colliding(clusters)
  {
    var byCollection: map<string, string> := map[];
    var rest := clusters.Keys;
    while rest != {}
      invariant rest <= clusters.Keys
      invariant forall c :: c in byCollection ==> byCollection[c] in clusters.Keys - rest && Pluralize(byCollection[c]) == c
      invariant forall n | n in clusters.Keys - rest :: Pluralize(n) in byCollection
      invariant forall m, n | m in clusters.Keys - rest && n in clusters.Keys - rest && Pluralize(m) == Pluralize(n) :: m == n
    {
      var noun :| noun in rest;
      var collection := Pluralize(noun);
      if collection in byCollection {
        assert byCollection[collection] != noun;
        return true;
      }
      byCollection := byCollection[collection := noun];
      rest := rest - {noun};
    }
    return false;
  }

  /** Which fields of a referenced element the parent has to keep. */
  method SiftFields(clusters: Clusters, target: string, own: set<string>, fields: seq<ElementField>)
    returns (leftovers: seq<ElementField>, hops: seq<string>)
    requires target in clusters
    ensures Leftovers(leftovers, hops) == Sift(clusters, target, own, fields)
  {
    leftovers, hops := [], [];
    for i := 0 to |fields|
      invariant Leftovers(leftovers, hops) == Sift(clusters, target, own, fields[..i])
    {
      assert fields[..i + 1][..i] == fields[..i];
      var f := fields[i];
      if CarriedElsewhere(clusters[target], f.name, own) { continue; }
      var hop := FindHop(clusters, target, f.name, own);
      if hop.None? {
        leftovers := leftovers + [f];
      } else if Pluralize(hop.value) !in hops {
        hops := hops + [Pluralize(hop.value)];
      }
    }
    assert fields[..|fields|] == fields;
  }

  method FindHop(clusters: Clusters, target: string, field: string, own: set<string>) returns (r: Option<string>)
    requires target in clusters
    ensures r == OneHopOut(clusters, SortedNames(clusters.Keys), target, field, own)
  {
    hide IsHop, SortedNames;
    var nouns := SortNames(clusters.Keys);
    for i := 0 to |nouns|
      invariant OneHopOut(clusters, nouns[i..], target, field, own) == OneHopOut(clusters, nouns, target, field, own)
    {
      if IsHop(clusters, nouns[i], target, field, own) { return Some(nouns[i]); }
    }
    return None;
  }

  lemma ForeignKeyTarget(element: Object, clusters: Clusters, parent: string)
    ensures var fk := ForeignKey(element, clusters, Some(parent)); fk.Some? ==> fk.value.1 in clusters
  {
  }

  /** How one container property's elements are stored. */
  method ElementShapeFor(clusters: Clusters, parent: string, prop: string, e: Element, synthetic: bool) returns (r: Option<ElementShape>)
    requires parent in clusters
    ensures r == ShapeOf(clusters, parent, prop, e, synthetic)
  {
    hide NestedIn, ElementFields, IdentityKey, ForeignKey, NounFor, Pluralize, Sift, LinkFields, Sort, OwnSources;
    if e.schema == map[] { return None; }
    var nestedIn := NestedIn(e.schema);
    if nestedIn.None? {
      var declared := Obj(e.schema).GetStr("type");
      return if declared.Some? then Some(ElementShape(Scalar, e.container, declared, [], None, None, None, [], [])) else None;
    }
    var element, holder := nestedIn.value, clusters[parent];
    var fields := ElementFields(element, if prop in holder.elementEnums then holder.elementEnums[prop] else map[]);
    var embedded := EmbeddedShape(e.container, fields);
    var nested := IdentityKey(prop, element, synthetic, true);
    if nested.None? || nested.value == holder.primaryKey {
      var fk := ForeignKey(element, clusters, Some(parent));
      if fk.None? { return Some(embedded); }
      var (local, noun) := fk.value;
      ForeignKeyTarget(element, clusters, parent);
      return Some(embedded.(localKey := Some(local), targetCollection := Some(Pluralize(noun)),
                            targetKey := Some(clusters[noun].primaryKey)));
    }
    var noun := NounFor(nested.value, prop);
    if noun !in clusters { return Some(embedded); }
    if e.container.MapOf? {
      return Some(embedded.(targetCollection := Some(Pluralize(noun)), targetKey := Some(clusters[noun].primaryKey)));
    }
    var leftovers, hops := SiftFields(clusters, noun, OwnSources(holder, prop), fields);
    return Some(ElementShape(Reference, ArrayOf, None, [], Some(Pluralize(noun)), Some(clusters[noun].primaryKey), None,
                             LinkFields(fields, leftovers, nested.value), Sort(hops, NameLe)));
  }

  function ShapesAt(clusters: Clusters, noun: string, synthetic: bool): (r: seq<FieldShape>)
    requires noun in clusters
  {
    Shapes(clusters, noun, SortedNames(clusters[noun].elementSchemas.Keys), synthetic)
  }

  method ShapesOfCluster(clusters: Clusters, noun: string, synthetic: bool) returns (r: seq<FieldShape>)
    requires noun in clusters
    ensures r == ShapesAt(clusters, noun, synthetic)
  {
    hide ShapeOf, SortedNames;
    var schemas := clusters[noun].elementSchemas;
    var names := SortNames(schemas.Keys);
    SortedNamesLists(schemas.Keys);
    r := [];
    for i := 0 to |names|
      invariant r == Shapes(clusters, noun, names[..i], synthetic)
    {
      assert names[..i + 1][..i] == names[..i];
      assert names[i] in names;
      var shape := ElementShapeFor(clusters, noun, names[i], schemas[names[i]], synthetic);
      if shape.Some? { r := r + [FieldShape(names[i], shape.value)]; }
    }
    assert names[..|names|] == names;
  }

  /** Every cluster's element shapes, once clustering is complete. */
  method DeriveElementShapes(clusters: Clusters, synthetic: bool) returns (r: map<string, seq<FieldShape>>)
    ensures r == map n | n in clusters :: ShapesAt(clusters, n, synthetic)
  {
    hide ShapesAt;
    r := map[];
    var rest := clusters.Keys;
    while rest != {}
      invariant rest <= clusters.Keys
      invariant r == map n | n in clusters.Keys - rest :: ShapesAt(clusters, n, synthetic)
    {
      var noun :| noun in rest;
      var shapes := ShapesOfCluster(clusters, noun, synthetic);
      r := r[noun := shapes];
      rest := rest - {noun};
    }
    assert clusters.Keys - rest == clusters.Keys;
  }

  method BuildEntities(clusters: Clusters, shapes: map<string, seq<FieldShape>>, synthetic: bool) returns (r: seq<DerivedEntity>)
    requires shapes == map n | n in clusters :: ShapesAt(clusters, n, synthetic)
    ensures r == Entities(clusters, SortedNames(clusters.Keys), synthetic)
  {
    hide SortedNames, Shapes, FieldTypes, FieldEnums, Camel, Pluralize;
    var nouns := SortNames(clusters.Keys);
    SortedNamesLists(clusters.Keys);
    r := [];
    for i := 0 to |nouns|
      invariant r == Entities(clusters, nouns[..i], synthetic)
    {
      var noun := nouns[i];
      assert nouns[..i + 1][..i] == nouns[..i];
      assert noun in nouns;
      var c := clusters[noun];
      r := r + [DerivedEntity(
        Camel(noun), Pluralize(noun), c.primaryKey, FieldTypes(c.fields, SortedNames(c.fields.Keys)),
        c.sources, shapes[noun], FieldEnums(c.enums, SortedNames(c.enums.Keys)))];
    }
    assert nouns[..|nouns|] == nouns;
  }
}
