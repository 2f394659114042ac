/** What a cluster holds, in terms of the schemas it was built from
    (analyze/identity.py, `_absorb`). */
module ClusterFields {
  import opened Wrappers
  import opened Json
  import opened Names
  import opened Identity

  /** Some schema of this noun describes the field, recorded under this source. */
  ghost predicate DescribedBy(jobs: seq<Job>, noun: string, field: string, source: string) {
    exists j | j in jobs :: j.noun == noun && j.source == source && field in OwnProps(j.schema)
  }

  ghost predicate Described(jobs: seq<Job>, noun: string, field: string) {
    exists j | j in jobs :: j.noun == noun && field in OwnProps(j.schema)
  }

  ghost function Sources(c: Cluster, field: string): (r: set<string>) {
    if field in c.fieldSources then c.fieldSources[field] else {}
  }

  lemma AbsorbPropFacts(c: Cluster, name: string, prop: Json, source: string, field: string)
    ensures var r := AbsorbProp(c, name, prop, source);
            && Sources(r, field) == Sources(c, field) + (if field == name then {source} else {})
            && (field in r.fields <==> field in c.fields || field == name)
            && (field in c.fields ==> r.fields[field] == c.fields[field])
            && r.primaryKey == c.primaryKey
  {
    hide UnionEnum, ContainerElement, UnionEnums, SortedNames, JsonType;
  }

  lemma {:induction false} AbsorbPropsSources(c: Cluster, props: Object, names: seq<string>, source: string, field: string)
    ensures Sources(AbsorbProps(c, props, names, source), field) == Sources(c, field) + if field in names then {source} else {}
    ensures field in AbsorbProps(c, props, names, source).fields <==> field in c.fields || field in names
    ensures field in c.fields ==> AbsorbProps(c, props, names, source).fields[field] == c.fields[field]
    ensures AbsorbProps(c, props, names, source).primaryKey == c.primaryKey
  {
    hide AbsorbProp, Sources;
    if names != [] {
      var init, last := names[..|names| - 1], names[|names| - 1];
      AbsorbPropsSources(c, props, init, source, field);
      AbsorbPropFacts(AbsorbProps(c, props, init, source), last, Lookup(props, last), source, field);
      assert names == init + [last];
    }
  }

  lemma AbsorbedSources(c: Cluster, job: Job, field: string)
    ensures Sources(AbsorbedCluster(c, job), field) == Sources(c, field) + if field in OwnProps(job.schema) then {job.source} else {}
    ensures field in AbsorbedCluster(c, job).fields <==> field in c.fields || field in OwnProps(job.schema)
    ensures field in c.fields ==> AbsorbedCluster(c, job).fields[field] == c.fields[field]
    ensures AbsorbedCluster(c, job).primaryKey == c.primaryKey
  {
    var props := OwnProps(job.schema);
    var names := SortedNames(props.Keys);
    SortedNamesLists(props.Keys);
    AbsorbPropsSources(c, props, names, job.source, field);
    hide SortedNames, NameLe, AbsorbProps;
    assert field in names <==> field in props;
  }

  /** A cluster has exactly the fields its schemas describe, and knows for each
      field exactly which sources described it. */
  lemma {:induction false} FieldsAreUnion(jobs: seq<Job>, noun: string, field: string)
    requires noun in AbsorbAll(jobs)
    ensures field in AbsorbAll(jobs)[noun].fields <==> Described(jobs, noun, field)
    ensures forall s :: s in Sources(AbsorbAll(jobs)[noun], field) <==> DescribedBy(jobs, noun, field, s)
  {
    hide AbsorbedCluster, OwnProps;
    var init, last := jobs[..|jobs| - 1], jobs[|jobs| - 1];
    assert jobs == init + [last];
    var clusters := AbsorbAll(init);
    if noun in clusters {
      FieldsAreUnion(init, noun, field);
      if last.noun == noun { AbsorbedSources(clusters[noun], last, field); }
    } else {
      NoJobYet(init, noun);
      AbsorbedSources(NewCluster(last.key), last, field);
    }
    forall s ensures s in Sources(AbsorbAll(jobs)[noun], field) <==> DescribedBy(jobs, noun, field, s) {
      if noun in clusters { assert s in Sources(clusters[noun], field) <==> DescribedBy(init, noun, field, s); }
    }
  }

  lemma {:induction false} NoJobYet(jobs: seq<Job>, noun: string)
    requires noun !in AbsorbAll(jobs)
    ensures forall j | j in jobs :: j.noun != noun
  {
    hide AbsorbedCluster;
    if jobs != [] {
      var init, last := jobs[..|jobs| - 1], jobs[|jobs| - 1];
      assert jobs == init + [last];
      NoJobYet(init, noun);
    }
  }

  /** So a target carries a field independently of an element exactly if some
      other schema of the target describes it. */
  lemma CarriedMeansDescribed(jobs: seq<Job>, noun: string, field: string, own: set<string>)
    requires noun in AbsorbAll(jobs)
    ensures CarriedElsewhere(AbsorbAll(jobs)[noun], field, own)
       <==> exists j | j in jobs :: j.noun == noun && field in OwnProps(j.schema) && j.source !in own
  {
    FieldsAreUnion(jobs, noun, field);
    hide AbsorbAll, OwnProps;
    var sources := Sources(AbsorbAll(jobs)[noun], field);
    if s :| s in sources && s !in own {
      assert DescribedBy(jobs, noun, field, s);
      assert s in sources - own;
    }
    if j :| j in jobs && j.noun == noun && field in OwnProps(j.schema) && j.source !in own {
      assert DescribedBy(jobs, noun, field, j.source);
      assert j.source in sources - own;
    }
    if CarriedElsewhere(AbsorbAll(jobs)[noun], field, own) {
      var s :| s in sources - own;
      assert DescribedBy(jobs, noun, field, s);
    }
  }

  /** The key of a cluster is the key of the first schema of its noun. */
  lemma {:induction false} KeyOfFirst(jobs: seq<Job>, noun: string, i: nat)
    requires i < |jobs| && jobs[i].noun == noun && forall k | 0 <= k < i :: jobs[k].noun != noun
    ensures noun in AbsorbAll(jobs) && AbsorbAll(jobs)[noun].primaryKey == jobs[i].key
  {
    hide AbsorbedCluster;
    var n := |jobs| - 1;
    if i < n {
      KeyOfFirst(jobs[..n], noun, i);
      AbsorbedSources(AbsorbAll(jobs[..n])[noun], jobs[n], "");
    } else {
      Absent(jobs[..n], noun);
      AbsorbedSources(NewCluster(jobs[n].key), jobs[n], "");
    }
  }

  lemma {:induction false} Absent(jobs: seq<Job>, noun: string)
    requires forall k | 0 <= k < |jobs| :: jobs[k].noun != noun
    ensures noun !in AbsorbAll(jobs)
  {
    hide AbsorbedCluster;
    if jobs != [] {
      Absent(jobs[..|jobs| - 1], noun);
    }
  }

  // ---- the first description stands ----

  /** Job `i` is the first of the noun to describe the field. */
  ghost predicate FirstDescribes(jobs: seq<Job>, noun: string, field: string, i: nat) {
    && i < |jobs| && jobs[i].noun == noun && field in OwnProps(jobs[i].schema)
    && forall k | 0 <= k < i :: jobs[k].noun == noun ==> field !in OwnProps(jobs[k].schema)
  }

  /** The type a property declares; an untyped one is an object if it has properties, else a string. */
  ghost predicate TypeOf(prop: Json, t: string) {
    || prop.Get("type") == Some(Str(t))
    || (prop.GetStr("type").None? && prop.GetObj("properties").Some? && t == "object")
    || (prop.GetStr("type").None? && prop.GetObj("properties").None? && t == "string")
  }

  lemma {:induction false} AbsorbPropsType(c: Cluster, props: Object, names: seq<string>, source: string, field: string)
    requires field !in c.fields && field in names && field in props
    ensures field in AbsorbProps(c, props, names, source).fields
    ensures TypeOf(props[field], AbsorbProps(c, props, names, source).fields[field])
  {
    var init, last := names[..|names| - 1], names[|names| - 1];
    assert names == init + [last];
    AbsorbPropsSources(c, props, init, source, field);
    var before := AbsorbProps(c, props, init, source);
    AbsorbPropFacts(before, last, Lookup(props, last), source, field);
    if field in init {
      AbsorbPropsType(c, props, init, source, field);
      hide AbsorbProp, TypeOf;
    } else {
      NewFieldType(before, last, props[last], source);
      hide AbsorbProp, TypeOf;
    }
  }

  lemma NewFieldType(c: Cluster, name: string, prop: Json, source: string)
    requires name !in c.fields
    ensures var r := AbsorbProp(c, name, prop, source); name in r.fields && TypeOf(prop, r.fields[name])
  {
    hide UnionEnum, ContainerElement, UnionEnums, SortedNames;
  }

  /** A field has the type given by the first schema of the noun to describe it. */
  lemma {:induction false} TypeOfFirst(jobs: seq<Job>, noun: string, field: string, i: nat)
    requires FirstDescribes(jobs, noun, field, i)
    ensures noun in AbsorbAll(jobs) && field in AbsorbAll(jobs)[noun].fields
    ensures TypeOf(OwnProps(jobs[i].schema)[field], AbsorbAll(jobs)[noun].fields[field])
  {
    hide AbsorbedCluster, OwnProps, TypeOf;
    var n := |jobs| - 1;
    var init, last := jobs[..n], jobs[n];
    var clusters := AbsorbAll(init);
    if i < n {
      TypeOfFirst(init, noun, field, i);
      AbsorbedSources(clusters[noun], last, field);
    } else {
      var c := if noun in clusters then clusters[noun] else NewCluster(last.key);
      if noun in clusters { FieldsAreUnion(init, noun, field); }
      assert field !in c.fields;
      NewFieldInCluster(c, last, field);
    }
  }

  lemma NewFieldInCluster(c: Cluster, job: Job, field: string)
    requires field in OwnProps(job.schema) && field !in c.fields
    ensures field in AbsorbedCluster(c, job).fields && TypeOf(OwnProps(job.schema)[field], AbsorbedCluster(c, job).fields[field])
  {
    var props := OwnProps(job.schema);
    SortedNamesLists(props.Keys);
    hide SortedNames, NameLe, AbsorbProps, TypeOf;
    assert field in SortedNames(props.Keys);
    AbsorbPropsType(c, props, SortedNames(props.Keys), job.source, field);
  }

  // ---- containers ----

  /** The container this schema describes the field as, if any. */
  ghost function ContainerIn(schema: Object, field: string): (r: Option<Element>) {
    if field in OwnProps(schema) && OwnProps(schema)[field].Obj? then ContainerElement(OwnProps(schema)[field].fields) else None
  }

  ghost function ElementAt(c: Cluster, field: string): (r: Option<Element>) {
    if field in c.elementSchemas then Some(c.elementSchemas[field]) else None
  }

  ghost function OrElse(a: Option<Element>, b: Option<Element>): (r: Option<Element>) {
    if a.Some? then a else b
  }

  ghost function ContainerOf(prop: Json): (r: Option<Element>) {
    if prop.Obj? then ContainerElement(prop.fields) else None
  }

  lemma PropElement(c: Cluster, name: string, prop: Json, source: string, field: string)
    ensures ElementAt(AbsorbProp(c, name, prop, source), field)
         == OrElse(ElementAt(c, field), if field == name then ContainerOf(prop) else None)
  {
    hide UnionEnum, ContainerElement, UnionEnums, SortedNames, JsonType;
  }

  lemma {:induction false} PropsElement(c: Cluster, props: Object, names: seq<string>, source: string, field: string)
    requires forall n | n in names :: n in props
    ensures ElementAt(AbsorbProps(c, props, names, source), field)
         == OrElse(ElementAt(c, field), if field in names then ContainerOf(props[field]) else None)
  {
    hide AbsorbProp, ElementAt, ContainerOf;
    if names != [] {
      var init, last := names[..|names| - 1], names[|names| - 1];
      assert names == init + [last] && last in names;
      PropsElement(c, props, init, source, field);
      PropElement(AbsorbProps(c, props, init, source), last, Lookup(props, last), source, field);
    }
  }

  lemma AbsorbedElement(c: Cluster, job: Job, field: string)
    ensures ElementAt(AbsorbedCluster(c, job), field) == OrElse(ElementAt(c, field), ContainerIn(job.schema, field))
  {
    var props := OwnProps(job.schema);
    SortedNamesLists(props.Keys);
    PropsElement(c, props, SortedNames(props.Keys), job.source, field);
    hide SortedNames, NameLe, AbsorbProps;
    assert field in SortedNames(props.Keys) <==> field in props;
  }

  /** The first container of the field among the schemas of a noun. */
  ghost predicate FirstContainer(jobs: seq<Job>, noun: string, field: string, i: int) {
    && 0 <= i < |jobs| && jobs[i].noun == noun && ContainerIn(jobs[i].schema, field).Some?
    && forall k | 0 <= k < i :: jobs[k].noun == noun ==> ContainerIn(jobs[k].schema, field).None?
  }

  /** A cluster keeps, for each field, the first container it is described as. */
  lemma {:induction false} ContainerOfFirst(jobs: seq<Job>, noun: string, field: string)
    ensures noun in AbsorbAll(jobs) ==>
              match ElementAt(AbsorbAll(jobs)[noun], field)
              case None => forall j | j in jobs && j.noun == noun :: ContainerIn(j.schema, field).None?
              case Some(e) => exists i :: FirstContainer(jobs, noun, field, i) && ContainerIn(jobs[i].schema, field) == Some(e)
  {
    hide AbsorbedCluster, ContainerIn;
    if jobs != [] {
      var n := |jobs| - 1;
      var init, last := jobs[..n], jobs[n];
      assert jobs == init + [last];
      ContainerOfFirst(init, noun, field);
      var clusters := AbsorbAll(init);
      if last.noun == noun {
        var c := if noun in clusters then clusters[noun] else NewCluster(last.key);
        if noun !in clusters { NoJobYet(init, noun); }
        AbsorbedElement(c, last, field);
        if ElementAt(c, field).None? && ContainerIn(last.schema, field).Some? {
          assert FirstContainer(jobs, noun, field, n);
        }
      }
      if noun in clusters && ElementAt(clusters[noun], field).Some? {
        var i :| FirstContainer(init, noun, field, i) && ContainerIn(init[i].schema, field) == ElementAt(clusters[noun], field);
        assert FirstContainer(jobs, noun, field, i);
      }
    }
  }
}
