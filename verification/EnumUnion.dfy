/** The enum a derived field ends up with, over any number of sources
    (analyze/identity.py: `_union_enum`, `_absorb`, `derive_identity`). */
module EnumUnion {
  import opened Wrappers
  import opened Json
  import opened Names
  import opened Ir
  import opened Identity
  import opened ClusterFields

  /** Every description of a field among the jobs of one noun, in order. */
  ghost function Contributions(jobs: seq<Job>, noun: string, field: string): (r: seq<Json>) {
    if jobs == [] then []
    else
      var last := jobs[|jobs| - 1];
      Contributions(jobs[..|jobs| - 1], noun, field) +
      (if last.noun == noun && field in OwnProps(last.schema) then [OwnProps(last.schema)[field]] else [])
  }

  ghost function Entry(enums: Enums, name: string): (r: Option<EnumAcc>) {
    if name in enums then Some(enums[name]) else None
  }

  /** One contribution, seen from the field it is for. */
  ghost function Fold(acc: Option<EnumAcc>, prop: Json): (r: Option<EnumAcc>) {
    if !prop.Obj? || acc == Some(Blocked) then acc
    else if BlocksEnum(prop) then Some(Blocked)
    else if DeclaredValues(prop) == [] then acc
    else
      var existing := if acc.Some? then acc.value.values else [];
      Some(Values(existing + WithoutKnown(DeclaredValues(prop), existing)))
  }

  ghost function FoldAll(contributions: seq<Json>): (r: Option<EnumAcc>) {
    if contributions == [] then None
    else Fold(FoldAll(contributions[..|contributions| - 1]), contributions[|contributions| - 1])
  }

  lemma UnionEnumEntry(into: Enums, name: string, prop: Json, field: string)
    ensures Entry(UnionEnum(into, name, prop), field) == if field == name then Fold(Entry(into, name), prop) else Entry(into, field)
  {
  }

  lemma AbsorbElementKeepsEnums(c: Cluster, name: string, prop: Object)
    ensures AbsorbElement(c, name, prop).enums == c.enums
  {
    hide UnionEnums, SortedNames, ContainerElement;
  }

  lemma {:induction false} AbsorbPropsEntry(c: Cluster, props: Object, names: seq<string>, source: string, field: string)
    requires Distinct(names)
    ensures Entry(AbsorbProps(c, props, names, source).enums, field)
         == if field in names then Fold(Entry(c.enums, field), Lookup(props, field)) else Entry(c.enums, field)
  {
    hide UnionEnum, Fold, AbsorbElement;
    if names != [] {
      var init, last := names[..|names| - 1], names[|names| - 1];
      AbsorbPropsEntry(c, props, init, source, field);
      var before := AbsorbProps(c, props, init, source);
      UnionEnumEntry(before.enums, last, Lookup(props, last), field);
      AbsorbPropEnums(before, last, Lookup(props, last), source);
      assert names == init + [last];
    }
  }

  lemma AbsorbPropEnums(c: Cluster, name: string, prop: Json, source: string)
    ensures AbsorbProp(c, name, prop, source).enums == UnionEnum(c.enums, name, prop)
  {
    hide UnionEnum, AbsorbElement;
    if prop.Obj? {
      var c1 := c.(
        fields := if name in c.fields then c.fields else c.fields[name := JsonType(AsObject(prop))],
        fieldSources := c.fieldSources[name := (if name in c.fieldSources then c.fieldSources[name] else {}) + {source}],
        enums := UnionEnum(c.enums, name, prop));
      AbsorbElementKeepsEnums(c1, name, prop.fields);
    }
  }

  /** A cluster's enum for a field is the fold of its contributions. */
  lemma {:induction false} ClusterEntry(jobs: seq<Job>, noun: string, field: string)
    ensures noun in AbsorbAll(jobs) ==>
              Entry(AbsorbAll(jobs)[noun].enums, field) == FoldAll(Contributions(jobs, noun, field))
    ensures noun !in AbsorbAll(jobs) ==> Contributions(jobs, noun, field) == []
  {
    hide Fold;
    if jobs != [] {
      var init, last := jobs[..|jobs| - 1], jobs[|jobs| - 1];
      ClusterEntry(init, noun, field);
      if last.noun == noun {
        var clusters := AbsorbAll(init);
        var c := if noun in clusters then clusters[noun] else NewCluster(last.key);
        AbsorbedEntry(c, last, field);
        var before := Contributions(init, noun, field);
        if field in OwnProps(last.schema) {
          assert (before + [OwnProps(last.schema)[field]])[..|before|] == before;
        } else {
          assert before + [] == before;
        }
      } else {
        assert Contributions(jobs, noun, field) == Contributions(init, noun, field);
      }
    }
  }

  lemma AbsorbedEntry(c: Cluster, job: Job, field: string)
    ensures Entry(AbsorbedCluster(c, job).enums, field)
         == if field in OwnProps(job.schema) then Fold(Entry(c.enums, field), OwnProps(job.schema)[field]) else Entry(c.enums, field)
  {
    hide Fold, AbsorbProps;
    var props := OwnProps(job.schema);
    var names := SortedNames(props.Keys);
    SortedNamesLists(props.Keys);
    AbsorbPropsEntry(c, props, names, job.source, field);
    hide SortedNames, NameLe;
    assert field in names <==> field in props;
  }

  lemma {:induction false} WithoutKnownMembers(values: seq<string>, known: seq<string>)
    ensures forall v :: v in WithoutKnown(values, known) <==> v in values && v !in known
  {
    if values != [] {
      WithoutKnownMembers(values[1..], known);
    }
  }

  ghost predicate Blocked_(contributions: seq<Json>) {
    exists p | p in contributions :: BlocksEnum(p)
  }

  /** Some contribution declares `v`. */
  ghost predicate DeclaredSomewhere(contributions: seq<Json>, v: string) {
    exists p | p in contributions :: v in DeclaredValues(p)
  }

  /** The fold is the union of the declared enums, or nothing. */
  lemma {:induction false} FoldMeaning(contributions: seq<Json>)
    ensures var r := FoldAll(contributions);
            && (r == Some(Blocked) <==> Blocked_(contributions))
            && (r.Some? && r.value.Values? ==>
                  && r.value.values != []
                  && forall v :: v in r.value.values <==> DeclaredSomewhere(contributions, v))
            && (r.None? ==> forall v :: !DeclaredSomewhere(contributions, v))
  {
    if contributions != [] {
      var init, last := contributions[..|contributions| - 1], contributions[|contributions| - 1];
      FoldMeaning(init);
      hide BlocksEnum, DeclaredValues;
      assert contributions == init + [last];
      var before, after := FoldAll(init), FoldAll(contributions);
      assert !last.Obj? ==> !BlocksEnum(last) && DeclaredValues(last) == [];
      if before.Some? && before.value.Values? { WithoutKnownMembers(DeclaredValues(last), before.value.values); }
      else { WithoutKnownMembers(DeclaredValues(last), []); }
      forall v ensures DeclaredSomewhere(contributions, v) <==> DeclaredSomewhere(init, v) || v in DeclaredValues(last) {
      }
    }
  }

  lemma {:induction false} FieldEnumsMembers(enums: Enums, names: seq<string>)
    ensures forall e :: e in FieldEnums(enums, names) <==> e.name in names && FieldValues(enums, e.name) == Some(e.values)
  {
    if names != [] {
      FieldEnumsMembers(enums, names[..|names| - 1]);
      assert names == names[..|names| - 1] + [names[|names| - 1]];
    }
  }

  /** A derived field has an enum exactly when some source declares one and no
      source makes it nullable or gives a value that is not a string; then its
      values are all the declared ones. */
  lemma EnumUnionSound(schemas: Object, synthetic: bool, deferred: set<string>, noun: string, field: string)
    requires noun in AbsorbAll(Jobs(schemas, synthetic, deferred))
    ensures var jobs := Jobs(schemas, synthetic, deferred);
            var contributions := Contributions(jobs, noun, field);
            var enums := EntityFor(AbsorbAll(jobs), noun, synthetic).enums;
            && ((exists e | e in enums :: e.name == field) <==>
                  !Blocked_(contributions) && exists v :: DeclaredSomewhere(contributions, v))
            && forall e | e in enums && e.name == field :: forall v :: v in e.values <==> DeclaredSomewhere(contributions, v)
  {
    var jobs := Jobs(schemas, synthetic, deferred);
    var c := AbsorbAll(jobs)[noun];
    var contributions := Contributions(jobs, noun, field);
    ClusterEntry(jobs, noun, field);
    FoldMeaning(contributions);
    SortedNamesLists(c.enums.Keys);
    FieldEnumsMembers(c.enums, SortedNames(c.enums.Keys));
    hide AbsorbAll, Jobs, Contributions, FoldAll, DeclaredSomewhere, Blocked_, SortedNames, FieldEnums;
    var enums := EntityFor(AbsorbAll(jobs), noun, synthetic).enums;
    var acc := Entry(c.enums, field);
    if acc.Some? && acc.value.Values? {
      assert FieldEnum(field, acc.value.values) in enums;
      assert acc.value.values[0] in acc.value.values;
    }
  }

  /** The order in which sources are absorbed decides nothing but the order of the values. */
  lemma AbsorptionOrderIrrelevant(a: seq<Json>, b: seq<Json>)
    requires forall p :: p in a <==> p in b
    ensures FoldAll(a).Some? <==> FoldAll(b).Some?
    ensures FoldAll(a) == Some(Blocked) <==> FoldAll(b) == Some(Blocked)
    ensures FoldAll(a).Some? && FoldAll(a).value.Values? ==>
              forall v :: v in FoldAll(a).value.values <==> v in FoldAll(b).value.values
  {
    FoldMeaning(a);
    FoldMeaning(b);
    hide BlocksEnum, DeclaredValues, FoldAll;
    assert forall v :: DeclaredSomewhere(a, v) <==> DeclaredSomewhere(b, v);
    assert Blocked_(a) <==> Blocked_(b);
    var x, y := FoldAll(a), FoldAll(b);
    if x.Some? && x.value.Values? { assert x.value.values[0] in x.value.values; }
    if y.Some? && y.value.Values? { assert y.value.values[0] in y.value.values; }
  }

  // ---- the order of the values ----

  ghost function Unrepeated(values: seq<string>): (r: seq<string>) {
    if values == [] then []
    else
      var init, last := values[..|values| - 1], values[|values| - 1];
      Unrepeated(init) + (if last in init then [] else [last])
  }

  /** Everything declared, in the order of the sources. */
  ghost function AllDeclared(contributions: seq<Json>): (r: seq<string>) {
    if contributions == [] then []
    else AllDeclared(contributions[..|contributions| - 1]) + DeclaredValues(contributions[|contributions| - 1])
  }

  lemma {:induction false} UnrepeatedLater(known: seq<string>, values: seq<string>)
    ensures Unrepeated(known + WithoutKnown(values, known)) == Unrepeated(known + values)
  {
    if values != [] {
      var init, last := values[..|values| - 1], values[|values| - 1];
      assert values == init + [last];
      UnrepeatedLater(known, init);
      WithoutKnownAppend(init, last, known);
      WithoutKnownMembers(init, known);
      var shorter := known + WithoutKnown(init, known);
      assert known + values == (known + init) + [last];
      assert last in shorter <==> last in known + init;
      hide WithoutKnown;
      if last in known {
        assert WithoutKnown(init, known) + [] == WithoutKnown(init, known);
      } else {
        assert known + WithoutKnown(values, known) == shorter + [last];
      }
    }
  }

  lemma {:induction false} WithoutKnownAppend(values: seq<string>, v: string, known: seq<string>)
    ensures WithoutKnown(values + [v], known) == WithoutKnown(values, known) + (if v in known then [] else [v])
    ensures WithoutKnown([v], known) == if v in known then [] else [v]
  {
    if values == [] {
      assert [] + [v] == [v] && [v][1..] == [];
    } else {
      WithoutKnownAppend(values[1..], v, known);
      assert (values + [v])[1..] == values[1..] + [v];
    }
  }

  lemma {:induction false} UnrepeatedPrefix(a: seq<string>, b: seq<string>, more: seq<string>)
    requires Unrepeated(a) == Unrepeated(b) && forall v :: v in a <==> v in b
    ensures Unrepeated(a + more) == Unrepeated(b + more)
  {
    if more == [] {
      assert a + more == a && b + more == b;
    } else {
      var init, last := more[..|more| - 1], more[|more| - 1];
      UnrepeatedPrefix(a, b, init);
      assert a + more == (a + init) + [last] && b + more == (b + init) + [last];
    }
  }

  /** The values of an enum come in the order in which the sources first declare them. */
  lemma {:induction false} FirstDeclaredFirst(contributions: seq<Json>)
    requires !Blocked_(contributions)
    ensures var values := match FoldAll(contributions) case Some(Values(vs)) => vs case _ => [];
            Unrepeated(values) == Unrepeated(AllDeclared(contributions))
            && forall v :: v in values <==> v in AllDeclared(contributions)
    decreases |contributions|
  {
    if contributions != [] {
      var init, last := contributions[..|contributions| - 1], contributions[|contributions| - 1];
      assert contributions == init + [last] && last in contributions;
      FoldMeaning(init);
      assert !Blocked_(init) by { hide BlocksEnum; assert forall p | p in init :: p in contributions; }
      FirstDeclaredFirst(init);
      hide BlocksEnum, DeclaredValues, AllDeclared, WithoutKnown;
      var before := match FoldAll(init) case Some(Values(vs)) => vs case _ => [];
      UnrepeatedLater(before, DeclaredValues(last));
      UnrepeatedPrefix(before, AllDeclared(init), DeclaredValues(last));
      WithoutKnownMembers(DeclaredValues(last), before);
      AllDeclaredStep(contributions);
      NotObject(last);
      assert before + [] == before && AllDeclared(init) + [] == AllDeclared(init);
    }
  }

  lemma AllDeclaredStep(contributions: seq<Json>)
    requires contributions != []
    ensures AllDeclared(contributions) == AllDeclared(contributions[..|contributions| - 1]) + DeclaredValues(contributions[|contributions| - 1])
  {
  }

  lemma NotObject(prop: Json)
    ensures !prop.Obj? ==> DeclaredValues(prop) == []
    ensures forall known :: WithoutKnown([], known) == []
  {
  }

  // ---- the enums of elements ----

  /** What one schema says about a field of the elements of one of its containers. */
  ghost function ElementSays(container: Option<Element>, field: string): (r: seq<Json>) {
    match container
    case None => []
    case Some(e) => if field in OwnProps(e.schema) then [OwnProps(e.schema)[field]] else []
  }

  ghost function ElementContributions(jobs: seq<Job>, noun: string, prop: string, field: string): (r: seq<Json>) {
    if jobs == [] then []
    else
      var last := jobs[|jobs| - 1];
      ElementContributions(jobs[..|jobs| - 1], noun, prop, field) +
      (if last.noun == noun then ElementSays(ContainerIn(last.schema, prop), field) else [])
  }

  ghost function ElementEntry(c: Cluster, prop: string, field: string): (r: Option<EnumAcc>) {
    if prop in c.elementEnums then Entry(c.elementEnums[prop], field) else None
  }

  ghost function FoldMore(acc: Option<EnumAcc>, more: seq<Json>): (r: Option<EnumAcc>)
    requires |more| <= 1
  {
    if more == [] then acc else Fold(acc, more[0])
  }

  lemma {:induction false} UnionEnumsEntry(into: Enums, props: Object, names: seq<string>, field: string)
    requires Distinct(names) && forall n | n in names :: n in props
    ensures Entry(UnionEnums(into, props, names), field)
         == if field in names then Fold(Entry(into, field), props[field]) else Entry(into, field)
  {
    hide UnionEnum, Fold;
    if names != [] {
      var init, last := names[..|names| - 1], names[|names| - 1];
      assert names == init + [last] && last in names;
      UnionEnumsEntry(into, props, init, field);
      UnionEnumEntry(UnionEnums(into, props, init), last, Lookup(props, last), field);
    }
  }

  lemma AbsorbElementEntry(c: Cluster, name: string, prop: Object, p: string, field: string)
    ensures ElementEntry(AbsorbElement(c, name, prop), p, field)
         == if p == name then FoldMore(ElementEntry(c, p, field), ElementSays(ContainerElement(prop), field)) else ElementEntry(c, p, field)
  {
    hide ContainerElement, Fold, SortedNames, UnionEnums;
    if ContainerElement(prop).Some? {
      var props := OwnProps(ContainerElement(prop).value.schema);
      SortedNamesLists(props.Keys);
      hide NameLe;
      UnionEnumsEntry(if name in c.elementEnums then c.elementEnums[name] else map[], props, SortedNames(props.Keys), field);
      assert field in SortedNames(props.Keys) <==> field in props;
    }
  }

  lemma AbsorbPropElementEntry(c: Cluster, name: string, prop: Json, source: string, p: string, field: string)
    ensures ElementEntry(AbsorbProp(c, name, prop, source), p, field)
         == if p == name then FoldMore(ElementEntry(c, p, field), ElementSays(ContainerOf(prop), field)) else ElementEntry(c, p, field)
  {
    hide UnionEnum, AbsorbElement, JsonType, FoldMore, ElementSays;
    if prop.Obj? {
      var c1 := c.(
        fields := if name in c.fields then c.fields else c.fields[name := JsonType(AsObject(prop))],
        fieldSources := c.fieldSources[name := (if name in c.fieldSources then c.fieldSources[name] else {}) + {source}],
        enums := UnionEnum(c.enums, name, prop));
      AbsorbElementEntry(c1, name, prop.fields, p, field);
    } else {
      NothingSaid(ElementEntry(c, p, field), field);
    }
  }

  lemma NothingSaid(acc: Option<EnumAcc>, field: string)
    ensures FoldMore(acc, ElementSays(None, field)) == acc
  {
  }

  lemma {:induction false} AbsorbPropsElementEntry(c: Cluster, props: Object, names: seq<string>, source: string, p: string, field: string)
    requires Distinct(names) && forall n | n in names :: n in props
    ensures ElementEntry(AbsorbProps(c, props, names, source), p, field)
         == if p in names then FoldMore(ElementEntry(c, p, field), ElementSays(ContainerOf(props[p]), field)) else ElementEntry(c, p, field)
  {
    hide AbsorbProp, ElementEntry, FoldMore, ElementSays, ContainerOf;
    if names != [] {
      var init, last := names[..|names| - 1], names[|names| - 1];
      assert names == init + [last] && last in names;
      AbsorbPropsElementEntry(c, props, init, source, p, field);
      AbsorbPropElementEntry(AbsorbProps(c, props, init, source), last, Lookup(props, last), source, p, field);
    }
  }

  lemma AbsorbedElementEntry(c: Cluster, job: Job, p: string, field: string)
    ensures ElementEntry(AbsorbedCluster(c, job), p, field)
         == FoldMore(ElementEntry(c, p, field), ElementSays(ContainerIn(job.schema, p), field))
  {
    var props := OwnProps(job.schema);
    SortedNamesLists(props.Keys);
    AbsorbPropsElementEntry(c, props, SortedNames(props.Keys), job.source, p, field);
    NothingSaid(ElementEntry(c, p, field), field);
    hide SortedNames, NameLe, AbsorbProps, FoldMore, ElementSays;
    assert p in SortedNames(props.Keys) <==> p in props;
  }

  /** The enum of an element's field is the fold over every source's elements,
      whichever of them the cluster keeps. */
  lemma {:induction false} ElementEnumFolds(jobs: seq<Job>, noun: string, p: string, field: string)
    ensures noun in AbsorbAll(jobs) ==>
              ElementEntry(AbsorbAll(jobs)[noun], p, field) == FoldAll(ElementContributions(jobs, noun, p, field))
    ensures noun !in AbsorbAll(jobs) ==> ElementContributions(jobs, noun, p, field) == []
  {
    hide Fold, AbsorbedCluster, ContainerIn;
    if jobs != [] {
      var init, last := jobs[..|jobs| - 1], jobs[|jobs| - 1];
      ElementEnumFolds(init, noun, p, field);
      var before := ElementContributions(init, noun, p, field);
      if last.noun == noun {
        var clusters := AbsorbAll(init);
        AbsorbedElementEntry(if noun in clusters then clusters[noun] else NewCluster(last.key), last, p, field);
        var said := ElementSays(ContainerIn(last.schema, p), field);
        assert before + said == if said == [] then before else before + [said[0]];
        assert said != [] ==> (before + [said[0]])[..|before|] == before;
      } else {
        assert before + [] == before;
      }
    }
  }
}
