/** Normalising nested elements loses no field and leaves no dangling reference
    (analyze/identity.py: `_element_shape`, `_foreign_key`, `_resolves_one_hop_out`). */
module ElementShapes {
  import opened Wrappers
  import opened Json
  import opened StableSort
  import opened Names
  import opened Naming
  import opened Ir
  import opened Identity
  import opened IdentityProperties

  // ---- references name clusters ----

  /** A collection name stands for a cluster, with this primary key. */
  ghost predicate NamesCluster(clusters: Clusters, collection: string, key: string) {
    exists n | n in clusters :: Pluralize(n) == collection && clusters[n].primaryKey == key
  }

  ghost predicate NamesSomeCluster(clusters: Clusters, collection: string) {
    exists n | n in clusters :: Pluralize(n) == collection
  }

  /** The target hangs off another cluster: it is nested in it, or some container
      of it points at the target. */
  ghost predicate HangsOff(clusters: Clusters, target: string, holder: string) {
    && target in clusters && holder in clusters && holder != target
    && NestedInHolder(clusters, clusters[holder], clusters[target], Pluralize(target))
  }

  /** Some hop collection the target hangs off carries the field from another source. */
  ghost predicate CarriedByHop(clusters: Clusters, hops: seq<string>, target: string, field: string, own: set<string>) {
    exists n | n in clusters :: Pluralize(n) in hops && HangsOff(clusters, target, n) && CarriedElsewhere(clusters[n], field, own)
  }

  lemma {:induction false} HopFound(clusters: Clusters, nouns: seq<string>, target: string, field: string, own: set<string>)
    ensures var r := OneHopOut(clusters, nouns, target, field, own);
            r.Some? ==> r.value in clusters && HangsOff(clusters, target, r.value) && CarriedElsewhere(clusters[r.value], field, own)
  {
    hide NestedInHolder;
    if nouns != [] {
      HopFound(clusters, nouns[1..], target, field, own);
    }
  }

  lemma MoreHops(clusters: Clusters, a: seq<string>, b: seq<string>, target: string, field: string, own: set<string>)
    requires CarriedByHop(clusters, a, target, field, own) && forall h | h in a :: h in b
    ensures CarriedByHop(clusters, b, target, field, own)
  {
    hide HangsOff, Pluralize, CarriedElsewhere;
  }

  /** Every field is left over, carried by the target, or carried by a hop. */
  lemma {:induction false} SiftAccounts(clusters: Clusters, target: string, own: set<string>, fields: seq<ElementField>)
    requires target in clusters
    ensures var s := Sift(clusters, target, own, fields);
            && (forall f | f in fields ::
                  || f in s.fields
                  || CarriedElsewhere(clusters[target], f.name, own)
                  || CarriedByHop(clusters, s.hops, target, f.name, own))
            && (forall h | h in s.hops :: NamesSomeCluster(clusters, h))
  {
    hide OneHopOut, Pluralize, SortedNames, HangsOff;
    if fields != [] {
      var init, f := fields[..|fields| - 1], fields[|fields| - 1];
      SiftAccounts(clusters, target, own, init);
      assert fields == init + [f];
      var before, s := Sift(clusters, target, own, init), Sift(clusters, target, own, fields);
      HopFound(clusters, SortedNames(clusters.Keys), target, f.name, own);
      assert forall h | h in before.hops :: h in s.hops;
      assert forall g | g in before.fields :: g in s.fields;
      forall g | g in fields
        ensures g in s.fields || CarriedElsewhere(clusters[target], g.name, own) || CarriedByHop(clusters, s.hops, target, g.name, own)
      {
        if g in init {
          if CarriedByHop(clusters, before.hops, target, g.name, own) { MoreHops(clusters, before.hops, s.hops, target, g.name, own); }
        } else {
          assert g == f;
        }
      }
    }
  }

  lemma {:induction false} NamedMembers(fields: seq<ElementField>, name: string, same: bool)
    ensures forall f :: f in Named(fields, name, same) <==> f in fields && ((f.name == name) == same)
  {
    if fields != [] {
      NamedMembers(fields[1..], name, same);
    }
  }

  lemma {:induction false} SiftKeepsFields(clusters: Clusters, target: string, own: set<string>, fields: seq<ElementField>)
    requires target in clusters
    ensures forall f | f in Sift(clusters, target, own, fields).fields :: f in fields
  {
    hide OneHopOut, Pluralize, SortedNames, CarriedElsewhere;
    if fields != [] {
      var init, f := fields[..|fields| - 1], fields[|fields| - 1];
      SiftKeepsFields(clusters, target, own, init);
      assert fields == init + [f];
    }
  }

  /** A link object holds every leftover, and only fields of the element. */
  lemma LinkFieldsHoldLeftovers(fields: seq<ElementField>, leftovers: seq<ElementField>, key: string)
    requires forall f | f in leftovers :: f in fields
    ensures forall f | f in leftovers :: f in LinkFields(fields, leftovers, key)
    ensures forall f | f in LinkFields(fields, leftovers, key) :: f in fields
    ensures leftovers != [] ==> forall f | f in fields && f.name == key :: f in LinkFields(fields, leftovers, key)
  {
    NamedMembers(fields, key, true);
    NamedMembers(leftovers, key, false);
  }

  // ---- one shape ----

  /** The element's fields as a shape describes them. */
  ghost function FieldsOf(clusters: Clusters, parent: string, prop: string, element: Object): (r: seq<ElementField>)
    requires parent in clusters
  {
    ElementFields(element, if prop in clusters[parent].elementEnums then clusters[parent].elementEnums[prop] else map[])
  }

  /** Where a field of an element can be found again: inline, in the link object,
      with the target, or with a hop the target hangs off. */
  ghost predicate Accounted(clusters: Clusters, shape: ElementShape, f: ElementField, own: set<string>) {
    match shape.kind
    case Scalar => false
    case Embedded => f in shape.fields
    case Reference =>
      || f in shape.linkFields
      || exists t | t in clusters ::
           && shape.targetCollection == Some(Pluralize(t))
           && (CarriedElsewhere(clusters[t], f.name, own) || CarriedByHop(clusters, shape.hopCollections, t, f.name, own))
  }

  ghost predicate NoDangling(clusters: Clusters, shape: ElementShape) {
    && (shape.targetCollection.Some? <==> shape.targetKey.Some?)
    && (shape.targetCollection.Some? ==> NamesCluster(clusters, shape.targetCollection.value, shape.targetKey.value))
    && (forall h | h in shape.hopCollections :: NamesSomeCluster(clusters, h))
    && (shape.container.MapOf? ==> !shape.kind.Reference?)
    && (shape.kind.Reference? ==> shape.targetCollection.Some?)
    && (shape.localKey.Some? ==> exists f | f in shape.fields :: f.name == shape.localKey.value)
  }

  lemma {:induction false} CandidatesAreNames(props: Object, names: seq<string>)
    ensures forall c | c in CandidatesAmong(props, names) :: c in names
  {
    hide ScalarCandidate, EndsWith;
    if names != [] {
      CandidatesAreNames(props, names[1..]);
    }
  }

  lemma ForeignKeyIsField(element: Object, clusters: Clusters, parent: Option<string>, enums: Enums)
    ensures var fk := ForeignKey(element, clusters, parent);
            fk.Some? ==>
              && fk.value.1 in clusters
              && Some(fk.value.1) != parent
              && exists f | f in ElementFields(element, enums) :: f.name == fk.value.0
  {
    var props := OwnProps(element);
    var names := SortedNames(props.Keys);
    CandidatesAreNames(props, names);
    hide SortedNames, CandidatesAmong, NounFor;
    var fk := ForeignKey(element, clusters, parent);
    if fk.Some? {
      assert fk.value.0 in KeyCandidates(props);
      var i :| 0 <= i < |names| && names[i] == fk.value.0;
      assert ElementFields(element, enums)[i].name == fk.value.0;
    }
  }

  lemma ReferenceAccounts(clusters: Clusters, parent: string, prop: string, element: Object, noun: string, key: string)
    requires parent in clusters && noun in clusters
    ensures var fields := FieldsOf(clusters, parent, prop, element);
            var own := OwnSources(clusters[parent], prop);
            var sifted := Sift(clusters, noun, own, fields);
            var shape := ElementShape(Reference, ArrayOf, None, [], Some(Pluralize(noun)), Some(clusters[noun].primaryKey), None,
                                      LinkFields(fields, sifted.fields, key), Sort(sifted.hops, NameLe));
            && NoDangling(clusters, shape)
            && forall f | f in fields :: Accounted(clusters, shape, f, own)
  {
    var fields := FieldsOf(clusters, parent, prop, element);
    var own := OwnSources(clusters[parent], prop);
    var sifted := Sift(clusters, noun, own, fields);
    SiftAccounts(clusters, noun, own, fields);
    SiftKeepsFields(clusters, noun, own, fields);
    LinkFieldsHoldLeftovers(fields, sifted.fields, key);
    SortMembers(sifted.hops, NameLe);
    hide Sift, Pluralize, LinkFields, FieldsOf, Sort, NameLe;
    forall f | f in fields && CarriedByHop(clusters, sifted.hops, noun, f.name, own)
      ensures CarriedByHop(clusters, Sort(sifted.hops, NameLe), noun, f.name, own)
    {
      MoreHops(clusters, sifted.hops, Sort(sifted.hops, NameLe), noun, f.name, own);
    }
  }

  ghost predicate ShapeSound(clusters: Clusters, shape: ElementShape, fields: seq<ElementField>, own: set<string>) {
    NoDangling(clusters, shape) && forall f | f in fields :: Accounted(clusters, shape, f, own)
  }

  lemma EmbeddedSound(clusters: Clusters, container: Container, fields: seq<ElementField>, own: set<string>, noun: string, local: Option<string>)
    requires local.Some? ==> exists f | f in fields :: f.name == local.value
    ensures ShapeSound(clusters, EmbeddedShape(container, fields), fields, own)
    ensures noun in clusters ==>
              ShapeSound(clusters, EmbeddedShape(container, fields).(localKey := local, targetCollection := Some(Pluralize(noun)),
                                                                    targetKey := Some(clusters[noun].primaryKey)), fields, own)
  {
    hide Pluralize;
  }

  lemma ObjectShapeSound(clusters: Clusters, parent: string, prop: string, container: Container, element: Object, synthetic: bool)
    requires parent in clusters
    ensures ObjectShape(clusters, parent, prop, container, element, synthetic).container == container
    ensures ShapeSound(clusters, ObjectShape(clusters, parent, prop, container, element, synthetic),
                       FieldsOf(clusters, parent, prop, element), OwnSources(clusters[parent], prop))
  {
    var holder := clusters[parent];
    var fields := FieldsOf(clusters, parent, prop, element);
    var own := OwnSources(holder, prop);
    var nested := IdentityKey(prop, element, synthetic, true);
    hide Sift, Pluralize, LinkFields, IdentityKey, NounFor, Sort, NameLe, ElementFields, ForeignKey, OwnSources;
    hide NoDangling, Accounted;
    if nested.None? || nested.value == holder.primaryKey {
      var fk := ForeignKey(element, clusters, Some(parent));
      ForeignKeyIsField(element, clusters, Some(parent), if prop in holder.elementEnums then holder.elementEnums[prop] else map[]);
      EmbeddedSound(clusters, container, fields, own, if fk.Some? then fk.value.1 else "", if fk.Some? then Some(fk.value.0) else None);
    } else {
      var noun := NounFor(nested.value, prop);
      EmbeddedSound(clusters, container, fields, own, noun, None);
      if noun in clusters { ReferenceAccounts(clusters, parent, prop, element, noun, nested.value); }
    }
  }

  // ---- every derived shape ----

  lemma {:induction false} ShapesMembers(clusters: Clusters, noun: string, names: seq<string>, synthetic: bool)
    requires noun in clusters
    ensures forall s | s in Shapes(clusters, noun, names, synthetic) ::
              s.name in clusters[noun].elementSchemas
              && ShapeOf(clusters, noun, s.name, clusters[noun].elementSchemas[s.name], synthetic) == Some(s.shape)
  {
    hide ShapeOf;
    if names != [] {
      ShapesMembers(clusters, noun, names[..|names| - 1], synthetic);
    }
  }

  /** An entity of the model with this collection and key. */
  ghost predicate NamesEntity(model: IdentityModel, collection: string, key: string) {
    exists e | e in model.entities :: e.collection == collection && e.primaryKey == key
  }

  ghost predicate EntityHasField(model: IdentityModel, collection: string, field: string) {
    exists e | e in model.entities :: e.collection == collection && exists ft | ft in e.fields :: ft.name == field
  }

  lemma {:induction false} AbsorbPropsFields(c: Cluster, props: Object, names: seq<string>, source: string)
    requires c.fields.Keys == c.fieldSources.Keys
    ensures var r := AbsorbProps(c, props, names, source); r.fields.Keys == r.fieldSources.Keys
  {
    hide UnionEnum, ContainerElement, UnionEnums, SortedNames, JsonType;
    if names != [] {
      AbsorbPropsFields(c, props, names[..|names| - 1], source);
    }
  }

  lemma {:induction false} FieldsHaveSources(jobs: seq<Job>)
    ensures forall n | n in AbsorbAll(jobs) :: AbsorbAll(jobs)[n].fields.Keys == AbsorbAll(jobs)[n].fieldSources.Keys
  {
    hide AbsorbProps, SortedNames;
    if jobs != [] {
      var init, last := jobs[..|jobs| - 1], jobs[|jobs| - 1];
      FieldsHaveSources(init);
      var clusters := AbsorbAll(init);
      var c := if last.noun in clusters then clusters[last.noun] else NewCluster(last.key);
      var props := OwnProps(last.schema);
      AbsorbPropsFields(c, props, SortedNames(props.Keys), last.source);
    }
  }

  lemma {:induction false} FieldTypesMembers(fields: map<string, string>, names: seq<string>)
    ensures forall n | n in names && n in fields :: FieldType(n, fields[n]) in FieldTypes(fields, names)
  {
    if names != [] {
      FieldTypesMembers(fields, names[..|names| - 1]);
      assert names == names[..|names| - 1] + [names[|names| - 1]];
    }
  }

  lemma CarriedIsField(clusters: Clusters, noun: string, field: string, own: set<string>, synthetic: bool)
    requires noun in clusters && clusters[noun].fields.Keys == clusters[noun].fieldSources.Keys
    requires CarriedElsewhere(clusters[noun], field, own)
    ensures exists ft | ft in EntityFor(clusters, noun, synthetic).fields :: ft.name == field
  {
    var c := clusters[noun];
    SortedNamesLists(c.fields.Keys);
    FieldTypesMembers(c.fields, SortedNames(c.fields.Keys));
    assert FieldType(field, c.fields[field]) in EntityFor(clusters, noun, synthetic).fields;
  }

  /** What a shape refers to exists in the model. */
  ghost predicate RefersToModel(model: IdentityModel, shape: ElementShape) {
    && (shape.targetCollection.Some? <==> shape.targetKey.Some?)
    && (shape.targetCollection.Some? ==> NamesEntity(model, shape.targetCollection.value, shape.targetKey.value))
    && (forall h | h in shape.hopCollections :: exists e | e in model.entities :: e.collection == h)
    && (shape.container.MapOf? ==> !shape.kind.Reference?)
    && (shape.localKey.Some? ==> exists f | f in shape.fields :: f.name == shape.localKey.value)
  }

  /** A field of an element is kept inline or in the link object, or is a field
      of the target or of a hop collection. */
  ghost predicate FieldKept(model: IdentityModel, shape: ElementShape, f: ElementField) {
    match shape.kind
    case Scalar => false
    case Embedded => f in shape.fields
    case Reference =>
      || f in shape.linkFields
      || (shape.targetCollection.Some? && EntityHasField(model, shape.targetCollection.value, f.name))
      || exists h | h in shape.hopCollections :: EntityHasField(model, h, f.name)
  }

  /** Nothing the shape refers to dangles, a map is never a reference, and no
      field of its elements is lost. (A field left to the target or a hop is
      known there from a source other than this element: `Accounted`.) */
  ghost predicate Normalised(clusters: Clusters, model: IdentityModel, noun: string, s: FieldShape) {
    && noun in clusters && s.name in clusters[noun].elementSchemas
    && RefersToModel(model, s.shape)
    && match NestedIn(clusters[noun].elementSchemas[s.name].schema)
       case None => s.shape.kind.Scalar?
       case Some(element) =>
         forall f | f in FieldsOf(clusters, noun, s.name, element) ::
           && FieldKept(model, s.shape, f)
           && Accounted(clusters, s.shape, f, OwnSources(clusters[noun], s.name))
  }

  ghost predicate EntityNormalised(clusters: Clusters, model: IdentityModel, synthetic: bool, e: DerivedEntity, noun: string) {
    && noun in clusters && e == EntityFor(clusters, noun, synthetic)
    && forall s | s in e.elements :: Normalised(clusters, model, noun, s)
  }

  /** Every derived entity is that of a cluster and soundly normalised. */
  ghost predicate ModelNormalised(clusters: Clusters, model: IdentityModel, synthetic: bool) {
    forall e | e in model.entities :: exists noun :: EntityNormalised(clusters, model, synthetic, e, noun)
  }

  lemma AllEntities(clusters: Clusters, undecidable: seq<string>, synthetic: bool, model: IdentityModel)
    requires ModelOf(clusters, undecidable, synthetic) == Derived(model)
    ensures forall n | n in clusters :: EntityFor(clusters, n, synthetic) in model.entities
  {
    hide ModelOf, EntityFor;
    forall n | n in clusters ensures EntityFor(clusters, n, synthetic) in model.entities {
      EntityOfNoun(clusters, undecidable, synthetic, model, n);
    }
  }

  lemma ClustersNormalised(clusters: Clusters, undecidable: seq<string>, synthetic: bool, model: IdentityModel)
    requires ModelOf(clusters, undecidable, synthetic) == Derived(model)
    requires forall n | n in clusters :: clusters[n].fields.Keys == clusters[n].fieldSources.Keys
    ensures ModelNormalised(clusters, model, synthetic)
  {
    AllEntities(clusters, undecidable, synthetic, model);
    hide ModelOf, EntityFor, Normalised;
    forall e | e in model.entities ensures exists noun :: EntityNormalised(clusters, model, synthetic, e, noun) {
      var noun := NounOfEntity(clusters, undecidable, synthetic, model, e);
      ShapesNormalised(clusters, model, synthetic, noun);
      assert EntityNormalised(clusters, model, synthetic, e, noun);
    }
  }

  /** Every derived entity is that of a cluster, and every container field of it
      is soundly normalised. */
  lemma NormalisationSound(schemas: Object, synthetic: bool, deferred: set<string>, model: IdentityModel)
    requires DerivedFrom(schemas, synthetic, deferred) == Derived(model)
    ensures ModelNormalised(AbsorbAll(Jobs(schemas, synthetic, deferred)), model, synthetic)
  {
    var clusters := AbsorbAll(Jobs(schemas, synthetic, deferred));
    var undecidable := UndecidableOf(schemas, SortedNames(schemas.Keys), synthetic, deferred);
    FieldsHaveSources(Jobs(schemas, synthetic, deferred));
    assert DerivedFrom(schemas, synthetic, deferred) == ModelOf(clusters, undecidable, synthetic);
    hide DerivedFrom, ModelOf, UndecidableOf, ModelNormalised;
    ClustersNormalised(clusters, undecidable, synthetic, model);
  }

  lemma ShapesNormalised(clusters: Clusters, model: IdentityModel, synthetic: bool, noun: string)
    requires noun in clusters
    requires forall n | n in clusters :: EntityFor(clusters, n, synthetic) in model.entities
    requires forall n | n in clusters :: clusters[n].fields.Keys == clusters[n].fieldSources.Keys
    ensures forall s | s in EntityFor(clusters, noun, synthetic).elements :: Normalised(clusters, model, noun, s)
  {
    ShapesMembers(clusters, noun, SortedNames(clusters[noun].elementSchemas.Keys), synthetic);
    forall s | s in EntityFor(clusters, noun, synthetic).elements ensures Normalised(clusters, model, noun, s) {
      ShapeSoundInModel(clusters, model, synthetic, noun, s);
    }
  }

  lemma ShapeSoundInModel(clusters: Clusters, model: IdentityModel, synthetic: bool, noun: string, s: FieldShape)
    requires noun in clusters && s.name in clusters[noun].elementSchemas
    requires ShapeOf(clusters, noun, s.name, clusters[noun].elementSchemas[s.name], synthetic) == Some(s.shape)
    requires forall n | n in clusters :: EntityFor(clusters, n, synthetic) in model.entities
    requires forall n | n in clusters :: clusters[n].fields.Keys == clusters[n].fieldSources.Keys
    ensures Normalised(clusters, model, noun, s)
  {
    var e := clusters[noun].elementSchemas[s.name];
    hide ObjectShape, EntityFor, FieldsOf, Accounted, OwnSources, NestedIn, NamesEntity, EntityHasField, Pluralize;
    if NestedIn(e.schema).Some? {
      var element := NestedIn(e.schema).value;
      var own := OwnSources(clusters[noun], s.name);
      ObjectShapeSound(clusters, noun, s.name, e.container, element, synthetic);
      EntityLevel(clusters, model, synthetic, s.shape);
      forall f | f in FieldsOf(clusters, noun, s.name, element) ensures FieldKept(model, s.shape, f) {
        assert Accounted(clusters, s.shape, f, own);
        AccountedKept(clusters, model, synthetic, s.shape, f, own);
      }
    }
  }

  lemma AccountedKept(clusters: Clusters, model: IdentityModel, synthetic: bool, shape: ElementShape, f: ElementField, own: set<string>)
    requires Accounted(clusters, shape, f, own) && NoDangling(clusters, shape)
    requires forall n | n in clusters :: EntityFor(clusters, n, synthetic) in model.entities
    requires forall n | n in clusters :: clusters[n].fields.Keys == clusters[n].fieldSources.Keys
    ensures FieldKept(model, shape, f)
  {
    hide EntityFor, EntityHasField, Pluralize, CarriedElsewhere;
    if shape.kind.Reference? && f !in shape.linkFields {
      AccountedInModel(clusters, model, synthetic, shape, f, own);
    }
  }

  lemma EntityLevel(clusters: Clusters, model: IdentityModel, synthetic: bool, shape: ElementShape)
    requires NoDangling(clusters, shape)
    requires forall n | n in clusters :: EntityFor(clusters, n, synthetic) in model.entities
    ensures shape.targetCollection.Some? ==> NamesEntity(model, shape.targetCollection.value, shape.targetKey.value)
    ensures forall h | h in shape.hopCollections :: exists e | e in model.entities :: e.collection == h
  {
    hide Pluralize, FieldTypes, Shapes, FieldEnums, Camel, SortedNames;
    if shape.targetCollection.Some? {
      var n :| n in clusters && Pluralize(n) == shape.targetCollection.value && clusters[n].primaryKey == shape.targetKey.value;
      assert EntityFor(clusters, n, synthetic) in model.entities;
    }
    forall h | h in shape.hopCollections ensures exists e | e in model.entities :: e.collection == h {
      var n :| n in clusters && Pluralize(n) == h;
      assert EntityFor(clusters, n, synthetic).collection == h;
    }
  }

  lemma AccountedInModel(clusters: Clusters, model: IdentityModel, synthetic: bool, shape: ElementShape, f: ElementField, own: set<string>)
    requires shape.kind.Reference? && shape.targetCollection.Some? && f !in shape.linkFields
    requires Accounted(clusters, shape, f, own)
    requires forall n | n in clusters :: EntityFor(clusters, n, synthetic) in model.entities
    requires forall n | n in clusters :: clusters[n].fields.Keys == clusters[n].fieldSources.Keys
    ensures EntityHasField(model, shape.targetCollection.value, f.name)
         || exists h | h in shape.hopCollections :: EntityHasField(model, h, f.name)
  {
    hide Pluralize, CarriedElsewhere, FieldTypes, Shapes, FieldEnums, Camel, SortedNames;
    if n :| n in clusters && shape.targetCollection == Some(Pluralize(n)) && CarriedElsewhere(clusters[n], f.name, own) {
      CarriedIsField(clusters, n, f.name, own, synthetic);
      assert EntityFor(clusters, n, synthetic).collection == shape.targetCollection.value;
    } else {
      var n :| n in clusters && Pluralize(n) in shape.hopCollections && CarriedElsewhere(clusters[n], f.name, own);
      CarriedIsField(clusters, n, f.name, own, synthetic);
      assert EntityFor(clusters, n, synthetic).collection == Pluralize(n);
      assert EntityHasField(model, Pluralize(n), f.name);
    }
  }
}
