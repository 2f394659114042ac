/** What a nested entity, a union and a key are, over the keywords of the
    schemas themselves (analyze/identity.py). */
module ElementMeaning {
  import opened Wrappers
  import opened Json
  import opened StableSort
  import opened Names
  import opened Naming
  import opened NamingProperties
  import opened Ir
  import opened Identity

  // ---- unions ----

  /** Python's false values. */
  ghost predicate Empty(j: Json) {
    j == Null || j == Bool(false) || j == Str("") || j == Arr([]) || j == Obj(map[]) || (j.Num? && j.value == 0.0)
  }

  /** The schema is a union of these object schemas: under `anyOf`, or under
      `oneOf` if its `anyOf` is missing or empty. */
  ghost predicate UnionIn(schema: Object, variants: seq<Json>) {
    && variants != []
    && (forall v | v in variants :: v.GetObj("properties").Some?)
    && (|| Obj(schema).Get("anyOf") == Some(Arr(variants))
        || (Obj(schema).Get("oneOf") == Some(Arr(variants)) && ("anyOf" in schema ==> Empty(schema["anyOf"]))))
  }

  ghost predicate Requires(variant: Json, name: string) {
    variant.Get("required").Some? && variant.Get("required").value.Arr? && Str(name) in variant.Get("required").value.items
  }

  ghost predicate ListsNames(names: seq<Json>, required: seq<string>) {
    |names| == |required| && forall i | 0 <= i < |names| :: names[i] == Str(required[i])
  }

  /** The one object schema for all the variants: every property any of them
      has, described by all its descriptions folded, and as required, in order,
      the names they all require. */
  ghost predicate Flat(variants: seq<Json>, u: Object, required: seq<string>) {
    && u.Keys == {"type", "properties", "required"} && u["type"] == Str("object")
    && u["properties"].Obj? && u["required"].Arr?
    && (forall n :: n in u["properties"].fields <==> exists v | v in variants :: v.GetObj("properties").Some? && n in v.GetObj("properties").value)
    && (forall n | n in u["properties"].fields ::
          Descriptions(variants, n) != [] && u["properties"].fields[n] == FoldProps(Descriptions(variants, n)))
    && Sorted(required, NameLe) && Distinct(required)
    && (forall n :: n in required <==> forall v | v in variants :: Requires(v, n))
    && ListsNames(u["required"].items, required)
  }

  ghost predicate UnionOf(schema: Object, u: Object) {
    exists variants, required :: UnionIn(schema, variants) && Flat(variants, u, required)
  }

  lemma RequiredMeaning(variant: Json, name: string)
    ensures name in StringsOf(ListOrEmpty(variant.Get("required"))) <==> Requires(variant, name)
  {
  }

  ghost function FlatObject(union: Union, required: seq<string>): (r: Object) {
    map["type" := Str("object"), "properties" := Obj(union.properties),
        "required" := Arr(seq(|required|, i requires 0 <= i < |required| => Str(required[i])))]
  }

  lemma VariantsAreFlat(variants: seq<Json>) returns (u: Object, required: seq<string>)
    requires variants != [] && FlattenVariants(variants).Some?
    ensures required == SortedNames(FlattenVariants(variants).value.required)
    ensures u == FlatObject(FlattenVariants(variants).value, required) && Flat(variants, u, required)
  {
    UnionMeaning(variants);
    var r := FlattenVariants(variants).value;
    required := SortedNames(r.required);
    SortedNamesLists(r.required);
    u := FlatObject(r, required);
    hide FlattenVariants, StringsOf, NameLe, SortedNames, Descriptions, FoldProps, Requires;
    forall n ensures n in required <==> forall v | v in variants :: Requires(v, n) {
      forall v | v in variants ensures n in StringsOf(ListOrEmpty(v.Get("required"))) <==> Requires(v, n) { RequiredMeaning(v, n); }
      assert n in required <==> n in r.required;
    }
    forall n | n in r.properties ensures Descriptions(variants, n) != [] && r.properties[n] == FoldProps(Descriptions(variants, n)) {
      UnionFolds(variants, n);
    }
  }

  lemma FlattenVariantsOf(schema: Object, variants: seq<Json>)
    requires UnionIn(schema, variants) && FlattenVariants(variants).Some?
    ensures var union := FlattenVariants(variants).value;
            FlattenUnion(schema) == Some(FlatObject(union, SortedNames(union.required)))
  {
    hide FlattenVariants, SortedNames;
  }

  lemma UnionIsFlat(schema: Object, variants: seq<Json>) returns (u: Object, required: seq<string>)
    requires UnionIn(schema, variants)
    ensures FlattenUnion(schema) == Some(u) && Flat(variants, u, required)
  {
    assert variants != [] && forall v | v in variants :: v.GetObj("properties").Some?;
    hide *;
    UnionMeaning(variants);
    u, required := VariantsAreFlat(variants);
    FlattenVariantsOf(schema, variants);
  }

  lemma FlatOnce(variants: seq<Json>, u: Object, r: seq<string>, w: Object, s: seq<string>)
    requires Flat(variants, u, r) && Flat(variants, w, s)
    ensures u == w
  {
    hide Descriptions, FoldProps, Requires, NameLe;
    var required := set n | n in r;
    ListsUnique(r, s, required);
    assert u["required"].items == w["required"].items;
    forall n ensures n in u["properties"].fields <==> n in w["properties"].fields { }
    assert u["properties"].fields == w["properties"].fields;
  }

  lemma IsUnion(schema: Object) returns (variants: seq<Json>)
    requires FlattenUnion(schema).Some?
    ensures UnionIn(schema, variants)
  {
    var anyOf := Obj(schema).Get("anyOf").GetOr(Null);
    variants := (if Truthy(anyOf) then anyOf else Obj(schema).Get("oneOf").GetOr(Null)).items;
    UnionMeaning(variants);
    hide FlattenVariants;
  }

  /** Flattening a schema gives its union, if it is one. */
  lemma FlattenMeaning(schema: Object)
    ensures FlattenUnion(schema).Some? <==> exists variants :: UnionIn(schema, variants)
    ensures forall u :: FlattenUnion(schema) == Some(u) <==> UnionOf(schema, u)
  {
    if FlattenUnion(schema).None? {
      forall vs ensures !UnionIn(schema, vs) {
        if UnionIn(schema, vs) { var u, required := UnionIsFlat(schema, vs); }
      }
    } else {
      var variants := IsUnion(schema);
      var u, required := UnionIsFlat(schema, variants);
      hide FlattenUnion, Flat;
      forall w | UnionOf(schema, w) ensures w == u {
        var vs, s :| UnionIn(schema, vs) && Flat(vs, w, s);
        FlatOnce(variants, u, required, w, s);
      }
    }
  }

  // ---- nested entities ----

  /** The object schema that a schema is: itself if it has properties, else its union. */
  ghost predicate ObjectSchema(schema: Object, element: Object) {
    if Obj(schema).GetObj("properties").Some? then element == schema else UnionOf(schema, element)
  }

  /** Where the elements of a property may be described, first come first: the
      values of a map before the schema itself, both inside the items of an array. */
  ghost function Places(prop: Object): (r: seq<Object>) {
    if Obj(prop).Get("type") == Some(Str("array")) then
      if Obj(prop).GetObj("items").Some? then MapPlaces(Obj(prop).GetObj("items").value) else []
    else MapPlaces(prop)
  }

  ghost function MapPlaces(schema: Object): (r: seq<Object>) {
    match Obj(schema).GetObj("additionalProperties")
    case Some(extra) => [extra, schema]
    case None => [schema]
  }

  /** The element is described at the first place that describes one. */
  ghost predicate FirstAmong(places: seq<Object>, element: Object) {
    exists i | 0 <= i < |places| ::
      ObjectSchema(places[i], element) && forall j, e | 0 <= j < i :: !ObjectSchema(places[j], e)
  }

  ghost predicate ElementOf(prop: Object, element: Object) {
    FirstAmong(Places(prop), element)
  }

  lemma ObjectSchemaMeaning(schema: Object)
    ensures forall e :: ObjectSchema(schema, e) <==>
              (if Obj(schema).GetObj("properties").Some? then Some(schema) else FlattenUnion(schema)) == Some(e)
  {
    FlattenMeaning(schema);
    hide FlattenUnion, UnionOf;
  }

  lemma NestedInMeaning(schema: Object)
    ensures forall e :: NestedIn(schema) == Some(e) <==> FirstAmong(MapPlaces(schema), e)
  {
    ObjectSchemaMeaning(schema);
    hide FlattenUnion, ObjectSchema;
    match Obj(schema).GetObj("additionalProperties")
    case None =>
      assert forall e :: FirstAmong([schema], e) <==> ObjectSchema(schema, e) by {
        forall e | ObjectSchema(schema, e) ensures FirstAmong([schema], e) { assert [schema][0] == schema; }
      }
    case Some(extra) =>
      ObjectSchemaMeaning(extra);
      TwoPlaces(extra, schema);
  }

  lemma TwoPlaces(a: Object, b: Object)
    ensures forall e :: FirstAmong([a, b], e) <==> ObjectSchema(a, e) || (ObjectSchema(b, e) && forall f :: !ObjectSchema(a, f))
  {
    hide ObjectSchema;
    var places := [a, b];
    assert places[0] == a && places[1] == b;
  }

  /** What is nested in a property, if anything. */
  lemma NestedMeaning(prop: Object)
    ensures forall e :: NestedObject(prop) == Some(e) <==> ElementOf(prop, e)
  {
    if Obj(prop).GetObj("items").Some? { NestedInMeaning(Obj(prop).GetObj("items").value); }
    NestedInMeaning(prop);
    hide NestedIn, MapPlaces, FirstAmong;
    assert forall e :: !FirstAmong([], e) by { hide *; Nowhere(); }
  }

  lemma Nowhere()
    ensures forall e :: !FirstAmong([], e)
  {
  }

  /** The schema inside a property: its items, if it is an array. */
  ghost predicate Inner(prop: Object, inner: Object) {
    if Obj(prop).Get("type") == Some(Str("array")) then Obj(prop).Get("items") == Some(Obj(inner)) else inner == prop
  }

  ghost predicate Neither(schema: Object) {
    Obj(schema).GetObj("properties").None? && forall u :: !UnionOf(schema, u)
  }

  /** The forms an element takes, in order of preference: the values of a map,
      with properties or as a union, then the inner schema with its own
      properties or as a union. In an array without items there is none. */
  lemma ElementForms(prop: Object, inner: Object)
    requires Inner(prop, inner)
    ensures var extra := Obj(inner).GetObj("additionalProperties");
            && (extra.Some? && Obj(extra.value).GetObj("properties").Some? ==> ElementOf(prop, extra.value))
            && (extra.Some? && Obj(extra.value).GetObj("properties").None? ==>
                  forall u | UnionOf(extra.value, u) :: ElementOf(prop, u))
            && ((extra.Some? ==> Neither(extra.value)) ==>
                  && (Obj(inner).GetObj("properties").Some? ==> ElementOf(prop, inner))
                  && (Obj(inner).GetObj("properties").None? ==> forall u | UnionOf(inner, u) :: ElementOf(prop, u)))
            && (forall e | ElementOf(prop, e) :: (extra.Some? && !Neither(extra.value)) || !Neither(inner))
    ensures forall e, f | ElementOf(prop, e) && ElementOf(prop, f) :: e == f
  {
    NestedMeaning(prop);
    assert Places(prop) == MapPlaces(inner);
    match Obj(inner).GetObj("additionalProperties")
    case None =>
      assert [inner][0] == inner;
      hide UnionOf;
    case Some(extra) =>
      TwoPlaces(extra, inner);
      hide UnionOf, FirstAmong;
  }

  lemma NoItems(prop: Object, element: Object)
    requires Obj(prop).Get("type") == Some(Str("array")) && Obj(prop).GetObj("items").None?
    ensures !ElementOf(prop, element)
  {
  }

  // ---- keys ----

  /** The properties a schema is keyed among: its own, or its union's. */
  ghost predicate KeyedAmong(schema: Object, props: Object) {
    exists e :: ObjectSchema(schema, e) && Obj(e).GetObj("properties") == Some(props)
  }

  /** A declared key stands. Otherwise the rules decide among the properties, and
      a schema without any is undecided. */
  lemma IdentityKeyMeaning(name: string, schema: Object, synthetic: bool, nested: bool)
    ensures var declared, key := Obj(schema).GetStr("x-primary-key"), IdentityKey(name, schema, synthetic, nested);
            if declared.Some? && declared.value != "" then key == declared
            else
              && (forall props | KeyedAmong(schema, props) :: key == KeyAmong(name, props, synthetic, nested))
              && (key.Some? ==> exists props :: KeyedAmong(schema, props))
  {
    ObjectSchemaMeaning(schema);
    hide FlattenUnion, ObjectSchema, KeyAmong;
    if PropertiesOrUnion(schema).Some? {
      assert KeyedAmong(schema, PropertiesOrUnion(schema).value);
    }
  }

  /** The key and the properties of a schema, when it is one to derive from: an
      object that is not deferred, with a key - but not the bare `id` of a
      synthetic one. */
  ghost predicate Decided(schemas: Object, synthetic: bool, deferred: set<string>, name: string, key: string) {
    && name in schemas && name !in deferred && schemas[name].Obj?
    && IdentityKey(name, schemas[name].fields, synthetic, false) == Some(key)
    && !(synthetic && key == "id")
  }

  lemma DecidedMeaning(schemas: Object, synthetic: bool, deferred: set<string>, name: string)
    ensures Decidable(schemas, name, synthetic, deferred) <==> exists key :: Decided(schemas, synthetic, deferred, name, key)
    ensures forall key :: Decided(schemas, synthetic, deferred, name, key) <==>
              Decidable(schemas, name, synthetic, deferred) && SchemaKey(name, schemas[name], synthetic) == Some(key)
  {
    hide IdentityKey;
    if Decidable(schemas, name, synthetic, deferred) {
      assert Decided(schemas, synthetic, deferred, name, SchemaKey(name, schemas[name], synthetic).value);
    }
  }

  // ---- what a property declares ----

  /** A container is an array with items or a map with values, not empty ones. */
  lemma ContainerMeaning(prop: Object, e: Element)
    ensures ContainerElement(prop) == Some(e) <==>
              && e.schema != map[]
              && (if e.container.ArrayOf? then Obj(prop).Get("type") == Some(Str("array")) && Obj(prop).Get("items") == Some(Obj(e.schema))
                  else Obj(prop).Get("type") == Some(Str("object")) && Obj(prop).Get("additionalProperties") == Some(Obj(e.schema)))
  {
  }

  ghost predicate HasEnum(prop: Json, values: seq<Json>) {
    prop.Get("enum") == Some(Arr(values))
  }

  /** A source rules an enum out if it is nullable, or declares a value that is
      not a string. */
  lemma BlocksMeaning(prop: Json)
    ensures BlocksEnum(prop) <==>
              || prop.Get("nullable") == Some(Bool(true))
              || (exists types: seq<Json>, i | 0 <= i < |types| :: prop.Get("type") == Some(Arr(types)) && types[i] == Str("null"))
              || (exists values: seq<Json>, i | 0 <= i < |values| :: HasEnum(prop, values) && !values[i].Str?)
  {
    if prop.Obj? {
      var (types, values) := (ListOrEmpty(prop.Get("type")), EnumValues(prop.fields).GetOr([]));
      if Str("null") in types {
        var i :| 0 <= i < |types| && types[i] == Str("null");
        assert prop.Get("type") == Some(Arr(types));
      }
      if Null in values {
        var i :| 0 <= i < |values| && values[i] == Null;
        assert HasEnum(prop, values);
      }
      if !AllStrings(values) { assert HasEnum(prop, values); }
    }
  }

  /** The values declared are those of a list of strings, in its order. */
  lemma DeclaredMeaning(prop: Json)
    ensures forall values: seq<Json> | HasEnum(prop, values) && forall i | 0 <= i < |values| :: values[i].Str? ::
              |DeclaredValues(prop)| == |values| && forall i | 0 <= i < |values| :: Str(DeclaredValues(prop)[i]) == values[i]
    ensures (forall values: seq<Json> | HasEnum(prop, values) :: exists i | 0 <= i < |values| :: !values[i].Str?) ==> DeclaredValues(prop) == []
  {
    if prop.Obj? && EnumValues(prop.fields).Some? {
      assert HasEnum(prop, EnumValues(prop.fields).value);
    }
  }
}
