/** Where the stamps of a collection go and what they say, keyword by keyword
    (generation/stages/schema.py, state/loader.py). */
module StampMeaning {
  import opened Wrappers
  import opened Json
  import opened Ir
  import opened Contract
  import opened ContractStamps
  import opened Loader

  // ---- element schemas ----

  /** A JSON list of exactly these strings. */
  ghost predicate ListOf(j: Json, values: seq<string>) {
    j.Arr? && |j.items| == |values| && forall i | 0 <= i < |values| :: j.items[i] == Str(values[i])
  }

  /** The schema of one field: its type, and for a string its values if it has any. */
  ghost predicate FieldSchema(j: Json, f: ElementField) {
    && j.Obj? && j.Get("type") == Some(Str(f.type_))
    && (if f.type_ == "string" && f.values.Some? && f.values.value != [] then
          j.fields.Keys == {"type", "enum"} && ListOf(j.fields["enum"], f.values.value)
        else j.fields.Keys == {"type"})
  }

  /** The names of the required fields, in the order of the fields. */
  ghost function RequiredOf(fields: seq<ElementField>): (r: seq<string>) {
    if fields == [] then []
    else
      var last := fields[|fields| - 1];
      RequiredOf(fields[..|fields| - 1]) + (if last.required then [last.name] else [])
  }

  /** Field `i` is the last of its name. */
  ghost predicate LastOfName(fields: seq<ElementField>, i: int) {
    0 <= i < |fields| && forall k | i < k < |fields| :: fields[k].name != fields[i].name
  }

  /** An object schema of these fields, open to others. */
  ghost predicate ObjectOf(j: Json, fields: seq<ElementField>) {
    && j.Obj? && j.Get("type") == Some(Str("object")) && j.GetObj("properties").Some?
    && (if RequiredOf(fields) == [] then j.fields.Keys == {"type", "properties"}
        else j.fields.Keys == {"type", "properties", "required"} && ListOf(j.fields["required"], RequiredOf(fields)))
    && (forall n :: n in j.GetObj("properties").value <==> exists f | f in fields :: f.name == n)
    && (forall i :: LastOfName(fields, i) ==>
          fields[i].name in j.GetObj("properties").value && FieldSchema(j.GetObj("properties").value[fields[i].name], fields[i]))
  }

  /** The schema under which elements of this shape are stored. */
  ghost predicate Stored(shape: ElementShape, j: Json) {
    match shape.kind
    case Scalar => shape.type_.Some? && shape.type_.value != "" && j == Obj(map["type" := Str(shape.type_.value)])
    case Embedded => ObjectOf(j, shape.fields)
    case Reference => if shape.linkFields == [] then j == Obj(map["type" := Str("string")]) else ObjectOf(j, shape.linkFields)
  }

  /** What is recorded of the entity that elements point at. */
  ghost predicate Points(shape: ElementShape, j: Json) {
    && shape.targetCollection.Some? && j.Obj?
    && j.Get("collection") == Some(Str(shape.targetCollection.value))
    && j.Get("key") == Some(if shape.targetKey.Some? then Str(shape.targetKey.value) else Null)
    && (if shape.localKey.Some? then j.fields.Keys == {"collection", "key", "field"} && j.fields["field"] == Str(shape.localKey.value)
        else j.fields.Keys == {"collection", "key"})
  }

  lemma ElementPropertyMeaning(f: ElementField)
    ensures FieldSchema(ElementProperty(f), f)
  {
  }

  lemma {:induction false} PropertiesMeaning(fields: seq<ElementField>)
    ensures forall n :: n in ElementProperties(fields) <==> exists f | f in fields :: f.name == n
    ensures forall i :: LastOfName(fields, i) ==>
              fields[i].name in ElementProperties(fields) && FieldSchema(ElementProperties(fields)[fields[i].name], fields[i])
  {
    hide FieldSchema;
    if fields != [] {
      var n := |fields| - 1;
      var init, last := fields[..n], fields[n];
      assert fields == init + [last];
      PropertiesMeaning(init);
      ElementPropertyMeaning(last);
      forall i | LastOfName(fields, i)
        ensures fields[i].name in ElementProperties(fields) && FieldSchema(ElementProperties(fields)[fields[i].name], fields[i])
      {
        if i < n {
          assert fields[n].name != fields[i].name;
          assert LastOfName(init, i);
        }
      }
    }
  }

  lemma {:induction false} RequiredAppend(fields: seq<ElementField>, f: ElementField)
    ensures RequiredNames(fields + [f]) == RequiredNames(fields) + (if f.required then [f.name] else [])
    decreases |fields|
  {
    var all := fields + [f];
    if fields == [] {
      assert all == [f] && all[1..] == [];
    } else {
      assert all[0] == fields[0] && all[1..] == fields[1..] + [f];
      RequiredAppend(fields[1..], f);
    }
  }

  lemma {:induction false} RequiredMeaning(fields: seq<ElementField>)
    ensures RequiredNames(fields) == RequiredOf(fields)
  {
    if fields != [] {
      var n := |fields| - 1;
      assert fields == fields[..n] + [fields[n]];
      RequiredMeaning(fields[..n]);
      RequiredAppend(fields[..n], fields[n]);
    }
  }

  lemma ObjectMeaning(fields: seq<ElementField>)
    ensures ObjectOf(ObjectElement(fields), fields)
  {
    PropertiesMeaning(fields);
    RequiredMeaning(fields);
    hide FieldSchema, ElementProperties, RequiredNames, RequiredOf, LastOfName;
  }

  lemma ItemsMeaning(shape: ElementShape)
    ensures ElementItems(shape).Some? ==> Stored(shape, ElementItems(shape).value)
    ensures ElementItems(shape).None? ==> forall j :: !Stored(shape, j)
  {
    ObjectMeaning(shape.fields);
    ObjectMeaning(shape.linkFields);
    hide ObjectElement, ObjectOf;
  }

  // ---- where they go ----

  /** An array's elements are described under `items`, a map's under
      `additionalProperties`. */
  ghost predicate Under(container: Container, declared: string, keyword: string) {
    match container
    case ArrayOf => declared == "array" && keyword == "items"
    case MapOf => declared == "object" && keyword == "additionalProperties"
  }

  /** The element's schema goes under the container's keyword of the field, if it
      declares that container; so does, once there is one, what it points at. */
  ghost predicate StampsField(field: Field, w: DefWrite) {
    && w.SetKeyword? && w.prop == field.name && field.element.Some?
    && var shape := field.element.value;
       || (Under(shape.container, w.declared, w.keyword) && Stored(shape, w.value))
       || (w.keyword == "x-element-ref" && (exists k :: Under(shape.container, w.declared, k)) && Points(shape, w.value)
           && exists j :: Stored(shape, j))
  }

  ghost predicate StampsEnum(e: FieldEnum, w: DefWrite) {
    w.SetKeyword? && w.prop == e.name && w.declared == "string" && w.keyword == "enum" && ListOf(w.value, e.values)
  }

  lemma RefMeaning(shape: ElementShape)
    requires shape.targetCollection.Some?
    ensures Points(shape, ElementRef(shape))
  {
  }

  lemma TwoStamps(field: Field, shape: ElementShape)
    requires field.element == Some(shape)
    ensures ElementItems(shape).None? ==> ElementWrites(field) == []
    ensures ElementItems(shape).Some? ==>
              exists declared, keyword :: Under(shape.container, declared, keyword) &&
                var w := SetKeyword(field.name, declared, keyword, ElementItems(shape).value);
                if shape.targetCollection.Some? then ElementWrites(field) == [w, SetKeyword(field.name, declared, "x-element-ref", ElementRef(shape))]
                else ElementWrites(field) == [w]
  {
    var (keyword, declared) := if shape.container.ArrayOf? then ("items", "array") else ("additionalProperties", "object");
    assert Under(shape.container, declared, keyword);
    hide ElementItems, ElementRef;
  }

  lemma FieldWrites(field: Field)
    ensures forall w | w in ElementWrites(field) :: StampsField(field, w)
    ensures field.element.Some? ==>
              var shape := field.element.value;
              && (ElementWrites(field) == [] <==> forall j :: !Stored(shape, j))
              && (ElementWrites(field) != [] ==>
                    && Under(shape.container, ElementWrites(field)[0].declared, ElementWrites(field)[0].keyword)
                    && |ElementWrites(field)| == if shape.targetCollection.Some? then 2 else 1)
              && (|ElementWrites(field)| == 2 ==> ElementWrites(field)[1].keyword == "x-element-ref")
  {
    if field.element.Some? {
      var shape := field.element.value;
      ItemsMeaning(shape);
      TwoStamps(field, shape);
      if shape.targetCollection.Some? { RefMeaning(shape); }
      hide ElementWrites, ElementItems, ElementRef, Stored, Points, Under;
    }
  }

  /** Everything a collection writes: its key, and the stamps of the fields of
      its last entity and of its enums. */
  lemma CollectionStamps(ir: Model, pk: PrimaryKey, w: DefWrite)
    requires w in CollectionWrites(ir, pk)
    ensures
      || w == SetKey(pk.key)
      || (exists f :: EntityOf(ir.entities, pk.collection).Some? && f in EntityOf(ir.entities, pk.collection).value.fields && StampsField(f, w))
      || (exists e :: pk.collection in ir.metadata.enumMap && e in ir.metadata.enumMap[pk.collection] && StampsEnum(e, w))
  {
    var entity := EntityOf(ir.entities, pk.collection);
    var enums := EnumsOf(ir.metadata, pk.collection);
    if entity.Some? && w in ShapeWrites(entity.value.fields) {
      ShapeWritesMembers(entity.value.fields);
      var f :| f in entity.value.fields && w in ElementWrites(f);
      FieldWrites(f);
    } else if w in EnumWrites(enums) {
      var i :| 0 <= i < |enums| && EnumWrites(enums)[i] == w;
      assert enums[i] in enums && StampsEnum(enums[i], w);
    }
  }

  /** Conversely each of these stamps is written. */
  lemma CollectionWritesAll(ir: Model, pk: PrimaryKey)
    ensures SetKey(pk.key) in CollectionWrites(ir, pk)
    ensures var entity := EntityOf(ir.entities, pk.collection);
            entity.Some? ==> forall f, w | f in entity.value.fields && w in ElementWrites(f) :: w in CollectionWrites(ir, pk)
    ensures pk.collection in ir.metadata.enumMap ==>
              forall e | e in ir.metadata.enumMap[pk.collection] :: exists w :: w in CollectionWrites(ir, pk) && StampsEnum(e, w)
  {
    var entity := EntityOf(ir.entities, pk.collection);
    var enums := EnumsOf(ir.metadata, pk.collection);
    var ws := CollectionWrites(ir, pk);
    assert ws[0] == SetKey(pk.key);
    if entity.Some? { ShapeWritesMembers(entity.value.fields); }
    forall e | e in enums ensures exists w :: w in ws && StampsEnum(e, w) {
      var i :| 0 <= i < |enums| && enums[i] == e;
      var w := EnumWrites(enums)[i];
      assert w in EnumWrites(enums) && StampsEnum(e, w);
    }
    hide EnumWrites, ShapeWrites, ElementWrites;
  }

  /** The last entity of a collection speaks for it. */
  lemma {:induction false} EntityOfMeaning(entities: seq<Entity>, collection: string)
    ensures match EntityOf(entities, collection)
            case None => forall e | e in entities :: e.collection != collection
            case Some(e) => exists i | 0 <= i < |entities| ::
              entities[i] == e && e.collection == collection && forall k | i < k < |entities| :: entities[k].collection != collection
  {
    if entities != [] {
      var n := |entities| - 1;
      EntityOfMeaning(entities[..n], collection);
      assert entities == entities[..n] + [entities[n]];
      if entities[n].collection != collection && EntityOf(entities, collection).Some? {
        var i :| 0 <= i < n && entities[..n][i] == EntityOf(entities, collection).value
          && forall k | i < k < n :: entities[..n][k].collection != collection;
        assert entities[i] == EntityOf(entities, collection).value;
        forall k | i < k < |entities| ensures entities[k].collection != collection { if k < n { assert entities[k] == entities[..n][k]; } }
      }
    }
  }

  // ---- references to definitions ----

  lemma LastPartMeaning(a: string, name: string)
    requires '/' !in name
    ensures LastPart(a + "/" + name) == name
  {
    SplitAround(a, name, '/');
    SplitPlain(name, '/');
  }

  lemma {:induction false} LastSlash(s: string) returns (a: string, name: string)
    requires '/' in s
    ensures s == a + "/" + name && '/' !in name
  {
    var n := |s| - 1;
    if s[n] == '/' {
      a, name := s[..n], "";
    } else {
      assert s == s[..n] + [s[n]];
      a, name := LastSlash(s[..n]);
      name := name + [s[n]];
    }
  }

  /** A collection's items refer to a definition of this name. */
  ghost predicate ItemsReferTo(schema: Json, collection: string, name: string) {
    exists a: string ::
      && '/' !in name && ValueAt(schema, ["properties", collection, "items", "$ref"]) == Some(Str(a + "/" + name))
      && StartsWith(a + "/" + name, DEFS_PREFIX)
  }

  lemma PathStep(j: Json, key: string, rest: seq<string>)
    ensures ValueAt(j, [key] + rest) == match j.Get(key) case Some(next) => ValueAt(next, rest) case None => None
    ensures ValueAt(j, []) == Some(j)
  {
    ValueAtFirst(j, [key] + rest);
    assert ([key] + rest)[1..] == rest;
  }

  lemma RefPath(schema: Json, collection: string)
    ensures ValueAt(schema, ["properties", collection, "items", "$ref"]) ==
              match schema.GetObj("properties")
              case None => None
              case Some(properties) =>
                match Obj(properties).GetObj(collection)
                case None => None
                case Some(prop) =>
                  match Obj(prop).GetObj("items")
                  case None => None
                  case Some(items) => Obj(items).Get("$ref")
  {
    var ref := ["$ref"];
    var items := ["items"] + ref;
    var prop := [collection] + items;
    assert ["properties", collection, "items", "$ref"] == ["properties"] + prop;
    assert ref == ref + [];
    hide ValueAt;
    PathStep(schema, "properties", prop);
    if schema.Get("properties").Some? {
      var j := schema.Get("properties").value;
      PathStep(j, collection, items);
      if j.Get(collection).Some? {
        var k := j.Get(collection).value;
        PathStep(k, "items", ref);
        if k.Get("items").Some? {
          var l := k.Get("items").value;
          PathStep(l, "$ref", []);
          if l.Get("$ref").Some? { PathStep(l.Get("$ref").value, "", []); }
        }
      }
    }
  }

  lemma DefNameMeaning(schema: Json, collection: string)
    ensures forall name :: DefName(schema, collection) == Some(name) <==> ItemsReferTo(schema, collection, name)
  {
    RefPath(schema, collection);
    var ref := ValueAt(schema, ["properties", collection, "items", "$ref"]);
    if ref.Some? && ref.value.Str? && StartsWith(ref.value.text, DEFS_PREFIX) {
      var s := ref.value.text;
      assert s[0..8] == DEFS_PREFIX[0..8];
      assert DEFS_PREFIX[7] == '/' && s[7] == '/';
      var a, name := LastSlash(s);
      LastPartMeaning(a, name);
      forall b: string, other: string | '/' !in other && s == b + "/" + other ensures other == name {
        LastPartMeaning(b, other);
      }
      hide LastPart, ValueAt;
      assert ItemsReferTo(schema, collection, name);
    }
  }

  // ---- reading the key back ----

  /** A lookup with a default, in an object. */
  ghost predicate Link(j: Json, key: string, default: Json, v: Json) {
    j.Obj? && v == if key in j.fields then j.fields[key] else default
  }

  /** The reference of a store's items, empty where some part of the way is missing. */
  ghost predicate StoreRef(schema: Json, store: string, ref: Json) {
    exists properties, prop, items ::
      && Link(schema, "properties", NOTHING, properties) && Link(properties, store, NOTHING, prop)
      && Link(prop, "items", NOTHING, items) && Link(items, "$ref", Str(""), ref)
  }

  /** The definition of this name, empty where it is missing. */
  ghost predicate Defined(schema: Json, name: string, def: Json) {
    exists defs :: Link(schema, "$defs", NOTHING, defs) && Link(defs, name, NOTHING, def)
  }

  /** The name is in the list, among the keys, or within the text. */
  ghost predicate Has(j: Json, name: string) {
    match j
    case Arr(items) => Str(name) in items
    case Obj(fields) => name in fields
    case Str(text) => exists a, b :: text == a + name + b
    case _ => false
  }

  ghost predicate Searchable(j: Json) {
    j.Arr? || j.Obj? || j.Str?
  }

  lemma ContainsMeaning(j: Json, name: string)
    ensures Contains(j, name) == if Searchable(j) then Some(Has(j, name)) else None
  {
    if j.Str? {
      var text := j.text;
      if i :| 0 <= i <= |text| && SubstringAt(text, name, i) {
        assert text == text[..i] + name + text[i + |name|..];
      }
      if a, b :| text == a + name + b {
        assert SubstringAt(text, name, |a|);
      }
    }
  }

  /** What a definition makes the key: what it declares; else `id`, if it requires
      and has one. */
  ghost predicate KeyIn(def: Object, name: string, key: StoreKey) {
    var required := if "required" in def then def["required"] else Arr([]);
    var properties := if "properties" in def then def["properties"] else NOTHING;
    if "x-primary-key" in def then key == Key(def["x-primary-key"])
    else if !Searchable(required) || (Has(required, "id") && !Searchable(properties)) then key == Crash
    else key == if Has(required, "id") && Has(properties, "id") then Key(Str("id")) else NoKey(name)
  }

  lemma KeyInMeaning(schema: Json, store: string, a: string, name: string, def: Object)
    requires '/' !in name && StoreRef(schema, store, Str(a + "/" + name)) && StartsWith(a + "/" + name, "#/$defs/")
    requires Defined(schema, name, Obj(def))
    ensures KeyIn(def, name, InferKey(schema, store))
  {
    LastPartMeaning(a, name);
    ContainsMeaning(if "required" in def then def["required"] else Arr([]), "id");
    ContainsMeaning(if "properties" in def then def["properties"] else NOTHING, "id");
    hide Has, Contains, Split;
  }

  /** A store without a reference to a definition is keyed by `id`; a lookup in
      what is no object fails, and so does one of a reference that is no text. */
  lemma NoDefinition(schema: Json, store: string, ref: Json)
    ensures StoreRef(schema, store, ref) && ref.Str? && !StartsWith(ref.text, "#/$defs/") && (exists defs :: Link(schema, "$defs", NOTHING, defs)) ==>
              InferKey(schema, store) == Key(Str("id"))
    ensures StoreRef(schema, store, ref) && !ref.Str? ==> InferKey(schema, store) == Crash
    ensures (forall r :: !StoreRef(schema, store, r)) ==> InferKey(schema, store) == Crash
    ensures StoreRef(schema, store, ref) && ref.Str? && StartsWith(ref.text, "#/$defs/")
              && (forall def :: !Defined(schema, LastPart(ref.text), Obj(def))) ==>
                InferKey(schema, store) == Crash
  {
    hide Contains, Split;
    var properties := GetOr(schema, "properties", NOTHING);
    if properties.Some? {
      assert Link(schema, "properties", NOTHING, properties.value);
      var prop := GetOr(properties.value, store, NOTHING);
      if prop.Some? {
        assert Link(properties.value, store, NOTHING, prop.value);
        var items := GetOr(prop.value, "items", NOTHING);
        if items.Some? {
          assert Link(prop.value, "items", NOTHING, items.value);
          var r := GetOr(items.value, "$ref", Str(""));
          if r.Some? {
            assert Link(items.value, "$ref", Str(""), r.value);
            assert StoreRef(schema, store, r.value);
          }
        }
      }
    }
    var defs := GetOr(schema, "$defs", NOTHING);
    if defs.Some? && ref.Str? {
      assert Link(schema, "$defs", NOTHING, defs.value);
      var def := GetOr(defs.value, LastPart(ref.text), NOTHING);
      if def.Some? && def.value.Obj? {
        assert Link(defs.value, LastPart(ref.text), NOTHING, Obj(def.value.fields));
        assert Defined(schema, LastPart(ref.text), Obj(def.value.fields));
      }
    }
  }
}
