/** Stamping the derived contract onto a schema, checking it, and reading it
    back at run time (generation/stages/schema.py, state/loader.py). */
module Contract {
  import opened Wrappers
  import opened Json
  import opened Ir

  /** What the stages read of the intermediate representation. */
  datatype Model = Model(entities: seq<Entity>, metadata: StoreMetadata)

  // ---- resolving a collection to its definition ----

  const DEFS_PREFIX := "#/$defs/"

  /** The definition name a collection's items refer to. */
  function DefName(schema: Json, collection: string): (r: Option<string>) {
    match schema.GetObj("properties")
    case None => None
    case Some(properties) =>
      var prop := Obj(properties).GetObj(collection);
      var items := if prop.Some? then Obj(prop.value).GetObj("items") else None;
      var ref := if items.Some? then Obj(items.value).GetStr("$ref") else None;
      if ref.Some? && StartsWith(ref.value, DEFS_PREFIX) then Some(LastPart(ref.value)) else None
  }

  function LastPart(ref: string): (r: string) {
    var parts := Split(ref, '/');
    parts[|parts| - 1]
  }

  function Definition(schema: Json, name: string): (r: Option<Object>) {
    match schema.GetObj("$defs")
    case Some(defs) => Obj(defs).GetObj(name)
    case None => None
  }

  function DefOf(schema: Json, collection: string): (r: Option<Object>) {
    match DefName(schema, collection)
    case Some(name) => Definition(schema, name)
    case None => None
  }

  function WithDefinition(schema: Json, name: string, def: Object): (r: Json)
    requires Definition(schema, name).Some?
  {
    var defs := schema.fields["$defs"].fields;
    Obj(schema.fields["$defs" := Obj(defs[name := Obj(def)])])
  }

  // ---- the subschemas to stamp ----

  function Strings(values: seq<string>): (r: Json) {
    Arr(seq(|values|, i requires 0 <= i < |values| => Str(values[i])))
  }

  function ElementProperty(f: ElementField): (r: Json) {
    var prop := map["type" := Str(f.type_)];
    Obj(if f.values.Some? && f.values.value != [] && f.type_ == "string"
        then prop["enum" := Strings(f.values.value)] else prop)
  }

  /** A later field of the same name replaces an earlier one. */
  function ElementProperties(fields: seq<ElementField>): (r: Object) {
    if fields == [] then map[]
    else
      var last := fields[|fields| - 1];
      ElementProperties(fields[..|fields| - 1])[last.name := ElementProperty(last)]
  }

  function RequiredNames(fields: seq<ElementField>): (r: seq<string>) {
    if fields == [] then []
    else (if fields[0].required then [fields[0].name] else []) + RequiredNames(fields[1..])
  }

  function ObjectElement(fields: seq<ElementField>): (r: Json) {
    var subschema := map["type" := Str("object"), "properties" := Obj(ElementProperties(fields))];
    var required := RequiredNames(fields);
    Obj(if required != [] then subschema["required" := Strings(required)] else subschema)
  }

  function ElementItems(shape: ElementShape): (r: Option<Json>) {
    match shape.kind
    case Scalar =>
      if shape.type_.Some? && shape.type_.value != "" then Some(Obj(map["type" := Str(shape.type_.value)])) else None
    case Embedded => Some(ObjectElement(shape.fields))
    case Reference =>
      if shape.linkFields == [] then Some(Obj(map["type" := Str("string")]))
      else Some(ObjectElement(shape.linkFields))
  }

  function OptionalString(s: Option<string>): (r: Json) {
    match s
    case Some(text) => Str(text)
    case None => Null
  }

  function ElementRef(shape: ElementShape): (r: Json)
    requires shape.targetCollection.Some?
  {
    var ref := map["collection" := Str(shape.targetCollection.value), "key" := OptionalString(shape.targetKey)];
    Obj(if shape.localKey.Some? then ref["field" := Str(shape.localKey.value)] else ref)
  }

  // ---- a definition is changed by a list of writes ----

  /** One assignment inside a definition: its primary key, or one keyword of a
      property that declares the type the write expects. */
  datatype DefWrite =
    | SetKey(key: string)
    | SetKeyword(prop: string, declared: string, keyword: string, value: Json)

  /** The fields of a property, when it declares this type. */
  function Declared(def: Object, prop: string, declared: string): (r: Option<Object>) {
    match Obj(def).GetObj("properties")
    case None => None
    case Some(properties) =>
      match Obj(properties).GetObj(prop)
      case None => None
      case Some(fields) => if Obj(fields).Get("type") == Some(Str(declared)) then Some(fields) else None
  }

  function WithProperty(def: Object, prop: string, fields: Object): (r: Object)
    requires Obj(def).GetObj("properties").Some?
  {
    def["properties" := Obj(def["properties"].fields[prop := Obj(fields)])]
  }

  function Put(def: Object, w: DefWrite): (r: Object) {
    match w
    case SetKey(key) => def["x-primary-key" := Str(key)]
    case SetKeyword(prop, declared, keyword, value) =>
      match Declared(def, prop, declared)
      case None => def
      case Some(fields) => WithProperty(def, prop, fields[keyword := value])
  }

  function ElementWrites(field: Field): (r: seq<DefWrite>) {
    match field.element
    case None => []
    case Some(shape) =>
      match ElementItems(shape)
      case None => []
      case Some(items) =>
        var (keyword, declared) := if shape.container.ArrayOf? then ("items", "array") else ("additionalProperties", "object");
        [SetKeyword(field.name, declared, keyword, items)] +
        if shape.targetCollection.Some?
        then [SetKeyword(field.name, declared, "x-element-ref", ElementRef(shape))] else []
  }

  function ShapeWrites(fields: seq<Field>): (r: seq<DefWrite>) {
    if fields == [] then []
    else ShapeWrites(fields[..|fields| - 1]) + ElementWrites(fields[|fields| - 1])
  }

  function EnumWrites(enums: seq<FieldEnum>): (r: seq<DefWrite>) {
    seq(|enums|, i requires 0 <= i < |enums| => SetKeyword(enums[i].name, "string", "enum", Strings(enums[i].values)))
  }

  function PutAll(def: Object, ws: seq<DefWrite>): (r: Object)
    decreases ws
  {
    if ws == [] then def else PutAll(Put(def, ws[0]), ws[1..])
  }

  /** The primary key joins `required`, which is created if missing and left
      alone if it is not a list. */
  function Require(def: Object, key: string): (r: Object) {
    if "required" !in def then def["required" := Arr([Str(key)])]
    else match def["required"]
      case Arr(items) => if Str(key) in items then def else def["required" := Arr(items + [Str(key)])]
      case _ => def
  }

  /** The last entity of a collection: later entries replace earlier ones. */
  function EntityOf(entities: seq<Entity>, collection: string): (r: Option<Entity>) {
    if entities == [] then None
    else if entities[|entities| - 1].collection == collection then Some(entities[|entities| - 1])
    else EntityOf(entities[..|entities| - 1], collection)
  }

  function EnumsOf(metadata: StoreMetadata, collection: string): (r: seq<FieldEnum>) {
    if collection in metadata.enumMap then metadata.enumMap[collection] else []
  }

  /** Everything one collection writes to its definition besides `required`. */
  function CollectionWrites(ir: Model, pk: PrimaryKey): (r: seq<DefWrite>) {
    var entity := EntityOf(ir.entities, pk.collection);
    [SetKey(pk.key)]
    + (if entity.Some? then ShapeWrites(entity.value.fields) else [])
    + EnumWrites(EnumsOf(ir.metadata, pk.collection))
  }

  function StampTop(schema: Json, ir: Model): (r: Json) {
    match schema
    case Obj(fields) =>
      Obj(fields["required" := Strings(ir.metadata.collections)]["additionalProperties" := Bool(false)])
    case _ => schema
  }

  function StampCollection(schema: Json, ir: Model, pk: PrimaryKey): (r: Json) {
    match DefName(schema, pk.collection)
    case None => schema
    case Some(name) =>
      match Definition(schema, name)
      case None => schema
      case Some(def) => WithDefinition(schema, name, PutAll(Require(def, pk.key), CollectionWrites(ir, pk)))
  }

  function StampCollections(schema: Json, ir: Model, pks: seq<PrimaryKey>): (r: Json) {
    if pks == [] then schema
    else StampCollection(StampCollections(schema, ir, pks[..|pks| - 1]), ir, pks[|pks| - 1])
  }

  function Enforced(schema: Json, ir: Model): (r: Json) {
    StampCollections(StampTop(schema, ir), ir, ir.metadata.pkMap)
  }

  // ---- the stage's own steps, in place ----

  lemma {:induction false} PutAllAppend(def: Object, a: seq<DefWrite>, b: seq<DefWrite>)
    ensures PutAll(def, a + b) == PutAll(PutAll(def, a), b)
    decreases a
  {
    if a == [] {
      assert a + b == b;
    } else {
      assert (a + b)[1..] == a[1..] + b;
      PutAllAppend(Put(def, a[0]), a[1..], b);
    }
  }

  lemma PutAllOne(def: Object, w: DefWrite)
    ensures PutAll(def, [w]) == Put(def, w)
  {
    assert PutAll(def, [w]) == PutAll(Put(def, w), [w][1..]);
  }

  lemma PutAllTwo(def: Object, v: DefWrite, w: DefWrite)
    ensures PutAll(def, [v] + [w]) == Put(Put(def, v), w)
  {
    PutAllAppend(def, [v], [w]);
    PutAllOne(def, v);
    PutAllOne(Put(def, v), w);
  }

  method StampElementShapes(def0: Object, entity: Entity) returns (def: Object)
    ensures def == PutAll(def0, ShapeWrites(entity.fields))
  {
    def := def0;
    var fields := entity.fields;
    for i := 0 to |fields|
      invariant def == PutAll(def0, ShapeWrites(fields[..i]))
    {
      assert fields[..i + 1][..i] == fields[..i];
      PutAllAppend(def0, ShapeWrites(fields[..i]), ElementWrites(fields[i]));
      ghost var before := def;
      if fields[i].element.None? { continue; }
      var shape := fields[i].element.value;
      var (keyword, declared) := if shape.container.ArrayOf? then ("items", "array") else ("additionalProperties", "object");
      var items := ElementItems(shape);
      if items.None? { continue; }
      var w := SetKeyword(fields[i].name, declared, keyword, items.value);
      PutAllOne(before, w);
      def := Put(def, w);
      if shape.targetCollection.Some? {
        var ref := SetKeyword(fields[i].name, declared, "x-element-ref", ElementRef(shape));
        PutAllTwo(before, w, ref);
        def := Put(def, ref);
      }
    }
    assert fields[..|fields|] == fields;
  }

  method StampEnums(def0: Object, enums: seq<FieldEnum>) returns (def: Object)
    ensures def == PutAll(def0, EnumWrites(enums))
  {
    def := def0;
    for i := 0 to |enums|
      invariant def == PutAll(def0, EnumWrites(enums)[..i])
    {
      var w := SetKeyword(enums[i].name, "string", "enum", Strings(enums[i].values));
      assert EnumWrites(enums)[..i + 1] == EnumWrites(enums)[..i] + [w];
      PutAllAppend(def0, EnumWrites(enums)[..i], [w]);
      PutAllOne(def, w);
      def := Put(def, w);
    }
    assert EnumWrites(enums)[..|enums|] == EnumWrites(enums);
  }

  /** A schema document the stage rewrites in place. */
  class SchemaDocument {
    var json: Json

    constructor (json: Json)
      ensures this.json == json
    {
      this.json := json;
    }

    method EnforceContract(ir: Model)
      modifies this
      ensures json == Enforced(old(json), ir)
    {
      if json.Obj? {
        json := Obj(json.fields["required" := Strings(ir.metadata.collections)]);
        json := Obj(json.fields["additionalProperties" := Bool(false)]);
      }
      ghost var top := json;
      assert top == StampTop(old(json), ir);
      var pks := ir.metadata.pkMap;
      for i := 0 to |pks|
        invariant json == StampCollections(top, ir, pks[..i])
      {
        assert pks[..i + 1][..i] == pks[..i];
        var pk := pks[i];
        var name := DefName(json, pk.collection);
        if name.None? { continue; }
        var found := Definition(json, name.value);
        if found.None? { continue; }
        var def := Require(found.value, pk.key)["x-primary-key" := Str(pk.key)];
        ghost var required := Require(found.value, pk.key);
        PutAllOne(required, SetKey(pk.key));
        var entity := EntityOf(ir.entities, pk.collection);
        ghost var shapes := if entity.Some? then ShapeWrites(entity.value.fields) else [];
        PutAllAppend(required, [SetKey(pk.key)], shapes);
        if entity.Some? {
          def := StampElementShapes(def, entity.value);
        }
        var enums := EnumsOf(ir.metadata, pk.collection);
        PutAllAppend(required, [SetKey(pk.key)] + shapes, EnumWrites(enums));
        def := StampEnums(def, enums);
        json := WithDefinition(json, name.value, def);
      }
      assert pks[..|pks|] == pks;
    }
  }

  // ---- stamping twice is stamping once ----

  const STAMPED_KEYWORDS := {"items", "additionalProperties", "enum", "x-element-ref"}

  /** Writes never touch the `type` they are guarded by. */
  ghost predicate Stamp(w: DefWrite) {
    w.SetKeyword? ==> w.keyword in STAMPED_KEYWORDS
  }

  ghost predicate Stamps(ws: seq<DefWrite>) {
    forall w | w in ws :: Stamp(w)
  }

  lemma {:induction false} ShapeWritesAreStamps(fields: seq<Field>)
    ensures Stamps(ShapeWrites(fields))
  {
    if fields != [] {
      ShapeWritesAreStamps(fields[..|fields| - 1]);
    }
  }

  lemma CollectionWritesAreStamps(ir: Model, pk: PrimaryKey)
    ensures Stamps(CollectionWrites(ir, pk))
  {
    var entity := EntityOf(ir.entities, pk.collection);
    if entity.Some? { ShapeWritesAreStamps(entity.value.fields); }
  }

  lemma PutKeepsTypes(def: Object, w: DefWrite, prop: string, declared: string)
    requires Stamp(w)
    ensures Declared(Put(def, w), prop, declared).Some? <==> Declared(def, prop, declared).Some?
    ensures w.SetKey? || w.prop != prop ==> Declared(Put(def, w), prop, declared) == Declared(def, prop, declared)
  {
  }

  lemma PropertySwap(def: Object, p: string, x: Object, q: string, y: Object)
    requires Obj(def).GetObj("properties").Some?
    ensures p != q ==> WithProperty(WithProperty(def, q, y), p, x) == WithProperty(WithProperty(def, p, x), q, y)
    ensures WithProperty(WithProperty(def, p, y), p, x) == WithProperty(def, p, x)
  {
    var m := def["properties"].fields;
    if p != q {
      assert m[q := Obj(y)][p := Obj(x)] == m[p := Obj(x)][q := Obj(y)];
      assert WithProperty(WithProperty(def, q, y), p, x) == def["properties" := Obj(m[q := Obj(y)][p := Obj(x)])];
      assert WithProperty(WithProperty(def, p, x), q, y) == def["properties" := Obj(m[p := Obj(x)][q := Obj(y)])];
    }
    assert m[p := Obj(y)][p := Obj(x)] == m[p := Obj(x)];
    assert WithProperty(WithProperty(def, p, y), p, x) == def["properties" := Obj(m[p := Obj(x)])];
  }

  /** Of two writes, the later replaces the earlier or does not see it. */
  lemma PutSwap(def: Object, v: DefWrite, w: DefWrite)
    requires Stamp(v) && Stamp(w)
    ensures Put(Put(def, w), v) == Put(def, v) || Put(Put(def, w), v) == Put(Put(def, v), w)
  {
    if v.SetKey? && w.SetKey? {
      assert Put(Put(def, w), v) == Put(def, v);
    } else if v.SetKey? || w.SetKey? {
      assert Put(Put(def, w), v) == Put(Put(def, v), w);
    } else {
      var a, b := Declared(def, v.prop, v.declared), Declared(def, w.prop, w.declared);
      PutKeepsTypes(def, w, v.prop, v.declared);
      PutKeepsTypes(def, v, w.prop, w.declared);
      if a.Some? && b.Some? {
        PutBothApply(def, v, w);
      }
    }
  }

  /** A write that applies leaves every other property's guard as it was. */
  lemma PutWrites(def: Object, w: DefWrite, prop: string, declared: string)
    requires Stamp(w) && w.SetKeyword? && Declared(def, w.prop, w.declared).Some?
    ensures var a := Declared(def, w.prop, w.declared).value;
            var after := Put(def, w);
            && Obj(def).GetObj("properties").Some?
            && after == WithProperty(def, w.prop, a[w.keyword := w.value])
            && (prop != w.prop ==> Declared(after, prop, declared) == Declared(def, prop, declared))
            && Declared(after, w.prop, w.declared) == Some(a[w.keyword := w.value])
  {
  }

  lemma SameGuard(def: Object, v: DefWrite, w: DefWrite)
    requires v.SetKeyword? && w.SetKeyword? && v.prop == w.prop
    requires Declared(def, v.prop, v.declared).Some? && Declared(def, w.prop, w.declared).Some?
    ensures v.declared == w.declared
  {
  }

  lemma KeywordSwap(a: Object, k: string, x: Json, l: string, y: Json)
    ensures if k == l then a[l := y][k := x] == a[k := x] else a[l := y][k := x] == a[k := x][l := y]
  {
  }

  lemma PutSameProperty(def: Object, v: DefWrite, w: DefWrite)
    requires Stamp(v) && Stamp(w) && v.SetKeyword? && w.SetKeyword? && v.prop == w.prop
    requires Declared(def, v.prop, v.declared).Some? && Declared(def, w.prop, w.declared).Some?
    ensures Put(Put(def, w), v) == Put(def, v) || Put(Put(def, w), v) == Put(Put(def, v), w)
  {
    SameGuard(def, v, w);
    PutWrites(def, v, v.prop, v.declared);
    PutWrites(def, w, v.prop, v.declared);
    PutWrites(Put(def, v), w, v.prop, v.declared);
    PutWrites(Put(def, w), v, v.prop, v.declared);
    hide Put, Declared, WithProperty, Stamp;
    var a := Declared(def, v.prop, v.declared).value;
    var x, y := a[v.keyword := v.value], a[w.keyword := w.value];
    var xy, yx := y[v.keyword := v.value], x[w.keyword := w.value];
    PropertySwap(def, v.prop, xy, v.prop, y);
    PropertySwap(def, v.prop, yx, v.prop, x);
    KeywordSwap(a, v.keyword, v.value, w.keyword, w.value);
  }

  lemma PutBothApply(def: Object, v: DefWrite, w: DefWrite)
    requires Stamp(v) && Stamp(w) && v.SetKeyword? && w.SetKeyword?
    requires Declared(def, v.prop, v.declared).Some? && Declared(def, w.prop, w.declared).Some?
    ensures Put(Put(def, w), v) == Put(def, v) || Put(Put(def, w), v) == Put(Put(def, v), w)
  {
    if v.prop == w.prop {
      PutSameProperty(def, v, w);
    } else {
      PutWrites(def, v, w.prop, w.declared);
      PutWrites(def, w, v.prop, v.declared);
      PutWrites(Put(def, v), w, v.prop, v.declared);
      PutWrites(Put(def, w), v, w.prop, w.declared);
      hide Put, Declared, WithProperty, Stamp;
      var a, b := Declared(def, v.prop, v.declared).value, Declared(def, w.prop, w.declared).value;
      PropertySwap(def, v.prop, a[v.keyword := v.value], w.prop, b[w.keyword := w.value]);
    }
  }

  lemma PutTwice(def: Object, w: DefWrite)
    requires Stamp(w)
    ensures Put(Put(def, w), w) == Put(def, w)
  {
    if w.SetKeyword? && Declared(def, w.prop, w.declared).Some? {
      PutKeepsTypes(def, w, w.prop, w.declared);
      var x := Declared(def, w.prop, w.declared).value[w.keyword := w.value];
      PropertySwap(def, w.prop, x, w.prop, x);
      assert x[w.keyword := w.value] == x;
    }
  }

  /** A write that will come again can be left out. */
  lemma {:induction false} PutAbsorbed(def: Object, ws: seq<DefWrite>, w: DefWrite)
    requires Stamps(ws) && w in ws
    ensures PutAll(Put(def, w), ws) == PutAll(def, ws)
    decreases ws
  {
    var v := ws[0];
    PutSwap(def, v, w);
    PutTwice(def, w);
    if w != v && Put(Put(def, w), v) != Put(def, v) {
      PutAbsorbed(Put(def, v), ws[1..], w);
    } else if Put(Put(def, w), v) != Put(def, v) {
      assert false;
    }
  }

  lemma {:induction false} PutAllAbsorbed(def: Object, us: seq<DefWrite>, ws: seq<DefWrite>)
    requires Stamps(ws) && forall u | u in us :: u in ws
    ensures PutAll(PutAll(def, us), ws) == PutAll(def, ws)
    decreases us
  {
    if us != [] {
      PutAllAbsorbed(Put(def, us[0]), us[1..], ws);
      PutAbsorbed(def, ws, us[0]);
    }
  }

  lemma RequirePut(def: Object, key: string, w: DefWrite)
    ensures Put(Require(def, key), w) == Require(Put(def, w), key)
  {
    match w
    case SetKey(_) => assert Put(Require(def, key), w) == Require(Put(def, w), key);
    case SetKeyword(prop, declared, _, _) =>
      assert Declared(Require(def, key), prop, declared) == Declared(def, prop, declared);
      assert Put(Require(def, key), w) == Require(Put(def, w), key);
  }

  lemma {:induction false} RequirePutAll(def: Object, key: string, ws: seq<DefWrite>)
    ensures PutAll(Require(def, key), ws) == Require(PutAll(def, ws), key)
    decreases ws
  {
    if ws != [] {
      RequirePut(def, key, ws[0]);
      RequirePutAll(Put(def, ws[0]), key, ws[1..]);
    }
  }

  // One definition, stamped by the collections that share it, in order.

  ghost function StampDef(def: Object, ir: Model, pks: seq<PrimaryKey>): (r: Object) {
    if pks == [] then def
    else
      var last := pks[|pks| - 1];
      PutAll(Require(StampDef(def, ir, pks[..|pks| - 1]), last.key), CollectionWrites(ir, last))
  }

  ghost function AllWrites(ir: Model, pks: seq<PrimaryKey>): (r: seq<DefWrite>) {
    if pks == [] then []
    else AllWrites(ir, pks[..|pks| - 1]) + CollectionWrites(ir, pks[|pks| - 1])
  }

  ghost function RequireAll(def: Object, pks: seq<PrimaryKey>): (r: Object) {
    if pks == [] then def
    else Require(RequireAll(def, pks[..|pks| - 1]), pks[|pks| - 1].key)
  }

  lemma {:induction false} StampDefSplit(def: Object, ir: Model, pks: seq<PrimaryKey>)
    ensures StampDef(def, ir, pks) == RequireAll(PutAll(def, AllWrites(ir, pks)), pks)
    ensures Stamps(AllWrites(ir, pks))
  {
    if pks != [] {
      var init, last := pks[..|pks| - 1], pks[|pks| - 1];
      StampDefSplit(def, ir, init);
      CollectionWritesAreStamps(ir, last);
      var before := PutAll(def, AllWrites(ir, init));
      RequirePutAll(RequireAll(before, init), last.key, CollectionWrites(ir, last));
      RequireAllPutAll(before, init, CollectionWrites(ir, last));
      PutAllAppend(def, AllWrites(ir, init), CollectionWrites(ir, last));
    }
  }

  lemma {:induction false} RequireAllPutAll(def: Object, pks: seq<PrimaryKey>, ws: seq<DefWrite>)
    ensures PutAll(RequireAll(def, pks), ws) == RequireAll(PutAll(def, ws), pks)
  {
    if pks != [] {
      RequireAllPutAll(def, pks[..|pks| - 1], ws);
      RequirePutAll(RequireAll(def, pks[..|pks| - 1]), pks[|pks| - 1].key, ws);
    }
  }

  /** Requiring the key again would change nothing. */
  ghost predicate Requires(def: Object, key: string) {
    "required" in def && (def["required"].Arr? ==> Str(key) in def["required"].items)
  }

  lemma RequireKeeps(def: Object, key: string)
    ensures Requires(Require(def, key), key)
    ensures forall other: string | Requires(def, other) :: Requires(Require(def, key), other)
  {
  }

  lemma {:induction false} RequireAllHolds(def: Object, pks: seq<PrimaryKey>)
    ensures forall pk | pk in pks :: Requires(RequireAll(def, pks), pk.key)
  {
    if pks != [] {
      var init, last := pks[..|pks| - 1], pks[|pks| - 1];
      RequireAllHolds(def, init);
      RequireKeeps(RequireAll(def, init), last.key);
      hide Require, Requires;
      assert pks == init + [last];
    }
  }

  lemma {:induction false} RequireAllNoop(def: Object, pks: seq<PrimaryKey>)
    requires forall pk | pk in pks :: Requires(def, pk.key)
    ensures RequireAll(def, pks) == def
  {
    if pks != [] {
      var init, last := pks[..|pks| - 1], pks[|pks| - 1];
      assert pks == init + [last];
      RequireAllNoop(def, init);
    }
  }

  lemma StampDefTwice(def: Object, ir: Model, pks: seq<PrimaryKey>)
    ensures StampDef(StampDef(def, ir, pks), ir, pks) == StampDef(def, ir, pks)
  {
    var ws := AllWrites(ir, pks);
    var once := PutAll(def, ws);
    StampDefSplit(def, ir, pks);
    StampDefSplit(StampDef(def, ir, pks), ir, pks);
    RequireAllPutAll(once, pks, ws);
    PutAllAbsorbed(def, ws, ws);
    assert PutAll(StampDef(def, ir, pks), ws) == RequireAll(once, pks);
    RequireAllHolds(once, pks);
    RequireAllNoop(RequireAll(once, pks), pks);
  }

  // The whole document: every definition is stamped on its own.

  /** The collections among `pks` whose items refer to this definition. */
  ghost function Sharing(schema: Json, pks: seq<PrimaryKey>, name: string): (r: seq<PrimaryKey>) {
    if pks == [] then []
    else
      var last := pks[|pks| - 1];
      Sharing(schema, pks[..|pks| - 1], name) + (if DefName(schema, last.collection) == Some(name) then [last] else [])
  }

  lemma {:induction false} SharingMembers(schema: Json, pks: seq<PrimaryKey>, name: string)
    ensures forall pk :: pk in Sharing(schema, pks, name) <==> pk in pks && DefName(schema, pk.collection) == Some(name)
  {
    if pks != [] {
      SharingMembers(schema, pks[..|pks| - 1], name);
      assert pks == pks[..|pks| - 1] + [pks[|pks| - 1]];
    }
  }

  ghost function StampedEntry(schema: Json, ir: Model, pks: seq<PrimaryKey>, name: string, entry: Json): (r: Json) {
    if entry.Obj? then Obj(StampDef(entry.fields, ir, Sharing(schema, pks, name))) else entry
  }

  ghost function StampedDefs(schema: Json, ir: Model, pks: seq<PrimaryKey>, defs: Object): (r: Object) {
    map name | name in defs :: StampedEntry(schema, ir, pks, name, defs[name])
  }

  ghost function StampDefs(schema: Json, ir: Model, pks: seq<PrimaryKey>): (r: Json) {
    match schema.GetObj("$defs")
    case None => schema
    case Some(defs) => Obj(schema.fields["$defs" := Obj(StampedDefs(schema, ir, pks, defs))])
  }

  lemma {:induction false} SharingSame(a: Json, b: Json, pks: seq<PrimaryKey>, name: string)
    requires forall c :: DefName(a, c) == DefName(b, c)
    ensures Sharing(a, pks, name) == Sharing(b, pks, name)
  {
    if pks != [] {
      SharingSame(a, b, pks[..|pks| - 1], name);
    }
  }

  lemma StampDefsKeepsRefs(schema: Json, ir: Model, pks: seq<PrimaryKey>)
    ensures StampDefs(schema, ir, pks).GetObj("properties") == schema.GetObj("properties")
    ensures forall c :: DefName(StampDefs(schema, ir, pks), c) == DefName(schema, c)
  {
  }

  /** Collections stamp only the definitions they refer to, in the order given. */
  lemma {:induction false} StampCollectionsIsStampDefs(schema: Json, ir: Model, pks: seq<PrimaryKey>)
    ensures StampCollections(schema, ir, pks) == StampDefs(schema, ir, pks)
  {
    if pks == [] {
      if schema.GetObj("$defs").Some? {
        var defs := schema.GetObj("$defs").value;
        assert StampedDefs(schema, ir, pks, defs) == defs;
        assert schema.fields["$defs" := Obj(defs)] == schema.fields;
      }
    } else {
      var init, last := pks[..|pks| - 1], pks[|pks| - 1];
      StampCollectionsIsStampDefs(schema, ir, init);
      StampDefsKeepsRefs(schema, ir, init);
      if schema.GetObj("$defs").Some? {
        StampLast(schema, ir, init, last, schema.GetObj("$defs").value);
        assert pks == init + [last];
      }
    }
  }

  lemma SharingLast(schema: Json, init: seq<PrimaryKey>, last: PrimaryKey, name: string)
    ensures Sharing(schema, init + [last], name)
         == if DefName(schema, last.collection) == Some(name) then Sharing(schema, init, name) + [last] else Sharing(schema, init, name)
  {
    assert (init + [last])[..|init|] == init;
    assert Sharing(schema, init, name) + [] == Sharing(schema, init, name);
  }

  lemma StampDefLast(def: Object, ir: Model, init: seq<PrimaryKey>, last: PrimaryKey)
    ensures StampDef(def, ir, init + [last]) == PutAll(Require(StampDef(def, ir, init), last.key), CollectionWrites(ir, last))
  {
    assert (init + [last])[..|init|] == init;
  }

  ghost function Restamp(entry: Json, ir: Model, pk: PrimaryKey): (r: Json) {
    if entry.Obj? then Obj(PutAll(Require(entry.fields, pk.key), CollectionWrites(ir, pk))) else entry
  }

  lemma StampedEntryLast(schema: Json, ir: Model, init: seq<PrimaryKey>, last: PrimaryKey, name: string, entry: Json)
    ensures var before, after := StampedEntry(schema, ir, init, name, entry), StampedEntry(schema, ir, init + [last], name, entry);
            after == if DefName(schema, last.collection) == Some(name) then Restamp(before, ir, last) else before
  {
    SharingLast(schema, init, last, name);
    if entry.Obj? {
      StampDefLast(entry.fields, ir, Sharing(schema, init, name), last);
    }
  }

  lemma OneChanged(before: Object, after: Object, name: Option<string>, entry: Json)
    requires before.Keys == after.Keys
    requires forall n | n in before && name != Some(n) :: after[n] == before[n]
    requires name.Some? && name.value in before ==> after[name.value] == entry
    ensures after == if name.Some? && name.value in before then before[name.value := entry] else before
  {
  }

  lemma StampedDefsLast(schema: Json, ir: Model, init: seq<PrimaryKey>, last: PrimaryKey, defs: Object)
    ensures var before, after := StampedDefs(schema, ir, init, defs), StampedDefs(schema, ir, init + [last], defs);
            var name := DefName(schema, last.collection);
            after == if name.Some? && name.value in before
                     then before[name.value := Restamp(before[name.value], ir, last)] else before
  {
    var before, after := StampedDefs(schema, ir, init, defs), StampedDefs(schema, ir, init + [last], defs);
    var name := DefName(schema, last.collection);
    forall n | n in defs
      ensures after[n] == if name == Some(n) then Restamp(before[n], ir, last) else before[n]
    {
      StampedEntryLast(schema, ir, init, last, n, defs[n]);
    }
    OneChanged(before, after, name, if name.Some? && name.value in before then Restamp(before[name.value], ir, last) else Null);
  }

  lemma StampInto(doc: Json, ir: Model, last: PrimaryKey, defs: Object)
    requires doc.GetObj("$defs") == Some(defs)
    ensures StampCollection(doc, ir, last) ==
      var name := DefName(doc, last.collection);
      if name.Some? && name.value in defs
      then Obj(doc.fields["$defs" := Obj(defs[name.value := Restamp(defs[name.value], ir, last)])]) else doc
  {
    var name := DefName(doc, last.collection);
    if name.Some? && name.value in defs && !defs[name.value].Obj? {
      assert defs[name.value := defs[name.value]] == defs;
      assert doc.fields["$defs" := Obj(defs)] == doc.fields;
    }
  }

  lemma StampLast(schema: Json, ir: Model, init: seq<PrimaryKey>, last: PrimaryKey, defs: Object)
    requires schema.GetObj("$defs") == Some(defs)
    ensures StampCollection(StampDefs(schema, ir, init), ir, last) == StampDefs(schema, ir, init + [last])
  {
    var doc := StampDefs(schema, ir, init);
    var before, after := StampedDefs(schema, ir, init, defs), StampedDefs(schema, ir, init + [last], defs);
    StampDefsKeepsRefs(schema, ir, init);
    StampedDefsLast(schema, ir, init, last, defs);
    assert StampDefs(schema, ir, init + [last]) == Obj(schema.fields["$defs" := Obj(after)]);
    assert doc == Obj(schema.fields["$defs" := Obj(before)]);
    hide StampedDefs, StampDefs, StampCollection, Restamp, DefName;
    StampInto(doc, ir, last, before);
    assert schema.fields["$defs" := Obj(before)]["$defs" := Obj(after)] == schema.fields["$defs" := Obj(after)];
  }

  /** Enforcing the contract on an enforced schema changes nothing, whatever
      the schema looks like. */
  lemma EnforceIdempotent(schema: Json, ir: Model)
    ensures Enforced(Enforced(schema, ir), ir) == Enforced(schema, ir)
  {
    var pks := ir.metadata.pkMap;
    var top := StampTop(schema, ir);
    var once := StampDefs(top, ir, pks);
    StampCollectionsIsStampDefs(top, ir, pks);
    assert StampTop(once, ir) == once by {
      if once.Obj? {
        assert once.fields["required" := Strings(ir.metadata.collections)]["additionalProperties" := Bool(false)] == once.fields;
      }
    }
    StampCollectionsIsStampDefs(once, ir, pks);
    if top.GetObj("$defs").Some? {
      var defs := top.GetObj("$defs").value;
      var stamped := StampedDefs(top, ir, pks, defs);
      StampDefsKeepsRefs(top, ir, pks);
      forall name | name in defs ensures StampedDefs(once, ir, pks, stamped)[name] == stamped[name] {
        if defs[name].Obj? {
          SharingSame(once, top, pks, name);
          StampDefTwice(defs[name].fields, ir, Sharing(top, pks, name));
        }
      }
      assert StampedDefs(once, ir, pks, stamped) == stamped;
    }
  }
}
