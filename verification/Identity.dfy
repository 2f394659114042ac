/** Deterministic derivation of entities from OpenAPI schemas (analyze/identity.py). */
module Identity {
  import opened Wrappers
  import opened Json
  import opened StableSort
  import opened Names
  import opened Naming
  import opened Ir

  // ---- clusters ----

  /** The enum of one field so far; `Blocked` once some source rules one out. */
  datatype EnumAcc = Blocked | Values(values: seq<string>)

  type Enums = map<string, EnumAcc>

  /** A container property and the raw schema of its elements. */
  datatype Element = Element(container: Container, schema: Object)

  datatype Cluster = Cluster(
    primaryKey: string,
    fields: map<string, string>,
    sources: seq<string>,
    elementSchemas: map<string, Element>,
    fieldSources: map<string, set<string>>,
    enums: Enums,
    elementEnums: map<string, Enums>)

  /** Clusters by noun. */
  type Clusters = map<string, Cluster>

  function NewCluster(key: string): (r: Cluster) {
    Cluster(key, map[], [], map[], map[], map[], map[])
  }

  function JsonType(prop: Object): (r: string) {
    match Obj(prop).Get("type")
    case Some(Str(t)) => t
    case _ => if Obj(prop).GetObj("properties").Some? then "object" else "string"
  }

  function Lookup(props: Object, name: string): (r: Json) {
    if name in props then props[name] else Null
  }

  function AsObject(j: Json): (r: Object) {
    if j.Obj? then j.fields else map[]
  }

  /** The object schema one level inside a container's elements or a plain object. */
  function NestedIn(inner: Object): (r: Option<Object>) {
    var ofExtra := match Obj(inner).GetObj("additionalProperties")
                   case None => None
                   case Some(extra) => if Obj(extra).GetObj("properties").Some? then Some(extra) else FlattenUnion(extra);
    if ofExtra.Some? then ofExtra
    else if Obj(inner).GetObj("properties").Some? then Some(inner)
    else FlattenUnion(inner)
  }

  function NestedObject(prop: Object): (r: Option<Object>) {
    if Obj(prop).GetStr("type") != Some("array") then NestedIn(prop)
    else match Obj(prop).GetObj("items")
      case Some(items) => NestedIn(items)
      case None => None
  }

  function ContainerElement(prop: Object): (r: Option<Element>) {
    var items, extra := Obj(prop).GetObj("items"), Obj(prop).GetObj("additionalProperties");
    match Obj(prop).GetStr("type")
    case Some("array") => if items.Some? && items.value != map[] then Some(Element(ArrayOf, items.value)) else None
    case Some("object") => if extra.Some? && extra.value != map[] then Some(Element(MapOf, extra.value)) else None
    case _ => None
  }

  // ---- enums ----

  function EnumValues(prop: Object): (r: Option<seq<Json>>) {
    match Obj(prop).Get("enum")
    case Some(Arr(values)) => Some(values)
    case _ => None
  }

  predicate Nullable(prop: Object) {
    || Obj(prop).Get("nullable") == Some(Bool(true))
    || Str("null") in ListOrEmpty(Obj(prop).Get("type"))
    || Null in EnumValues(prop).GetOr([])
  }

  predicate AllStrings(values: seq<Json>) {
    forall i | 0 <= i < |values| :: values[i].Str?
  }

  /** This source makes a string enum impossible for the field. */
  predicate BlocksEnum(prop: Json) {
    prop.Obj? && (Nullable(prop.fields) || !AllStrings(EnumValues(prop.fields).GetOr([])))
  }

  /** The values this source declares. */
  function DeclaredValues(prop: Json): (r: seq<string>) {
    if !prop.Obj? then []
    else
      var values := EnumValues(prop.fields).GetOr([]);
      if AllStrings(values) then seq(|values|, i requires 0 <= i < |values| => values[i].text) else []
  }

  function WithoutKnown(values: seq<string>, known: seq<string>): (r: seq<string>) {
    if values == [] then []
    else (if values[0] in known then [] else [values[0]]) + WithoutKnown(values[1..], known)
  }

  function UnionEnum(into: Enums, name: string, prop: Json): (r: Enums) {
    if !prop.Obj? || (name in into && into[name].Blocked?) then into
    else if BlocksEnum(prop) then into[name := Blocked]
    else
      var values := DeclaredValues(prop);
      if values == [] then into
      else
        var existing := if name in into then into[name].values else [];
        into[name := Values(existing + WithoutKnown(values, existing))]
  }

  function UnionEnums(into: Enums, props: Object, names: seq<string>): (r: Enums) {
    if names == [] then into
    else
      var init, last := names[..|names| - 1], names[|names| - 1];
      UnionEnum(UnionEnums(into, props, init), last, Lookup(props, last))
  }

  // ---- absorbing one schema into a cluster ----

  /** One schema to be absorbed: under which noun, with which key, from where. */
  datatype Job = Job(noun: string, key: string, schema: Object, source: string)

  function AbsorbElement(c: Cluster, name: string, prop: Object): (r: Cluster) {
    match ContainerElement(prop)
    case None => c
    case Some(captured) =>
      var c1 := c.(elementSchemas := if name in c.elementSchemas then c.elementSchemas else c.elementSchemas[name := captured]);
      match Obj(captured.schema).GetObj("properties")
      case None => c1
      case Some(props) =>
        var acc := if name in c1.elementEnums then c1.elementEnums[name] else map[];
        c1.(elementEnums := c1.elementEnums[name := UnionEnums(acc, props, SortedNames(props.Keys))])
  }

  function AbsorbProp(c: Cluster, name: string, prop: Json, source: string): (r: Cluster) {
    var c1 := c.(
      fields := if name in c.fields then c.fields else c.fields[name := JsonType(AsObject(prop))],
      fieldSources := c.fieldSources[name := (if name in c.fieldSources then c.fieldSources[name] else {}) + {source}],
      enums := UnionEnum(c.enums, name, prop));
    if prop.Obj? then AbsorbElement(c1, name, prop.fields) else c1
  }

  function AbsorbProps(c: Cluster, props: Object, names: seq<string>, source: string): (r: Cluster) {
    if names == [] then c
    else
      var init, last := names[..|names| - 1], names[|names| - 1];
      AbsorbProp(AbsorbProps(c, props, init, source), last, Lookup(props, last), source)
  }

  /** The properties a schema contributes fields from. */
  function OwnProps(schema: Object): (r: Object) {
    Obj(schema).GetObj("properties").GetOr(map[])
  }

  function AbsorbedCluster(c: Cluster, job: Job): (r: Cluster) {
    var props := OwnProps(job.schema);
    var c1 := AbsorbProps(c, props, SortedNames(props.Keys), job.source);
    c1.(sources := c1.sources + [job.source])
  }

  function Absorb(clusters: Clusters, job: Job): (r: Clusters) {
    var c := if job.noun in clusters then clusters[job.noun] else NewCluster(job.key);
    clusters[job.noun := AbsorbedCluster(c, job)]
  }

  function AbsorbAll(jobs: seq<Job>): (r: Clusters) {
    if jobs == [] then map[] else Absorb(AbsorbAll(jobs[..|jobs| - 1]), jobs[|jobs| - 1])
  }

  // ---- what each schema contributes ----

  /** The key of a top-level schema; none where it is undecidable. A bare `id`
      of a synthetic schema has no usable noun. */
  function SchemaKey(name: string, schema: Json, synthetic: bool): (r: Option<string>) {
    if !schema.Obj? then None
    else
      var key := IdentityKey(name, schema.fields, synthetic, false);
      if synthetic && key == Some("id") then None else key
  }

  function NestedJob(name: string, key: string, propName: string, prop: Json, synthetic: bool): (r: seq<Job>) {
    if !prop.Obj? then []
    else match NestedObject(prop.fields)
      case None => []
      case Some(target) =>
        match IdentityKey(propName, target, synthetic, true)
        case None => []
        case Some(nested) =>
          if nested == key then []
          else [Job(NounFor(nested, propName), nested, target, name + "." + propName)]
  }

  function NestedJobs(name: string, key: string, props: Object, names: seq<string>, synthetic: bool): (r: seq<Job>) {
    if names == [] then []
    else
      var init, last := names[..|names| - 1], names[|names| - 1];
      NestedJobs(name, key, props, init, synthetic) + NestedJob(name, key, last, Lookup(props, last), synthetic)
  }

  function TopJob(name: string, schema: Json, key: string): (r: Job) {
    Job(NounFor(key, name), key, AsObject(schema), name)
  }

  function SchemaJobs(name: string, schema: Json, synthetic: bool): (r: seq<Job>) {
    match SchemaKey(name, schema, synthetic)
    case None => []
    case Some(key) =>
      var props := OwnProps(AsObject(schema));
      [TopJob(name, schema, key)] + NestedJobs(name, key, props, SortedNames(props.Keys), synthetic)
  }

  predicate Decidable(schemas: Object, name: string, synthetic: bool, deferred: set<string>) {
    name in schemas && name !in deferred && SchemaKey(name, schemas[name], synthetic).Some?
  }

  function JobsOf(schemas: Object, names: seq<string>, synthetic: bool, deferred: set<string>): (r: seq<Job>) {
    if names == [] then []
    else
      var last := names[|names| - 1];
      JobsOf(schemas, names[..|names| - 1], synthetic, deferred)
      + (if Decidable(schemas, last, synthetic, deferred) then SchemaJobs(last, schemas[last], synthetic) else [])
  }

  function Jobs(schemas: Object, synthetic: bool, deferred: set<string>): (r: seq<Job>) {
    JobsOf(schemas, SortedNames(schemas.Keys), synthetic, deferred)
  }

  function UndecidableOf(schemas: Object, names: seq<string>, synthetic: bool, deferred: set<string>): (r: seq<string>) {
    if names == [] then []
    else
      var last := names[|names| - 1];
      UndecidableOf(schemas, names[..|names| - 1], synthetic, deferred)
      + (if Decidable(schemas, last, synthetic, deferred) then [] else [last])
  }

  // ---- how the elements of a container are stored ----

  function RequiredStrings(element: Object): (r: set<string>) {
    StringsOf(ListOrEmpty(Obj(element).Get("required")))
  }

  function FieldValues(enums: Enums, name: string): (r: Option<seq<string>>) {
    if name in enums && enums[name].Values? && enums[name].values != [] then Some(enums[name].values) else None
  }

  function FieldsAmong(element: Object, names: seq<string>, enums: Enums): (r: seq<ElementField>) {
    var props := OwnProps(element);
    seq(|names|, i requires 0 <= i < |names| =>
      ElementField(names[i], JsonType(AsObject(Lookup(props, names[i]))),
                   names[i] in RequiredStrings(element), FieldValues(enums, names[i])))
  }

  function ElementFields(element: Object, enums: Enums): (r: seq<ElementField>) {
    FieldsAmong(element, SortedNames(OwnProps(element).Keys), enums)
  }

  /** An element's sole scalar `*_id`, when it names an entity other than the
      one the element is stored in. */
  function ForeignKey(element: Object, clusters: Clusters, parent: Option<string>): (r: Option<(string, string)>) {
    var candidates := KeyCandidates(OwnProps(element));
    if |candidates| != 1 then None
    else
      var noun := NounFor(candidates[0], "");
      if noun !in clusters || parent == Some(noun) then None else Some((candidates[0], noun))
  }

  /** Whether some container of the holder points at the collection. */
  predicate HoldsReferenceTo(holder: Cluster, collection: string, clusters: Clusters) {
    exists prop | prop in holder.elementSchemas :: PointsTo(holder.elementSchemas[prop], collection, clusters)
  }

  predicate PointsTo(e: Element, collection: string, clusters: Clusters) {
    match NestedIn(e.schema)
    case None => false
    case Some(element) =>
      match ForeignKey(element, clusters, None)
      case None => false
      case Some((_, noun)) => Pluralize(noun) == collection
  }

  /** `source.rsplit(".", 1)[0]`. */
  function BeforeLastDot(source: string): (r: string) {
    if '.' !in source then source
    else if source[|source| - 1] == '.' then source[..|source| - 1]
    else BeforeLastDot(source[..|source| - 1])
  }

  predicate CarriedElsewhere(c: Cluster, field: string, own: set<string>) {
    field in c.fieldSources && c.fieldSources[field] - own != {}
  }

  /** The target is nested in the holder, by provenance or by a foreign key. */
  predicate NestedInHolder(clusters: Clusters, holder: Cluster, target: Cluster, collection: string) {
    || (exists s | s in target.sources :: '.' in s && BeforeLastDot(s) in holder.sources)
    || HoldsReferenceTo(holder, collection, clusters)
  }

  predicate IsHop(clusters: Clusters, noun: string, target: string, field: string, own: set<string>)
  {
    && noun in clusters && target in clusters && noun != target
    && CarriedElsewhere(clusters[noun], field, own)
    && NestedInHolder(clusters, clusters[noun], clusters[target], Pluralize(target))
  }

  /** The first entity, in noun order, that holds the target and carries the field. */
  function OneHopOut(clusters: Clusters, nouns: seq<string>, target: string, field: string, own: set<string>): (r: Option<string>)
  {
    if nouns == [] then None
    else if IsHop(clusters, nouns[0], target, field, own) then Some(nouns[0])
    else OneHopOut(clusters, nouns[1..], target, field, own)
  }

  /** What a reference has to keep, and which further collections it needs. */
  datatype Leftovers = Leftovers(fields: seq<ElementField>, hops: seq<string>)

  function Sift(clusters: Clusters, target: string, own: set<string>, fields: seq<ElementField>): (r: Leftovers)
    requires target in clusters
  {
    if fields == [] then Leftovers([], [])
    else
      var before, f := Sift(clusters, target, own, fields[..|fields| - 1]), fields[|fields| - 1];
      if CarriedElsewhere(clusters[target], f.name, own) then before
      else
        match OneHopOut(clusters, SortedNames(clusters.Keys), target, f.name, own)
        case None => before.(fields := before.fields + [f])
        case Some(hop) =>
          if Pluralize(hop) in before.hops then before else before.(hops := before.hops + [Pluralize(hop)])
  }

  function Named(fields: seq<ElementField>, name: string, same: bool): (r: seq<ElementField>) {
    if fields == [] then []
    else (if (fields[0].name == name) == same then [fields[0]] else []) + Named(fields[1..], name, same)
  }

  function LinkFields(fields: seq<ElementField>, leftovers: seq<ElementField>, key: string): (r: seq<ElementField>) {
    if leftovers == [] then [] else Named(fields, key, true) + Named(leftovers, key, false)
  }

  function OwnSources(parent: Cluster, prop: string): (r: set<string>) {
    set s | s in parent.sources :: s + "." + prop
  }

  function EmbeddedShape(container: Container, fields: seq<ElementField>): (r: ElementShape) {
    ElementShape(Embedded, container, None, fields, None, None, None, [], [])
  }

  function ShapeOf(clusters: Clusters, parent: string, prop: string, e: Element, synthetic: bool): (r: Option<ElementShape>)
    requires parent in clusters
  {
    if e.schema == map[] then None
    else match NestedIn(e.schema)
      case None =>
        (match Obj(e.schema).GetStr("type")
         case Some(t) => Some(ElementShape(Scalar, e.container, Some(t), [], None, None, None, [], []))
         case None => None)
      case Some(element) => Some(ObjectShape(clusters, parent, prop, e.container, element, synthetic))
  }

  function ObjectShape(clusters: Clusters, parent: string, prop: string, container: Container, element: Object, synthetic: bool)
    : (r: ElementShape)
    requires parent in clusters
  {
    var holder := clusters[parent];
    var fields := ElementFields(element, if prop in holder.elementEnums then holder.elementEnums[prop] else map[]);
    var embedded := EmbeddedShape(container, fields);
    var nested := IdentityKey(prop, element, synthetic, true);
    if nested.None? || nested.value == holder.primaryKey then
      match ForeignKey(element, clusters, Some(parent))
      case None => embedded
      case Some((local, noun)) =>
        embedded.(localKey := Some(local), targetCollection := Some(Pluralize(noun)),
                  targetKey := Some(clusters[noun].primaryKey))
    else
      var noun := NounFor(nested.value, prop);
      if noun !in clusters then embedded
      else if container.MapOf? then
        embedded.(targetCollection := Some(Pluralize(noun)), targetKey := Some(clusters[noun].primaryKey))
      else
        var sifted := Sift(clusters, noun, OwnSources(holder, prop), fields);
        ElementShape(Reference, container, None, [], Some(Pluralize(noun)), Some(clusters[noun].primaryKey), None,
                     LinkFields(fields, sifted.fields, nested.value), Sort(sifted.hops, NameLe))
  }

  // ---- the result ----

  datatype FieldType = FieldType(name: string, type_: string)
  datatype FieldShape = FieldShape(name: string, shape: ElementShape)

  datatype DerivedEntity = DerivedEntity(
    name: string,
    collection: string,
    primaryKey: string,
    fields: seq<FieldType>,
    sources: seq<string>,
    elements: seq<FieldShape>,
    enums: seq<FieldEnum>)

  datatype IdentityModel = IdentityModel(entities: seq<DerivedEntity>, undecidable: seq<string>)

  datatype Derivation = Derived(model: IdentityModel) | CollidingCollections

  function FieldTypes(fields: map<string, string>, names: seq<string>): (r: seq<FieldType>) {
    if names == [] then []
    else
      var init, last := names[..|names| - 1], names[|names| - 1];
      FieldTypes(fields, init) + (if last in fields then [FieldType(last, fields[last])] else [])
  }

  function ShapeAt(clusters: Clusters, noun: string, prop: string, synthetic: bool): (r: seq<FieldShape>)
    requires noun in clusters
  {
    if prop !in clusters[noun].elementSchemas then []
    else match ShapeOf(clusters, noun, prop, clusters[noun].elementSchemas[prop], synthetic)
      case Some(shape) => [FieldShape(prop, shape)]
      case None => []
  }

  function Shapes(clusters: Clusters, noun: string, names: seq<string>, synthetic: bool): (r: seq<FieldShape>)
    requires noun in clusters
  {
    if names == [] then []
    else Shapes(clusters, noun, names[..|names| - 1], synthetic) + ShapeAt(clusters, noun, names[|names| - 1], synthetic)
  }

  function FieldEnums(enums: Enums, names: seq<string>): (r: seq<FieldEnum>) {
    if names == [] then []
    else
      var init, last := names[..|names| - 1], names[|names| - 1];
      FieldEnums(enums, init) +
      (match FieldValues(enums, last) case Some(values) => [FieldEnum(last, values)] case None => [])
  }

  function EntityFor(clusters: Clusters, noun: string, synthetic: bool): (r: DerivedEntity)
    requires noun in clusters
  {
    var c := clusters[noun];
    DerivedEntity(
      Camel(noun), Pluralize(noun), c.primaryKey,
      FieldTypes(c.fields, SortedNames(c.fields.Keys)),
      c.sources,
      Shapes(clusters, noun, SortedNames(c.elementSchemas.Keys), synthetic),
      FieldEnums(c.enums, SortedNames(c.enums.Keys)))
  }

  function Entities(clusters: Clusters, nouns: seq<string>, synthetic: bool): (r: seq<DerivedEntity>) {
    if nouns == [] then []
    else
      var init, last := nouns[..|nouns| - 1], nouns[|nouns| - 1];
      Entities(clusters, init, synthetic) + (if last in clusters then [EntityFor(clusters, last, synthetic)] else [])
  }

  /** Two nouns claim one collection. */
  predicate Colliding(clusters: Clusters) {
    exists m, n | m in clusters && n in clusters :: m != n && Pluralize(m) == Pluralize(n)
  }

  function ModelOf(clusters: Clusters, undecidable: seq<string>, synthetic: bool): (r: Derivation) {
    if Colliding(clusters) then CollidingCollections
    else Derived(IdentityModel(Entities(clusters, SortedNames(clusters.Keys), synthetic), undecidable))
  }

  function DerivedFrom(schemas: Object, synthetic: bool, deferred: set<string>): (r: Derivation) {
    ModelOf(AbsorbAll(Jobs(schemas, synthetic, deferred)),
            UndecidableOf(schemas, SortedNames(schemas.Keys), synthetic, deferred), synthetic)
  }
}
