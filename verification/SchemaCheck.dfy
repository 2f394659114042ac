/** Checking a stamped schema against the contract, and reading the contract
    back (generation/stages/schema.py: `validate_schema`;
    state/loader.py: `infer_primary_keys`). */
module SchemaCheck {
  import opened Wrappers
  import opened Json
  import opened Ir
  import opened Contract
  import opened Names

  datatype SchemaError =
    | InvalidSchema
    | NotAnObject
    | NoProperties
    | Missing(collection: string)
    | Undeclared(collection: string)
    | NoReference(collection: string)
    | Undefined(collection: string, def: string)
    | KeyNotDeclared(collection: string, def: string, key: string)
    | KeyNotScalar(collection: string, def: string, key: string)
    | KeysDiffer(def: string)

  /** `Raised` where the check itself fails with an exception. */
  datatype Report = Raised | Report(errors: seq<SchemaError>)

  /** `def.get("properties") or {}`; none if the value supports no lookup. */
  function PropertiesOf(def: Object): (r: Option<Object>) {
    match Obj(def).Get("properties")
    case None => Some(map[])
    case Some(Obj(m)) => Some(m)
    case Some(j) => if Truthy(j) then None else Some(map[])
  }

  function KeyProperty(def: Object, key: string): (r: Option<Json>) {
    match PropertiesOf(def)
    case Some(properties) => Obj(properties).Get(key)
    case None => None
  }

  predicate DeclaredNonScalar(prop: Json) {
    || prop.GetStr("type") in {Some("array"), Some("object")}
    || prop.GetObj("items").Some?
    || prop.GetObj("properties").Some?
  }

  /** The primary key that is checked: an empty one is not. */
  function CheckedKey(metadata: StoreMetadata, collection: string): (r: Option<string>) {
    match metadata.PkOf(collection)
    case Some(key) => if key != "" then Some(key) else None
    case None => None
  }

  predicate CheckRaises(schema: Json, metadata: StoreMetadata, collection: string) {
    match DefOf(schema, collection)
    case Some(def) => CheckedKey(metadata, collection).Some? && PropertiesOf(def).None?
    case None => false
  }

  function Expected(metadata: StoreMetadata): (r: set<string>) {
    set c | c in metadata.collections
  }

  /** The collections the schema and the contract both name. */
  function Common(schema: Json, metadata: StoreMetadata): (r: set<string>) {
    match schema.GetObj("properties")
    case Some(properties) => Expected(metadata) * properties.Keys
    case None => {}
  }

  ghost predicate Resolves(schema: Json, metadata: StoreMetadata, collection: string, def: string) {
    && collection in Common(schema, metadata)
    && DefName(schema, collection) == Some(def)
    && Definition(schema, def).Some?
  }

  /** What each complaint says about a schema whose `properties` is an object. */
  ghost predicate Holds(e: SchemaError, schema: Json, metadata: StoreMetadata)
    requires schema.GetObj("properties").Some?
  {
    var properties := schema.GetObj("properties").value;
    match e
    case Missing(c) => c in Expected(metadata) && c !in properties
    case Undeclared(c) => c in properties && c !in Expected(metadata)
    case NoReference(c) => c in Common(schema, metadata) && DefName(schema, c).None?
    case Undefined(c, d) =>
      c in Common(schema, metadata) && DefName(schema, c) == Some(d) && Definition(schema, d).None?
    case KeyNotDeclared(c, d, key) =>
      && Resolves(schema, metadata, c, d) && CheckedKey(metadata, c) == Some(key)
      && KeyProperty(Definition(schema, d).value, key).None?
    case KeyNotScalar(c, d, key) =>
      && Resolves(schema, metadata, c, d) && CheckedKey(metadata, c) == Some(key)
      && KeyProperty(Definition(schema, d).value, key).Some?
      && DeclaredNonScalar(KeyProperty(Definition(schema, d).value, key).value)
    case KeysDiffer(d) =>
      exists a, b | a in Common(schema, metadata) && b in Common(schema, metadata) ::
        && Resolves(schema, metadata, a, d) && Resolves(schema, metadata, b, d)
        && metadata.PkOf(a) != metadata.PkOf(b)
    case _ => false
  }

  /** Complaints about one collection. */
  function CollectionErrors(schema: Json, metadata: StoreMetadata, c: string): (r: seq<SchemaError>) {
    match DefName(schema, c)
    case None => [NoReference(c)]
    case Some(d) =>
      match Definition(schema, d)
      case None => [Undefined(c, d)]
      case Some(def) =>
        match CheckedKey(metadata, c)
        case None => []
        case Some(key) =>
          match KeyProperty(def, key)
          case None => [KeyNotDeclared(c, d, key)]
          case Some(prop) => if DeclaredNonScalar(prop) then [KeyNotScalar(c, d, key)] else []
  }

  ghost predicate Complains(e: SchemaError, schema: Json, metadata: StoreMetadata, done: set<string>) {
    exists c | c in done :: e in CollectionErrors(schema, metadata, c)
  }

  /** The collections seen so far, grouped by the definition they share. */
  ghost predicate Grouped(groups: map<string, set<string>>, schema: Json, metadata: StoreMetadata, done: set<string>) {
    && (forall d, c :: d in groups && c in groups[d] <==> c in done && Resolves(schema, metadata, c, d))
  }

  lemma NamesOfCommon(schema: Json, metadata: StoreMetadata)
    ensures forall c :: c in SortedNames(Common(schema, metadata)) <==> c in Common(schema, metadata)
  {
    SortedNamesLists(Common(schema, metadata));
  }

  lemma NothingYet(schema: Json, metadata: StoreMetadata)
    ensures forall e :: !Complains(e, schema, metadata, {})
    ensures Grouped(map[], schema, metadata, {})
  {
  }

  /** What one more collection adds to the complaints and the groups. */
  lemma OneMore(groups: map<string, set<string>>, schema: Json, metadata: StoreMetadata, done: set<string>, c: string)
    requires Grouped(groups, schema, metadata, done) && c in Common(schema, metadata)
    ensures forall e :: Complains(e, schema, metadata, done + {c})
              <==> Complains(e, schema, metadata, done) || e in CollectionErrors(schema, metadata, c)
    ensures var d := DefName(schema, c);
            if d.Some? && Definition(schema, d.value).Some? then
              Grouped(groups[d.value := (if d.value in groups then groups[d.value] else {}) + {c}], schema, metadata, done + {c})
            else Grouped(groups, schema, metadata, done + {c})
  {
    forall e | Complains(e, schema, metadata, done) || e in CollectionErrors(schema, metadata, c)
      ensures Complains(e, schema, metadata, done + {c})
    {
      var d :| d in done + {c} && e in CollectionErrors(schema, metadata, d);
    }
    hide CollectionErrors;
  }

  method CheckCollections(schema: Json, metadata: StoreMetadata)
    returns (raised: bool, errors: seq<SchemaError>, groups: map<string, set<string>>)
    ensures raised <==> exists c | c in Common(schema, metadata) :: CheckRaises(schema, metadata, c)
    ensures !raised ==> forall e :: e in errors <==> Complains(e, schema, metadata, Common(schema, metadata))
    ensures !raised ==> Grouped(groups, schema, metadata, Common(schema, metadata))
  {
    NothingYet(schema, metadata);
    hide SortedNames, CollectionErrors, CheckRaises, Complains, Grouped, Common, DefName, Definition;
    raised, errors, groups := false, [], map[];
    var names := SortNames(Common(schema, metadata));
    NamesOfCommon(schema, metadata);
    ghost var done: set<string> := {};
    for i := 0 to |names|
      invariant done == set j | 0 <= j < i :: names[j]
      invariant forall c | c in done :: !CheckRaises(schema, metadata, c)
      invariant forall e :: e in errors <==> Complains(e, schema, metadata, done)
      invariant Grouped(groups, schema, metadata, done)
    {
      var c := names[i];
      assert c in Common(schema, metadata);
      if CheckRaises(schema, metadata, c) {
        raised := true;
        return;
      }
      var found := CollectionErrors(schema, metadata, c);
      OneMore(groups, schema, metadata, done, c);
      errors := errors + found;
      var d := DefName(schema, c);
      if d.Some? && Definition(schema, d.value).Some? {
        groups := groups[d.value := (if d.value in groups then groups[d.value] else {}) + {c}];
      }
      done := done + {c};
    }
    assert done == Common(schema, metadata);
  }

  /** Definitions whose collections disagree about the primary key. */
  method CheckShared(metadata: StoreMetadata, groups: map<string, set<string>>) returns (errors: seq<SchemaError>)
    ensures forall e :: e in errors <==>
              e.KeysDiffer? && e.def in groups
              && exists a, b | a in groups[e.def] && b in groups[e.def] :: metadata.PkOf(a) != metadata.PkOf(b)
  {
    errors := [];
    var rest := groups.Keys;
    while rest != {}
      invariant rest <= groups.Keys
      invariant forall e :: e in errors <==>
                  e.KeysDiffer? && e.def in groups && e.def !in rest
                  && exists a, b | a in groups[e.def] && b in groups[e.def] :: metadata.PkOf(a) != metadata.PkOf(b)
    {
      var d :| d in rest;
      var keys := set c | c in groups[d] :: metadata.PkOf(c);
      MoreThanOne(metadata, groups[d]);
      if |keys| > 1 {
        errors := errors + [KeysDiffer(d)];
      }
      rest := rest - {d};
    }
  }

  lemma TwoElements<T>(s: set<T>)
    ensures |s| > 1 <==> exists x, y | x in s && y in s :: x != y
  {
    if x, y :| x in s && y in s && x != y {
      assert s == {x, y} + (s - {x, y});
      assert |{x, y}| == 2;
    } else if s != {} {
      var x :| x in s;
      assert s == {x};
    }
  }

  lemma MoreThanOne(metadata: StoreMetadata, group: set<string>)
    ensures |set c | c in group :: metadata.PkOf(c)| > 1
       <==> exists a, b | a in group && b in group :: metadata.PkOf(a) != metadata.PkOf(b)
  {
    var keys := set c | c in group :: metadata.PkOf(c);
    TwoElements(keys);
    if a, b :| a in group && b in group && metadata.PkOf(a) != metadata.PkOf(b) {
      assert metadata.PkOf(a) in keys && metadata.PkOf(b) in keys;
    }
  }

  /** Collections that only the contract or only the schema names. */
  method CheckNames(schema: Json, metadata: StoreMetadata) returns (errors: seq<SchemaError>)
    requires schema.GetObj("properties").Some?
    ensures forall e :: e in errors <==> (e.Missing? || e.Undeclared?) && Holds(e, schema, metadata)
  {
    var expected, present := Expected(metadata), schema.GetObj("properties").value.Keys;
    var missing := SortNames(expected - present);
    var extra := SortNames(present - expected);
    SortedNamesLists(expected - present);
    SortedNamesLists(present - expected);
    errors := [];
    for i := 0 to |missing|
      invariant forall e :: e in errors <==> e.Missing? && e.collection in missing[..i]
    {
      errors := errors + [Missing(missing[i])];
    }
    for i := 0 to |extra|
      invariant forall e :: e in errors <==> (e.Missing? && e.collection in missing) || (e.Undeclared? && e.collection in extra[..i])
    {
      errors := errors + [Undeclared(extra[i])];
    }
    assert missing[..|missing|] == missing && extra[..|extra|] == extra;
    forall e ensures e in errors <==> (e.Missing? || e.Undeclared?) && Holds(e, schema, metadata) {
      if e.Missing? { assert e.collection in missing <==> e.collection in expected - present; }
      if e.Undeclared? { assert e.collection in extra <==> e.collection in present - expected; }
    }
  }

  /** `isSchema` is the verdict of the meta-schema check, which is not part of
      this model. Every complaint reported is true, and every true one is reported. */
  method ValidateSchema(schema: Json, ir: Model, isSchema: bool) returns (report: Report)
    ensures !isSchema ==> report == Report([InvalidSchema])
    ensures isSchema && !schema.Obj? ==> report == Report([NotAnObject])
    ensures isSchema && schema.Obj? && schema.GetObj("properties").None? ==> report == Report([NoProperties])
    ensures isSchema && schema.GetObj("properties").Some? ==>
              (report.Raised? <==> exists c | c in Common(schema, ir.metadata) :: CheckRaises(schema, ir.metadata, c))
    ensures isSchema && schema.GetObj("properties").Some? && report.Report? ==>
              forall e :: e in report.errors <==> Holds(e, schema, ir.metadata)
  {
    if !isSchema { return Report([InvalidSchema]); }
    if !schema.Obj? { return Report([NotAnObject]); }
    if schema.GetObj("properties").None? { return Report([NoProperties]); }
    var metadata := ir.metadata;
    var errors := CheckNames(schema, metadata);
    var raised, perCollection, groups := CheckCollections(schema, metadata);
    if raised { return Raised; }
    var shared := CheckShared(metadata, groups);
    forall e ensures e in errors + perCollection + shared <==> Holds(e, schema, metadata) {
      ComplaintsHold(schema, metadata, e);
      assert e in perCollection <==> Complains(e, schema, metadata, Common(schema, metadata));
    }
    return Report(errors + perCollection + shared);
  }

  lemma ComplaintsHold(schema: Json, metadata: StoreMetadata, e: SchemaError)
    requires schema.GetObj("properties").Some?
    requires forall c | c in Common(schema, metadata) :: !CheckRaises(schema, metadata, c)
    ensures Complains(e, schema, metadata, Common(schema, metadata))
       <==> (e.NoReference? || e.Undefined? || e.KeyNotDeclared? || e.KeyNotScalar?) && Holds(e, schema, metadata)
  {
    if (e.NoReference? || e.Undefined? || e.KeyNotDeclared? || e.KeyNotScalar?) && Holds(e, schema, metadata) {
      assert e in CollectionErrors(schema, metadata, e.collection);
    }
  }
}
