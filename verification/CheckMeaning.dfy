/** What each complaint about a schema says of its keywords
    (generation/stages/schema.py, `validate_schema`). */
module CheckMeaning {
  import opened Wrappers
  import opened Json
  import opened Ir
  import opened Contract
  import opened SchemaCheck
  import opened StampMeaning
  import opened ElementMeaning

  /** A collection of both the contract and the schema refers to this definition. */
  ghost predicate Refers(schema: Json, metadata: StoreMetadata, c: string, d: string) {
    && c in metadata.collections && ValueAt(schema, ["properties", c]).Some?
    && ItemsReferTo(schema, c, d)
  }

  ghost predicate DefinedAs(schema: Json, d: string, def: Object) {
    ValueAt(schema, ["$defs", d]) == Some(Obj(def))
  }

  /** The property is declared to be an array or an object, by name or by the
      schema of its parts. */
  ghost predicate NotScalar(prop: Json) {
    || prop.Get("type") == Some(Str("array")) || prop.Get("type") == Some(Str("object"))
    || prop.GetObj("items").Some? || prop.GetObj("properties").Some?
  }

  /** The contract's key for the collection, unless it is empty. */
  ghost predicate KeyOf(metadata: StoreMetadata, c: string, key: string) {
    key != "" && metadata.PkOf(c) == Some(key)
  }

  /** The definition a collection resolves to, and its key. */
  ghost predicate Keyed(schema: Json, metadata: StoreMetadata, c: string, d: string, key: string, def: Object) {
    Refers(schema, metadata, c, d) && KeyOf(metadata, c, key) && DefinedAs(schema, d, def)
  }

  ghost predicate Fault(e: SchemaError, schema: Json, metadata: StoreMetadata) {
    match e
    case Missing(c) => c in metadata.collections && ValueAt(schema, ["properties", c]).None?
    case Undeclared(c) => c !in metadata.collections && ValueAt(schema, ["properties", c]).Some?
    case NoReference(c) =>
      c in metadata.collections && ValueAt(schema, ["properties", c]).Some? && forall d :: !ItemsReferTo(schema, c, d)
    case Undefined(c, d) => Refers(schema, metadata, c, d) && forall def :: !DefinedAs(schema, d, def)
    case KeyNotDeclared(c, d, key) =>
      exists def :: Keyed(schema, metadata, c, d, key, def) && ValueAt(Obj(def), ["properties", key]).None?
    case KeyNotScalar(c, d, key) =>
      exists def, prop :: Keyed(schema, metadata, c, d, key, def) && ValueAt(Obj(def), ["properties", key]) == Some(prop) && NotScalar(prop)
    case KeysDiffer(d) =>
      && (exists def :: DefinedAs(schema, d, def))
      && exists a, b :: Refers(schema, metadata, a, d) && Refers(schema, metadata, b, d) && metadata.PkOf(a) != metadata.PkOf(b)
    case _ => false
  }

  lemma TwoKeys(j: Json, a: string, b: string)
    ensures ValueAt(j, [a, b]) == match j.GetObj(a) case Some(fields) => Obj(fields).Get(b) case None => None
  {
    assert [a, b] == [a] + [b] && [b] == [b] + [];
    PathStep(j, a, [b]);
    if j.Get(a).Some? {
      PathStep(j.Get(a).value, b, []);
      if j.Get(a).value.Get(b).Some? { PathStep(j.Get(a).value.Get(b).value, "", []); }
    }
    hide ValueAt;
  }

  lemma DefinitionMeaning(schema: Json, d: string)
    ensures forall def :: Definition(schema, d) == Some(def) <==> DefinedAs(schema, d, def)
  {
    TwoKeys(schema, "$defs", d);
    hide ValueAt;
  }

  lemma PropertyMeaning(def: Object, key: string)
    ensures KeyProperty(def, key) == ValueAt(Obj(def), ["properties", key])
  {
    TwoKeys(Obj(def), "properties", key);
    hide ValueAt;
  }

  lemma RefersMeaning(schema: Json, metadata: StoreMetadata, c: string, d: string)
    requires schema.GetObj("properties").Some?
    ensures ValueAt(schema, ["properties", c]).Some? <==> c in schema.GetObj("properties").value
    ensures Refers(schema, metadata, c, d) <==> c in Common(schema, metadata) && DefName(schema, c) == Some(d)
    ensures DefName(schema, c).None? <==> forall n :: !ItemsReferTo(schema, c, n)
  {
    TwoKeys(schema, "properties", c);
    DefNameMeaning(schema, c);
    hide ValueAt, DefName, ItemsReferTo;
  }

  /** Each complaint holds exactly if the schema has the fault it names. */
  lemma FaultMeaning(e: SchemaError, schema: Json, metadata: StoreMetadata)
    requires schema.GetObj("properties").Some?
    ensures Holds(e, schema, metadata) <==> Fault(e, schema, metadata)
  {
    match e
    case Missing(c) => RefersMeaning(schema, metadata, c, "");
    case Undeclared(c) => RefersMeaning(schema, metadata, c, "");
    case NoReference(c) =>
      RefersMeaning(schema, metadata, c, "");
      hide DefName, ItemsReferTo, ValueAt;
    case Undefined(c, d) =>
      RefersMeaning(schema, metadata, c, d);
      DefinitionMeaning(schema, d);
      hide DefName, Refers, DefinedAs, Definition, Common;
    case KeyNotDeclared(c, d, key) => KeyFaults(schema, metadata, c, d, key);
    case KeyNotScalar(c, d, key) => KeyFaults(schema, metadata, c, d, key);
    case KeysDiffer(d) => SharedFault(schema, metadata, d);
    case _ =>
  }

  lemma KeyedMeaning(schema: Json, metadata: StoreMetadata, c: string, d: string, key: string)
    requires schema.GetObj("properties").Some?
    ensures forall def :: Keyed(schema, metadata, c, d, key, def) <==>
              Resolves(schema, metadata, c, d) && CheckedKey(metadata, c) == Some(key) && Definition(schema, d) == Some(def)
  {
    RefersMeaning(schema, metadata, c, d);
    DefinitionMeaning(schema, d);
    hide DefName, Refers, DefinedAs, Definition, Common;
  }

  lemma KeyFaults(schema: Json, metadata: StoreMetadata, c: string, d: string, key: string)
    requires schema.GetObj("properties").Some?
    ensures Holds(KeyNotDeclared(c, d, key), schema, metadata) <==> Fault(KeyNotDeclared(c, d, key), schema, metadata)
    ensures Holds(KeyNotScalar(c, d, key), schema, metadata) <==> Fault(KeyNotScalar(c, d, key), schema, metadata)
  {
    KeyedMeaning(schema, metadata, c, d, key);
    ResolvesDefined(schema, metadata, c, d);
    hide Keyed, Definition, ValueAt, CheckedKey, KeyProperty, Resolves;
    if Definition(schema, d).Some? {
      var def := Definition(schema, d).value;
      PropertyMeaning(def, key);
      assert Resolves(schema, metadata, c, d) && CheckedKey(metadata, c) == Some(key) <==> Keyed(schema, metadata, c, d, key, def);
    }
  }

  lemma ResolvesDefined(schema: Json, metadata: StoreMetadata, c: string, d: string)
    ensures Resolves(schema, metadata, c, d) ==> Definition(schema, d).Some?
  {
  }

  lemma SharedFault(schema: Json, metadata: StoreMetadata, d: string)
    requires schema.GetObj("properties").Some?
    ensures Holds(KeysDiffer(d), schema, metadata) <==> Fault(KeysDiffer(d), schema, metadata)
  {
    DefinitionMeaning(schema, d);
    forall c ensures Resolves(schema, metadata, c, d) <==> Refers(schema, metadata, c, d) && Definition(schema, d).Some? {
      RefersMeaning(schema, metadata, c, d);
      hide DefName, Refers, Definition, Common;
    }
    assert forall c | Resolves(schema, metadata, c, d) :: c in Common(schema, metadata);
    hide Resolves, Refers, DefinedAs, Definition, Common;
    if Definition(schema, d).Some? { assert DefinedAs(schema, d, Definition(schema, d).value); }
  }

  /** The definition of a collection with a key to check has properties that are no object. */
  ghost predicate BadProperties(schema: Json, metadata: StoreMetadata, c: string, d: string, def: Object, key: string, j: Json) {
    && ItemsReferTo(schema, c, d) && DefinedAs(schema, d, def) && KeyOf(metadata, c, key)
    && Obj(def).Get("properties") == Some(j) && !j.Obj? && !Empty(j)
  }

  lemma CheckedMeaning(metadata: StoreMetadata, c: string)
    ensures forall key :: CheckedKey(metadata, c) == Some(key) <==> KeyOf(metadata, c, key)
  {
  }

  lemma BadMeaning(def: Object)
    ensures PropertiesOf(def).None? <==> "properties" in def && !def["properties"].Obj? && !Empty(def["properties"])
  {
  }

  /** Checking a collection raises exactly if the properties of its definition
      hold something, but are no object. */
  lemma RaisesMeaning(schema: Json, metadata: StoreMetadata, c: string)
    ensures CheckRaises(schema, metadata, c) <==> exists d, def, key, j :: BadProperties(schema, metadata, c, d, def, key, j)
  {
    DefNameMeaning(schema, c);
    CheckedMeaning(metadata, c);
    var name := DefName(schema, c);
    hide DefName, ItemsReferTo, Definition, DefinedAs, KeyOf, CheckedKey, PropertiesOf, Empty;
    if name.Some? {
      DefinitionMeaning(schema, name.value);
      if Definition(schema, name.value).Some? {
        var def := Definition(schema, name.value).value;
        BadMeaning(def);
        if CheckRaises(schema, metadata, c) {
          assert BadProperties(schema, metadata, c, name.value, def, CheckedKey(metadata, c).value, def["properties"]);
        }
      }
    }
  }
}
