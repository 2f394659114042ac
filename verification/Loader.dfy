/** Reading the primary keys back at run time (state/loader.py, `infer_primary_keys`). */
module Loader {
  import opened Wrappers
  import opened Json

  datatype StoreKey = Key(field: Json) | NoKey(def: string) | Crash

  /** `Crashed` where a malformed document makes a lookup itself fail. */
  datatype Inferred = Keys(at: map<string, Json>) | NoPrimaryKey(store: string, def: string) | Crashed

  const NOTHING := Obj(map[])

  function GetOr(j: Json, key: string, default: Json): (r: Option<Json>) {
    if !j.Obj? then None else if key in j.fields then Some(j.fields[key]) else Some(default)
  }

  /** Python's `name in value`; none where it raises. */
  function Contains(value: Json, name: string): (r: Option<bool>) {
    match value
    case Arr(items) => Some(Str(name) in items)
    case Obj(fields) => Some(name in fields)
    case Str(text) => Some(Substring(text, name))
    case _ => None
  }

  function InferKey(schema: Json, store: string): (r: StoreKey) {
    var defs := GetOr(schema, "$defs", NOTHING);
    var properties := GetOr(schema, "properties", NOTHING);
    if defs.None? || properties.None? then Crash else
    var storeSchema := GetOr(properties.value, store, NOTHING);
    if storeSchema.None? then Crash else
    var items := GetOr(storeSchema.value, "items", NOTHING);
    if items.None? then Crash else
    var ref := GetOr(items.value, "$ref", Str(""));
    if ref.None? || !ref.value.Str? then Crash else
    if !StartsWith(ref.value.text, "#/$defs/") then Key(Str("id")) else
    var parts := Split(ref.value.text, '/');
    var name := parts[|parts| - 1];
    var def := GetOr(defs.value, name, NOTHING);
    if def.None? || !def.value.Obj? then Crash else
    if "x-primary-key" in def.value.fields then Key(def.value.fields["x-primary-key"]) else
    var required := Contains(GetOr(def.value, "required", Arr([])).value, "id");
    if required.None? then Crash else
    if !required.value then NoKey(name) else
    var declared := Contains(GetOr(def.value, "properties", NOTHING).value, "id");
    if declared.None? then Crash else
    if declared.value then Key(Str("id")) else NoKey(name)
  }

  /** The first store without a key is this one. */
  ghost predicate FailsAt(schema: Json, stores: seq<string>, i: int) {
    && 0 <= i < |stores| && !InferKey(schema, stores[i]).Key?
    && forall j | 0 <= j < i :: InferKey(schema, stores[j]).Key?
  }

  method InferPrimaryKeys(schema: Json, stores: seq<string>) returns (r: Inferred)
    ensures r.Keys? <==> schema.Obj? && forall s | s in stores :: InferKey(schema, s).Key?
    ensures r.Keys? ==> r.at == map s | s in stores :: InferKey(schema, s).field
    ensures r.NoPrimaryKey? <==> schema.Obj? && exists i :: FailsAt(schema, stores, i) && InferKey(schema, stores[i]).NoKey?
    ensures r.NoPrimaryKey? ==>
              exists i :: FailsAt(schema, stores, i) && stores[i] == r.store && InferKey(schema, r.store) == NoKey(r.def)
    ensures r.Crashed? <==> !schema.Obj? || exists i :: FailsAt(schema, stores, i) && InferKey(schema, stores[i]).Crash?
  {
    hide InferKey;
    if !schema.Obj? { return Crashed; }
    var keys: map<string, Json> := map[];
    for i := 0 to |stores|
      invariant forall s | s in stores[..i] :: InferKey(schema, s).Key?
      invariant keys == map s | s in stores[..i] :: InferKey(schema, s).field
    {
      assert stores[i] in stores;
      assert forall j | 0 <= j < i :: stores[j] in stores[..i];
      assert !InferKey(schema, stores[i]).Key? ==> FailsAt(schema, stores, i);
      match InferKey(schema, stores[i])
      case Crash => return Crashed;
      case NoKey(def) => return NoPrimaryKey(stores[i], def);
      case Key(field) => keys := keys[stores[i] := field];
    }
    assert stores[..|stores|] == stores;
    return Keys(keys);
  }
}
