/** Nouns, collection names and identity keys (analyze/identity.py). */
module Naming {
  import opened Wrappers
  import opened Json
  import opened StableSort
  import opened Names

  predicate EndsWith(s: string, suffix: string) {
    |suffix| <= |s| && s[|s| - |suffix|..] == suffix
  }

  predicate EndsWithAny(s: string, suffixes: seq<string>) {
    exists suffix | suffix in suffixes :: EndsWith(s, suffix)
  }

  function UpperChar(c: char): (r: char) {
    if 'a' <= c <= 'z' then (c as int - 32) as char else c
  }

  /** An underscore before every capital but a leading one, then lower case. */
  function Snake(name: string): (r: string) {
    if name == [] then []
    else
      var init, last := name[..|name| - 1], name[|name| - 1];
      Snake(init) + (if IsUpper(last) && init != [] then "_" else "") + [LowerChar(last)]
  }

  function Capitalize(part: string): (r: string) {
    if part == [] then [] else [UpperChar(part[0])] + Lower(part[1..])
  }

  function Capitalized(parts: seq<string>): (r: string) {
    if parts == [] then [] else Capitalize(parts[0]) + Capitalized(parts[1..])
  }

  function Camel(noun: string): (r: string) {
    Capitalized(Split(noun, '_'))
  }

  /** Singular despite the trailing "s". */
  const SINGULAR_S_ENDINGS := ["ss", "us", "is"]

  function Pluralize(noun: string): (r: string) {
    if EndsWith(noun, "s") && !EndsWithAny(noun, SINGULAR_S_ENDINGS) then noun
    else if EndsWithAny(noun, ["s", "x", "z", "ch", "sh"]) then noun + "es"
    else if EndsWith(noun, "y") && |noun| >= 2 && noun[|noun| - 2] !in "aeiou" then noun[..|noun| - 1] + "ies"
    else noun + "s"
  }

  /** The first reduction that `Pluralize` takes back to the segment. */
  function SingularSegment(segment: string): (r: string) {
    var n := |segment|;
    if EndsWithAny(segment, SINGULAR_S_ENDINGS) then segment
    else if EndsWith(segment, "ies") && Pluralize(segment[..n - 3] + "y") == segment then segment[..n - 3] + "y"
    else if EndsWith(segment, "es") && n > 2 && Pluralize(segment[..n - 2]) == segment then segment[..n - 2]
    else if EndsWith(segment, "s") && n > 1 && Pluralize(segment[..n - 1]) == segment then segment[..n - 1]
    else segment
  }

  function NonEmpty(parts: seq<string>): (r: seq<string>) {
    if parts == [] then []
    else (if parts[0] != "" then [parts[0]] else []) + NonEmpty(parts[1..])
  }

  function Segments(s: string): (r: seq<string>) {
    NonEmpty(Split(s, '_'))
  }

  function Singularize(noun: string): (r: string) {
    var parts := Segments(noun);
    if parts == [] then noun
    else Join(parts[..|parts| - 1] + [SingularSegment(parts[|parts| - 1])], '_')
  }

  function SingularSegments(parts: seq<string>): (r: seq<string>) {
    seq(|parts|, i requires 0 <= i < |parts| => SingularSegment(parts[i]))
  }

  /** Whether the noun is a prefix of the holder's name, segment by segment. */
  predicate NounIsStem(noun: string, holder: string) {
    var want, have := SingularSegments(Segments(noun)), SingularSegments(Segments(holder));
    want != [] && want <= have
  }

  // ---- schemas ----

  /** A key has to be one value; only declared evidence disqualifies it. */
  predicate ScalarCandidate(prop: Json) {
    !prop.Obj? ||
    (&& !(match prop.Get("type")
          case Some(Str(t)) => t in ["array", "object"]
          case Some(Arr(ts)) => Str("array") in ts || Str("object") in ts
          case _ => false)
     && prop.GetObj("items").None?
     && prop.GetObj("properties").None?)
  }

  function ListOrEmpty(j: Option<Json>): (r: seq<Json>) {
    match j
    case Some(Arr(items)) => items
    case _ => []
  }

  /** One property described twice: differing constants fold into an enum,
      otherwise the first description stands. */
  function MergeProp(existing: Json, prop: Json): (r: Json) {
    if existing == Null then prop
    else if !(existing.Obj? && prop.Obj?) then existing
    else
      var old_, new_ := existing.Get("const").GetOr(Null), prop.Get("const").GetOr(Null);
      if old_ != Null && new_ != Null && old_ != new_ then Obj(map["enum" := Arr([old_, new_])])
      else match existing.Get("enum")
        case Some(Arr(values)) => if new_ != Null && new_ !in values then Obj(map["enum" := Arr(values + [new_])]) else existing
        case _ => existing
  }

  function MergeProps(into: Object, incoming: Object): (r: Object) {
    map name | name in into.Keys + incoming.Keys ::
      if name !in incoming then into[name]
      else if name !in into then incoming[name]
      else MergeProp(into[name], incoming[name])
  }

  datatype Union = Union(properties: Object, required: set<string>)

  function StringsOf(items: seq<Json>): (r: set<string>) {
    set j | j in items && j.Str? :: j.text
  }

  /** Properties unioned, required names intersected; none if some variant is
      not an object schema. */
  function FlattenVariants(variants: seq<Json>): (r: Option<Union>)
    requires variants != []
  {
    var last := variants[|variants| - 1];
    match last.GetObj("properties")
    case None => None
    case Some(properties) =>
      var required := StringsOf(ListOrEmpty(last.Get("required")));
      if |variants| == 1 then Some(Union(MergeProps(map[], properties), required))
      else match FlattenVariants(variants[..|variants| - 1])
        case None => None
        case Some(u) => Some(Union(MergeProps(u.properties, properties), u.required * required))
  }

  function FlattenUnion(schema: Object): (r: Option<Object>) {
    var anyOf := Obj(schema).Get("anyOf").GetOr(Null);
    var variants := if Truthy(anyOf) then anyOf else Obj(schema).Get("oneOf").GetOr(Null);
    if !variants.Arr? || variants.items == [] then None
    else match FlattenVariants(variants.items)
      case None => None
      case Some(u) =>
        var required := SortedNames(u.required);
        Some(map["type" := Str("object"), "properties" := Obj(u.properties),
                 "required" := Arr(seq(|required|, i requires 0 <= i < |required| => Str(required[i])))])
  }

  // ---- identity keys ----

  function KeyCandidates(props: Object): (r: seq<string>) {
    CandidatesAmong(props, SortedNames(props.Keys))
  }

  function CandidatesAmong(props: Object, names: seq<string>): (r: seq<string>) {
    if names == [] then []
    else
      (if names[0] in props && EndsWith(names[0], "_id") && ScalarCandidate(props[names[0]]) then [names[0]] else [])
      + CandidatesAmong(props, names[1..])
  }

  const LongestFirst: Order<string> := (a, b) => |a| >= |b|

  function NounOf(candidate: string): (r: string) {
    if |candidate| >= 3 then candidate[..|candidate| - 3] else ""
  }

  /** The candidate's noun names the schema, whole, as its tail, or in the plural. */
  predicate NounNames(noun: string, own: string) {
    noun != "" && (own == noun || EndsWith(own, noun) || Pluralize(noun) == own)
  }

  function FirstNaming(candidates: seq<string>, own: string): (r: Option<string>) {
    if candidates == [] then None
    else if NounNames(NounOf(candidates[0]), own) then Some(candidates[0])
    else FirstNaming(candidates[1..], own)
  }

  function KeyAmong(name: string, props: Object, synthetic: bool, nested: bool): (r: Option<string>) {
    var candidates := KeyCandidates(props);
    var named := FirstNaming(Sort(candidates, LongestFirst), Snake(name));
    if named.Some? then named
    else if "id" in props && ScalarCandidate(props["id"]) then Some("id")
    else if synthetic && |candidates| == 1 && (!nested || NounIsStem(NounOf(candidates[0]), name)) then Some(candidates[0])
    else None
  }

  function PropertiesOrUnion(schema: Object): (r: Option<Object>) {
    match Obj(schema).GetObj("properties")
    case Some(props) => Some(props)
    case None =>
      match FlattenUnion(schema)
      case Some(flat) => Obj(flat).GetObj("properties")
      case None => None
  }

  /** The property that identifies instances of a schema; none if undecidable. */
  function IdentityKey(name: string, schema: Object, synthetic: bool, nested: bool): (r: Option<string>) {
    match Obj(schema).Get("x-primary-key")
    case Some(Str(key)) =>
      if key != "" then Some(key)
      else (match PropertiesOrUnion(schema)
            case Some(props) => KeyAmong(name, props, synthetic, nested)
            case None => None)
    case _ =>
      (match PropertiesOrUnion(schema)
       case Some(props) => KeyAmong(name, props, synthetic, nested)
       case None => None)
  }

  function NounFor(key: string, schemaName: string): (r: string) {
    if EndsWith(key, "_id") && |key| > 3 then Snake(key[..|key| - 3])
    else if key == "id" then Singularize(Snake(schemaName))
    else Snake(key)
  }
}
