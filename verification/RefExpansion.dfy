/** Expansion of `$ref` pointers over possibly cyclic schemas
    (generation/stages/operations.py: `_resolve_refs`;
    openapi/parser.py: `resolve_ref`). */
module RefExpansion {
  import opened Wrappers
  import opened Json

  // ---- resolving one reference ----

  function Navigate(current: Json, parts: seq<string>): (r: Option<Json>) {
    if parts == [] then Some(current)
    else match current.Get(parts[0])
      case None | Some(Null) => None
      case Some(next) => Navigate(next, parts[1..])
  }

  /** The object a local pointer names, if there is one. */
  function ResolveRef(spec: Json, ref: string): (r: Option<Json>)
    ensures r.Some? ==> r.value.Obj?
  {
    if !StartsWith(ref, "#/") then None
    else match Navigate(spec, Split(ref[2..], '/'))
      case Some(Obj(m)) => Some(Obj(m))
      case _ => None
  }

  /** Every key path of a document. */
  ghost function KeyPaths(j: Json): (r: set<seq<string>>)
  {
    {[]} + match j
           case Obj(m) => set k, p | k in m && p in KeyPaths(m[k]) :: [k] + p
           case _ => {}
  }

  lemma {:induction false} NavigateKeyPath(j: Json, parts: seq<string>)
    requires Navigate(j, parts).Some?
    ensures parts in KeyPaths(j)
    decreases parts
  {
    if parts != [] {
      var next := j.Get(parts[0]).value;
      NavigateKeyPath(next, parts[1..]);
      assert parts == [parts[0]] + parts[1..];
    }
  }

  /** Every pointer that can resolve: there are finitely many, even if schemas
      refer to each other in cycles. */
  ghost function Pointers(spec: Json): (r: set<string>) {
    set p | p in KeyPaths(spec) && p != [] :: "#/" + Join(p, '/')
  }

  lemma ResolvedIsPointer(spec: Json, ref: string)
    requires ResolveRef(spec, ref).Some?
    ensures ref in Pointers(spec)
  {
    var parts := Split(ref[2..], '/');
    NavigateKeyPath(spec, parts);
    JoinSplit(ref[2..], '/');
    assert ref == "#/" + ref[2..];
  }

  lemma {:induction false} NavigateReaches(j: Json, path: seq<string>)
    ensures Navigate(j, path).Some? ==> ValueAt(j, path) == Navigate(j, path)
    ensures ValueAt(j, path).Some? && ValueAt(j, path) != Some(Null) ==> Navigate(j, path) == ValueAt(j, path)
    decreases path
  {
    if path != [] {
      ValueAtFirst(j, path);
      match j.Get(path[0])
      case None =>
      case Some(next) =>
        NavigateReaches(next, path[1..]);
        if next == Null { NothingInNull(path[1..]); }
    }
  }

  lemma {:induction false} NothingInNull(path: seq<string>)
    ensures ValueAt(Null, path) == if path == [] then Some(Null) else None
  {
    if path != [] { NothingInNull(path[..|path| - 1]); }
  }

  /** A local pointer resolves to the object that nested access finds at its
      keys, and to nothing else. */
  lemma ResolvesExactly(spec: Json, path: seq<string>)
    requires path != [] && forall key | key in path :: '/' !in key
    ensures ResolveRef(spec, "#/" + Join(path, '/')) ==
              match ValueAt(spec, path) case Some(Obj(fields)) => Some(Obj(fields)) case _ => None
  {
    var ref := "#/" + Join(path, '/');
    assert StartsWith(ref, "#/") && ref[2..] == Join(path, '/');
    SplitJoin(path, '/');
    NavigateReaches(spec, path);
  }

  /** Only such pointers resolve. */
  lemma OnlyPointersResolve(spec: Json, ref: string)
    requires ResolveRef(spec, ref).Some?
    ensures var path := Split(ref[2..], '/');
            ref == "#/" + Join(path, '/') && (forall key | key in path :: '/' !in key) && ValueAt(spec, path) == ResolveRef(spec, ref)
  {
    JoinSplit(ref[2..], '/');
    SplitParts(ref[2..], '/');
    NavigateReaches(spec, Split(ref[2..], '/'));
    assert ref == "#/" + ref[2..];
  }

  lemma FewerUnseen(spec: Json, seen: set<string>, ref: string)
    requires ResolveRef(spec, ref).Some? && ref !in seen
    ensures |Pointers(spec) - (seen + {ref})| < |Pointers(spec) - seen|
  {
    ResolvedIsPointer(spec, ref);
    assert Pointers(spec) - seen == (Pointers(spec) - (seen + {ref})) + {ref};
  }

  // ---- expansion ----

  /** `None` where the code raises: it hashes and splits the reference as a string. */
  function Expand(spec: Json, schema: Json, seen: set<string>): (r: Option<Json>)
    decreases |Pointers(spec) - seen|, schema, 2
  {
    if !schema.Obj? then Some(schema)
    else match schema.Get("$ref")
      case Some(Str(ref)) =>
        if ref in seen then Some(schema)
        else (match ResolveRef(spec, ref)
              case None => Some(schema)
              case Some(resolved) =>
                FewerUnseen(spec, seen, ref);
                Expand(spec, resolved, seen + {ref}))
      case Some(_) => None
      case None => ExpandBody(spec, schema, seen)
  }

  function ExpandBody(spec: Json, schema: Json, seen: set<string>): (r: Option<Json>)
    requires schema.Obj?
    decreases |Pointers(spec) - seen|, schema, 1
  {
    var fields := schema.fields;
    if exists key | key in fields :: ExpandValue(spec, schema, key, seen).None? then None
    else Some(Obj(map key | key in fields :: ExpandValue(spec, schema, key, seen).value))
  }

  function ExpandValue(spec: Json, schema: Json, key: string, seen: set<string>): (r: Option<Json>)
    requires schema.Obj? && key in schema.fields
    decreases |Pointers(spec) - seen|, schema, 0
  {
    var value := schema.fields[key];
    if key == "properties" && value.Obj? then
      var properties := value.fields;
      if exists name | name in properties :: Expand(spec, properties[name], seen).None? then None
      else Some(Obj(map name | name in properties :: Expand(spec, properties[name], seen).value))
    else if key == "items" then Expand(spec, value, seen)
    else Some(value)
  }

  // ---- what a schema means ----

  /** The reference a schema consists of, if it is one. */
  ghost function RefOf(schema: Json): (r: Option<string>) {
    schema.GetStr("$ref")
  }

  /** One hop along a reference that resolves. Siblings of `$ref` do not count. */
  ghost function Next(spec: Json, schema: Json): (r: Option<Json>) {
    match RefOf(schema)
    case Some(ref) => ResolveRef(spec, ref)
    case None => None
  }

  ghost function Hops(spec: Json, schema: Json, n: nat): (r: Option<Json>)
    decreases n
  {
    if n == 0 then Some(schema)
    else match Next(spec, schema)
      case Some(next) => Hops(spec, next, n - 1)
      case None => None
  }

  /** `n` hops lead to a schema that is not a resolvable reference. */
  ghost predicate SettlesIn(spec: Json, schema: Json, n: nat) {
    Hops(spec, schema, n).Some? && Next(spec, Hops(spec, schema, n).value).None?
  }

  /** The schema a chain of references stands for; none for a chain that only
      leads back into itself. */
  ghost function Deref(spec: Json, schema: Json): (r: Option<Json>) {
    if exists n: nat :: SettlesIn(spec, schema, n)
    then var n: nat :| SettlesIn(spec, schema, n); Hops(spec, schema, n)
    else None
  }

  lemma {:induction false} SettlesOnce(spec: Json, schema: Json, m: nat, n: nat)
    requires SettlesIn(spec, schema, m) && SettlesIn(spec, schema, n)
    ensures m == n
    decreases m
  {
    match Next(spec, schema)
    case Some(next) => SettlesOnce(spec, next, m - 1, n - 1);
    case None =>
  }

  /** Following one reference does not change what a schema stands for. */
  lemma DerefNext(spec: Json, schema: Json)
    requires Next(spec, schema).Some?
    ensures Deref(spec, schema) == Deref(spec, Next(spec, schema).value)
  {
    var next := Next(spec, schema).value;
    if n: nat :| SettlesIn(spec, schema, n) {
      assert SettlesIn(spec, next, n - 1);
      forall m: nat | SettlesIn(spec, schema, m) ensures m == n { SettlesOnce(spec, schema, m, n); }
      forall m: nat | SettlesIn(spec, next, m) ensures m == n - 1 { SettlesOnce(spec, next, m, n - 1); }
    } else if n: nat :| SettlesIn(spec, next, n) {
      assert SettlesIn(spec, schema, n + 1);
    }
  }

  lemma DerefSettled(spec: Json, schema: Json)
    requires Next(spec, schema).None?
    ensures Deref(spec, schema) == Some(schema)
  {
    assert SettlesIn(spec, schema, 0);
    forall m: nat | SettlesIn(spec, schema, m) ensures m == 0 { SettlesOnce(spec, schema, m, 0); }
  }

  datatype Step = Property(name: string) | Items

  /** The subschema one step below a schema that is not a reference. */
  ghost function Child(schema: Json, step: Step): (r: Option<Json>) {
    match step
    case Items => schema.Get("items")
    case Property(name) =>
      match schema.GetObj("properties")
      case Some(properties) => if name in properties then Some(properties[name]) else None
      case None => None
  }

  /** The keywords of one schema: all but the subschemas `Child` reaches. */
  ghost function Keywords(schema: Json): (r: Json) {
    match schema
    case Obj(fields) =>
      Obj(map key | key in fields ::
            if key == "items" then Null
            else if key == "properties" && fields[key].Obj? then
              Obj(map name | name in fields[key].fields :: Null)
            else fields[key])
    case _ => schema
  }

  /** The keywords found along a path of `properties` and `items` steps, with
      references followed at every step. */
  ghost function Read(spec: Json, schema: Json, path: seq<Step>): (r: Option<Json>)
    decreases path
  {
    match Deref(spec, schema)
    case None => None
    case Some(target) =>
      if path == [] then Some(Keywords(target))
      else match Child(target, path[0])
        case Some(child) => Read(spec, child, path[1..])
        case None => None
  }

  // ---- expansion preserves meaning ----

  /** Where expansion stops following references, and what it has seen by then. */
  ghost function Chain(spec: Json, schema: Json, seen: set<string>): (r: (Json, set<string>))
    decreases |Pointers(spec) - seen|
  {
    match RefOf(schema)
    case Some(ref) =>
      if ref in seen || ResolveRef(spec, ref).None? then (schema, seen)
      else
        FewerUnseen(spec, seen, ref);
        Chain(spec, ResolveRef(spec, ref).value, seen + {ref})
    case None => (schema, seen)
  }

  lemma {:induction false} ExpandAlongChain(spec: Json, schema: Json, seen: set<string>)
    ensures var (last, known) := Chain(spec, schema, seen);
            && Expand(spec, schema, seen) == Expand(spec, last, known)
            && Deref(spec, schema) == Deref(spec, last)
            && (RefOf(last).Some? ==> RefOf(last).value in known || ResolveRef(spec, RefOf(last).value).None?)
            && seen <= known
    decreases |Pointers(spec) - seen|
  {
    match RefOf(schema)
    case Some(ref) =>
      if ref !in seen && ResolveRef(spec, ref).Some? {
        FewerUnseen(spec, seen, ref);
        DerefNext(spec, schema);
        ExpandAlongChain(spec, ResolveRef(spec, ref).value, seen + {ref});
      }
    case None =>
  }

  /** A schema that is no reference keeps its keywords ... */
  lemma ExpandKeepsKeywords(spec: Json, schema: Json, seen: set<string>)
    requires schema.Get("$ref").None? && Expand(spec, schema, seen).Some?
    ensures Expand(spec, schema, seen).value.Get("$ref").None?
    ensures Keywords(Expand(spec, schema, seen).value) == Keywords(schema)
  {
    if schema.Obj? {
      var out := Expand(spec, schema, seen).value;
      var a, b := Keywords(out).fields, Keywords(schema).fields;
      assert out.fields.Keys == schema.fields.Keys;
      forall key | key in schema.fields ensures a[key] == b[key] {
        var v := ExpandValue(spec, schema, key, seen);
        assert v.Some? && out.fields[key] == v.value;
        if key == "properties" && schema.fields[key].Obj? {
          assert out.fields[key].fields.Keys == schema.fields[key].fields.Keys;
        }
      }
      assert a == b;
    }
  }

  /** ... and each child is the expansion of the child it had. */
  lemma ExpandChild(spec: Json, schema: Json, seen: set<string>, step: Step)
    requires schema.Get("$ref").None? && Expand(spec, schema, seen).Some?
    ensures var before, after := Child(schema, step), Child(Expand(spec, schema, seen).value, step);
            && (after.Some? <==> before.Some?)
            && (before.Some? ==> Expand(spec, before.value, seen) == after)
  {
    if schema.Obj? {
      var key := if step.Items? then "items" else "properties";
      if key in schema.fields {
        assert ExpandValue(spec, schema, key, seen).Some?;
      }
    }
  }

  /** Expansion changes nothing a reader can see: along every path, with
      references followed, output and input carry the same keywords. */
  lemma {:induction false} ExpandPreservesMeaning(spec: Json, schema: Json, seen: set<string>, path: seq<Step>)
    requires Expand(spec, schema, seen).Some?
    ensures Read(spec, Expand(spec, schema, seen).value, path) == Read(spec, schema, path)
    decreases path
  {
    var (last, known) := Chain(spec, schema, seen);
    ExpandAlongChain(spec, schema, seen);
    var out := Expand(spec, schema, seen).value;
    if RefOf(last).Some? {
      assert out == last;
    } else if last.Get("$ref").None? {
      ExpandKeepsKeywords(spec, last, known);
      DerefSettled(spec, last);
      DerefSettled(spec, out);
      if path != [] {
        ExpandChild(spec, last, known, path[0]);
        if Child(last, path[0]).Some? {
          ExpandPreservesMeaning(spec, Child(last, path[0]).value, known, path[1..]);
        }
      }
    }
  }

  // ---- what is left unexpanded ----

  /** The subschema along a path that passes no reference on the way. */
  ghost function Walk(schema: Json, path: seq<Step>): (r: Option<Json>)
    decreases path
  {
    if path == [] then Some(schema)
    else if RefOf(schema).Some? then None
    else match Child(schema, path[0])
      case Some(child) => Walk(child, path[1..])
      case None => None
  }

  /** The references expanded on the way from the root of the input down `path`. */
  ghost function FollowedTo(spec: Json, schema: Json, seen: set<string>, path: seq<Step>): (r: set<string>)
    decreases path
  {
    var (last, known) := Chain(spec, schema, seen);
    if path == [] then known
    else match Child(last, path[0])
      case Some(child) => FollowedTo(spec, child, known, path[1..])
      case None => known
  }

  /** A reference left at a walked position does not resolve, or was expanded
      on the way to it: only the unrolling of a cycle is cut. */
  lemma {:induction false} LeftoverRefs(spec: Json, schema: Json, seen: set<string>, path: seq<Step>)
    requires Expand(spec, schema, seen).Some?
    requires Walk(Expand(spec, schema, seen).value, path).Some?
    ensures var found := RefOf(Walk(Expand(spec, schema, seen).value, path).value);
            found.Some? ==> ResolveRef(spec, found.value).None? || found.value in FollowedTo(spec, schema, seen, path)
    decreases path
  {
    var (last, known) := Chain(spec, schema, seen);
    ExpandAlongChain(spec, schema, seen);
    var out := Expand(spec, schema, seen).value;
    if path == [] {
      if last.Get("$ref").None? {
        ExpandKeepsKeywords(spec, last, known);
      }
    } else {
      ExpandChild(spec, last, known, path[0]);
      var child := Child(last, path[0]).value;
      LeftoverRefs(spec, child, known, path[1..]);
    }
  }

  // ---- when expansion raises ----

  /** Every `$ref` anywhere in the document is a string. */
  ghost predicate StringRefs(j: Json) {
    match j
    case Obj(fields) =>
      && ("$ref" in fields ==> fields["$ref"].Str?)
      && forall key | key in fields :: StringRefs(fields[key])
    case _ => true
  }

  lemma {:induction false} NavigateStringRefs(j: Json, parts: seq<string>)
    requires StringRefs(j) && Navigate(j, parts).Some?
    ensures StringRefs(Navigate(j, parts).value)
    decreases parts
  {
    if parts != [] {
      NavigateStringRefs(j.Get(parts[0]).value, parts[1..]);
    }
  }

  /** A document whose references are strings always expands. */
  lemma {:induction false} ExpandTotal(spec: Json, schema: Json, seen: set<string>)
    requires StringRefs(spec) && StringRefs(schema)
    ensures Expand(spec, schema, seen).Some?
    decreases |Pointers(spec) - seen|, schema
  {
    match RefOf(schema)
    case Some(ref) =>
      if ref !in seen && ResolveRef(spec, ref).Some? {
        FewerUnseen(spec, seen, ref);
        NavigateStringRefs(spec, Split(ref[2..], '/'));
        ExpandTotal(spec, ResolveRef(spec, ref).value, seen + {ref});
      }
    case None =>
      if schema.Obj? {
        forall key | key in schema.fields ensures ExpandValue(spec, schema, key, seen).Some? {
          ExpandValueTotal(spec, schema, key, seen);
        }
      }
  }

  lemma {:induction false} ExpandValueTotal(spec: Json, schema: Json, key: string, seen: set<string>)
    requires schema.Obj? && key in schema.fields && StringRefs(spec) && StringRefs(schema)
    ensures ExpandValue(spec, schema, key, seen).Some?
    decreases |Pointers(spec) - seen|, schema, 0
  {
    var value := schema.fields[key];
    assert StringRefs(value);
    if key == "properties" && value.Obj? {
      var properties := value.fields;
      forall name | name in properties ensures Expand(spec, properties[name], seen).Some? {
        ExpandTotal(spec, properties[name], seen);
      }
    } else if key == "items" {
      ExpandTotal(spec, value, seen);
    }
  }

  /** A reference to a schema that is no reference expands to that schema's
      keywords. */
  lemma ReferenceExpands(spec: Json, path: seq<string>, target: Json)
    requires path != [] && forall key | key in path :: '/' !in key
    requires ValueAt(spec, path) == Some(target) && target.Obj? && target.Get("$ref").None?
    requires StringRefs(spec)
    ensures var e := Expand(spec, Obj(map["$ref" := Str("#/" + Join(path, '/'))]), {});
            e.Some? && e.value.Get("$ref").None? && Keywords(e.value) == Keywords(target)
  {
    var ref := "#/" + Join(path, '/');
    ResolvesExactly(spec, path);
    NavigateStringRefs(spec, Split(ref[2..], '/'));
    ExpandTotal(spec, target, {ref});
    assert {} + {ref} == {ref};
    assert Expand(spec, Obj(map["$ref" := Str(ref)]), {}) == Expand(spec, target, {ref});
    ExpandKeepsKeywords(spec, target, {ref});
  }
}
