/** JSON values. Objects are finite maps: the code compares and rebuilds them
    by key, and sorts the keys wherever an order could leak into a result. */
module Json {
  import opened Wrappers

  datatype Json =
    | Null
    | Bool(truth: bool)
    | Num(value: real, integral: bool)
    | Str(text: string)
    | Arr(items: seq<Json>)
    | Obj(fields: map<string, Json>)
  {
    /** The value under `key`, when this is an object that has it. */
    function Get(key: string): (r: Option<Json>) {
      if Obj? && key in fields then Some(fields[key]) else None
    }

    /** The object under `key`, when there is one. */
    function GetObj(key: string): (r: Option<map<string, Json>>) {
      match Get(key)
      case Some(Obj(m)) => Some(m)
      case _ => None
    }

    /** The string under `key`, when there is one. */
    function GetStr(key: string): (r: Option<string>) {
      match Get(key)
      case Some(Str(s)) => Some(s)
      case _ => None
    }
  }

  type Object = map<string, Json>

  predicate IsUpper(c: char) {
    'A' <= c <= 'Z'
  }

  /** Python's white space, in ASCII. */
  predicate Space(c: char) {
    c == ' ' || '\t' <= c <= '\r' || 28 as char <= c <= 31 as char
  }

  function LowerChar(c: char): (r: char) {
    if IsUpper(c) then (c as int + 32) as char else c
  }

  /** Python's `lower`, on ASCII. */
  function Lower(s: string): (r: string) {
    seq(|s|, i requires 0 <= i < |s| => LowerChar(s[i]))
  }

  /** Python's truth value. */
  predicate Truthy(j: Json) {
    match j
    case Null => false
    case Bool(b) => b
    case Num(v, _) => v != 0.0
    case Str(s) => s != []
    case Arr(items) => items != []
    case Obj(fields) => fields != map[]
  }

  predicate StartsWith(s: string, prefix: string) {
    prefix <= s
  }

  predicate SubstringAt(s: string, sub: string, i: nat) {
    i + |sub| <= |s| && s[i..i + |sub|] == sub
  }

  predicate Substring(s: string, sub: string) {
    exists i | 0 <= i <= |s| :: SubstringAt(s, sub, i)
  }

  /** Python's `s.split(sep)` for one separator character: always at least one part. */
  function Split(s: string, sep: char): (parts: seq<string>)
    ensures parts != []
  {
    if s == [] then [""]
    else
      var rest := Split(s[1..], sep);
      if s[0] == sep then [""] + rest else [[s[0]] + rest[0]] + rest[1..]
  }

  function Join(parts: seq<string>, sep: char): (s: string)
    requires parts != []
  {
    if |parts| == 1 then parts[0] else parts[0] + [sep] + Join(parts[1..], sep)
  }

  lemma {:induction false} JoinSplit(s: string, sep: char)
    ensures Join(Split(s, sep), sep) == s
  {
    if s != [] {
      JoinSplit(s[1..], sep);
      var rest := Split(s[1..], sep);
      if s[0] == sep {
        assert ([""] + rest)[1..] == rest;
      } else {
        assert ([[s[0]] + rest[0]] + rest[1..])[1..] == rest[1..];
      }
    }
  }

  /** No part holds the separator. With `JoinSplit` this determines the parts. */
  lemma {:induction false} SplitParts(s: string, sep: char)
    ensures forall p | p in Split(s, sep) :: sep !in p
  {
    if s != [] {
      SplitParts(s[1..], sep);
      var rest := Split(s[1..], sep);
      assert rest[0] in rest;
      assert forall p | p in rest[1..] :: p in rest;
    }
  }

  lemma {:induction false} SplitPlain(s: string, sep: char)
    requires sep !in s
    ensures Split(s, sep) == [s]
  {
    if s != [] {
      SplitPlain(s[1..], sep);
      assert [s[0]] + s[1..] == s;
    }
  }

  lemma SplitStep(c: char, t: string, sep: char)
    ensures Split([c] + t, sep) == if c == sep then [""] + Split(t, sep) else [[c] + Split(t, sep)[0]] + Split(t, sep)[1..]
    ensures Split([], sep) == [""]
  {
    assert ([c] + t)[1..] == t;
  }

  lemma {:induction false} SplitAround(a: string, b: string, sep: char)
    ensures Split(a + [sep] + b, sep) == Split(a, sep) + Split(b, sep)
    decreases |a|
  {
    hide Split;
    if a == [] {
      SplitStep(sep, b, sep);
      assert a + [sep] + b == [sep] + b;
    } else {
      var t := a[1..];
      SplitAround(t, b, sep);
      SplitStep(a[0], t, sep);
      SplitStep(a[0], t + [sep] + b, sep);
      assert a == [a[0]] + t;
      assert a + [sep] + b == [a[0]] + (t + [sep] + b);
      if a[0] != sep {
        assert (Split(t, sep) + Split(b, sep))[1..] == Split(t, sep)[1..] + Split(b, sep);
      } else {
        assert [""] + (Split(t, sep) + Split(b, sep)) == [""] + Split(t, sep) + Split(b, sep);
      }
    }
  }

  /** Parts without the separator are split as they were joined. */
  lemma {:induction false} SplitJoin(parts: seq<string>, sep: char)
    requires parts != [] && forall p | p in parts :: sep !in p
    ensures Split(Join(parts, sep), sep) == parts
  {
    assert parts[0] in parts;
    if |parts| == 1 {
      SplitPlain(parts[0], sep);
      assert parts == [parts[0]];
    } else {
      assert forall p | p in parts[1..] :: p in parts;
      SplitJoin(parts[1..], sep);
      SplitPlain(parts[0], sep);
      SplitAround(parts[0], Join(parts[1..], sep), sep);
      assert parts == [parts[0]] + parts[1..];
    }
  }

  /** Plain nested access, one key after the other. */
  ghost function ValueAt(j: Json, path: seq<string>): (r: Option<Json>) {
    if path == [] then Some(j)
    else match ValueAt(j, path[..|path| - 1])
      case Some(Obj(fields)) => if path[|path| - 1] in fields then Some(fields[path[|path| - 1]]) else None
      case _ => None
  }

  lemma {:induction false} ValueAtFirst(j: Json, path: seq<string>)
    requires path != []
    ensures ValueAt(j, path) == match j.Get(path[0]) case Some(next) => ValueAt(next, path[1..]) case None => None
  {
    var n := |path| - 1;
    if n == 0 {
      assert path[..0] == [] && path[1..] == [];
    } else {
      ValueAtFirst(j, path[..n]);
      assert path[..n][1..] == path[1..][..n - 1];
    }
  }
}
