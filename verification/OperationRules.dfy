/** What becomes of an operation id, and which operations there are
    (openapi/parser.py). */
module OperationRules {
  import opened Wrappers
  import opened OperationIds

  // ---- invalid characters ----

  /** A tool name has letters, digits, underscores and hyphens. */
  lemma CharMeaning(c: char)
    ensures ToolNameChar(c) <==> c in "abcdefghijklmnopqrstuvwxyz" || c in "ABCDEFGHIJKLMNOPQRSTUVWXYZ" || c in "0123456789" || c in "_-"
    ensures Separator(c) <==> c in "_-"
  {
    Consecutive("abcdefghijklmnopqrstuvwxyz", c);
    Consecutive("ABCDEFGHIJKLMNOPQRSTUVWXYZ", c);
    Consecutive("0123456789", c);
    assert "_-" == ['_', '-'];
  }

  /** Characters with consecutive codes form a range. */
  lemma {:induction false} Consecutive(s: string, c: char)
    requires s != "" && forall i | 0 < i < |s| :: s[i] as int == s[i - 1] as int + 1
    ensures s[0] <= s[|s| - 1] && (c in s <==> s[0] <= c <= s[|s| - 1])
  {
    if |s| == 1 {
      assert s == [s[0]];
    } else {
      var n := |s| - 1;
      Consecutive(s[..n], c);
      assert s == s[..n] + [s[n]] && s[n] as int == s[n - 1] as int + 1;
    }
  }

  ghost predicate NoToolNameChar(s: string) {
    forall i | 0 <= i < |s| :: !ToolNameChar(s[i])
  }

  lemma {:induction false} DropMeaning(run: string, rest: string)
    requires NoToolNameChar(run) && (rest != "" ==> ToolNameChar(rest[0]))
    ensures DropInvalid(run + rest) == rest
  {
    if run == [] {
      assert run + rest == rest;
    } else {
      assert (run + rest)[1..] == run[1..] + rest;
      DropMeaning(run[1..], rest);
    }
  }

  /** Valid characters stay, and each run of others becomes one underscore. */
  lemma ReplaceMeaning(s: string, c: char, run: string)
    ensures ReplaceInvalid("") == ""
    ensures ToolNameChar(c) ==> ReplaceInvalid([c] + s) == [c] + ReplaceInvalid(s)
    ensures run != "" && NoToolNameChar(run) && (s != "" ==> ToolNameChar(s[0])) ==> ReplaceInvalid(run + s) == "_" + ReplaceInvalid(s)
  {
    assert ([c] + s)[1..] == s;
    if run != "" && NoToolNameChar(run) && (s != "" ==> ToolNameChar(s[0])) {
      assert (run + s)[1..] == run[1..] + s;
      DropMeaning(run[1..], s);
    }
  }

  // ---- separators and length ----

  lemma {:induction false} StripLeftMeaning(a: string, s: string)
    requires AllSeparators(a) && (s != "" ==> !Separator(s[0]))
    ensures StripLeft(a + s) == s
  {
    if a == [] {
      assert a + s == s;
    } else {
      assert (a + s)[1..] == a[1..] + s;
      StripLeftMeaning(a[1..], s);
    }
  }

  lemma {:induction false} StripRightMeaning(s: string, b: string)
    requires AllSeparators(b) && (s != "" ==> !Separator(s[|s| - 1]))
    ensures StripRight(s + b) == s
  {
    if b == [] {
      assert s + b == s;
    } else {
      assert (s + b)[..|s + b| - 1] == s + b[..|b| - 1];
      StripRightMeaning(s, b[..|b| - 1]);
    }
  }

  /** Stripping takes the separators off both ends and nothing else. */
  lemma StripMeaning(a: string, s: string, b: string)
    requires AllSeparators(a) && AllSeparators(b) && Trimmed(s)
    ensures Strip(a + s + b) == s
  {
    if s == "" {
      assert a + s + b == (a + b) + "";
      StripLeftMeaning(a + b, "");
    } else {
      assert a + s + b == a + (s + b);
      StripLeftMeaning(a, s + b);
      StripRightMeaning(s, b);
    }
  }

  lemma {:induction false} EndsOff(s: string) returns (a: string, mid: string, b: string)
    ensures s == a + mid + b && AllSeparators(a) && AllSeparators(b) && Trimmed(mid)
    ensures s == "" || !Separator(s[0]) ==> a == ""
    decreases |s|
  {
    a, mid, b := "", s, "";
    if s != "" && Separator(s[0]) {
      a, mid, b := EndsOff(s[1..]);
      a := [s[0]] + a;
    } else if s != "" && Separator(s[|s| - 1]) {
      a, mid, b := EndsOff(s[..|s| - 1]);
      assert s == s[..|s| - 1] + [s[|s| - 1]];
      b := b + [s[|s| - 1]];
    }
  }

  /** The end of a slice: so many characters, or from the back all but so many. */
  lemma PrefixMeaning(s: string, n: nat)
    ensures Prefix(s, n) <= s && |Prefix(s, n)| == if n <= |s| then n else |s|
    ensures n > 0 ==> Prefix(s, 0 - n) <= s && |Prefix(s, 0 - n)| == if n <= |s| then |s| - n else 0
  {
  }

  // ---- the id ----

  /** `clean` is `raw` with each run of invalid characters as one underscore and
      without separators at its ends. */
  ghost predicate Cleaned(raw: string, clean: string) {
    Trimmed(clean) && exists a, b :: AllSeparators(a) && AllSeparators(b) && ReplaceInvalid(raw) == a + clean + b
  }

  /** `id` is the first 64 characters of `clean`, without separators at the end. */
  ghost predicate Capped(clean: string, id: string) {
    if |clean| <= 64 then id == clean
    else Trimmed(id) && exists b :: AllSeparators(b) && clean[..64] == id + b
  }

  lemma CleanedMeaning(raw: string)
    ensures forall clean :: Cleaned(raw, clean) <==> clean == Strip(ReplaceInvalid(raw))
  {
    var s := ReplaceInvalid(raw);
    var a, mid, b := EndsOff(s);
    StripMeaning(a, mid, b);
    hide Strip, ReplaceInvalid, Trimmed, AllSeparators;
    assert Cleaned(raw, mid);
    forall clean | Cleaned(raw, clean) ensures clean == Strip(s) {
      var x, y :| AllSeparators(x) && AllSeparators(y) && s == x + clean + y;
      StripMeaning(x, clean, y);
    }
  }

  /** A cut name loses at most separators at its new end. */
  lemma CutMeaning(clean: string, k: nat)
    requires Trimmed(clean) && k <= |clean|
    ensures var r := Strip(Prefix(clean, k)); Trimmed(r) && exists b :: AllSeparators(b) && clean[..k] == r + b
  {
    var cut := clean[..k];
    var a, mid, b := EndsOff(cut);
    StripMeaning(a, mid, b);
    assert a + mid + b == mid + b;
  }

  lemma CappedMeaning(clean: string)
    requires Trimmed(clean)
    ensures Capped(clean, Strip(Prefix(clean, MAX_TOOL_NAME_LEN)))
  {
    StripFacts(clean);
    if |clean| > 64 { CutMeaning(clean, 64); }
  }

  /** The id an operation asks for: its own one, cleaned and capped; where nothing
      is left of that, the method and the path, cleaned and capped. */
  lemma SanitizeMeaning(raw: Option<string>, method_: string, path: string, given: string, fallback: string)
    requires Cleaned(raw.GetOr(""), given) && Cleaned(method_ + "/" + path, fallback)
    ensures Capped(if given != "" then given else fallback, Sanitize(raw, method_, path))
  {
    CleanedMeaning(raw.GetOr(""));
    CleanedMeaning(method_ + "/" + path);
    hide Strip, ReplaceInvalid, Cleaned, Capped, Prefix;
    assert given == Strip(ReplaceInvalid(raw.GetOr("")));
    assert fallback == Strip(ReplaceInvalid(method_ + "/" + path));
    CappedMeaning(if given != "" then given else fallback) by { StripFacts(ReplaceInvalid(raw.GetOr(""))); StripFacts(ReplaceInvalid(method_ + "/" + path)); }
  }

  /** The number a run of digits stands for. */
  ghost function NumberOf(digits: string): (r: int) {
    if digits == "" then 0 else 10 * NumberOf(digits[..|digits| - 1]) + (digits[|digits| - 1] as int - '0' as int)
  }

  lemma {:induction false} DecimalMeaning(n: nat)
    ensures NumberOf(Decimal(n)) == n && (n > 0 ==> Decimal(n)[0] != '0')
  {
    if n >= 10 {
      DecimalMeaning(n / 10);
      var d := Decimal(n);
      assert d[..|d| - 1] == Decimal(n / 10);
    } else {
      var d := Decimal(n);
      assert d[..|d| - 1] == "";
    }
  }

  /** A further use of an id gets a number, for which it is cut where needed. */
  lemma CandidateMeaning(id: string, n: nat)
    requires Trimmed(id)
    ensures |id| + 1 + |Decimal(n)| <= 64 ==> Candidate(id, n) == id + "_" + Decimal(n)
    ensures 1 + |Decimal(n)| <= 64 < |id| + 1 + |Decimal(n)| ==>
              exists base, b :: Trimmed(base) && AllSeparators(b) && id[..63 - |Decimal(n)|] == base + b && Candidate(id, n) == base + "_" + Decimal(n)
  {
    var k := 63 - |Decimal(n)|;
    hide Strip, Trimmed, AllSeparators, Decimal;
    if |id| <= k {
      StripFacts(id);
      assert id + ("_" + Decimal(n)) == id + "_" + Decimal(n);
    } else if 0 <= k {
      CutMeaning(id, k);
      var base := Strip(Prefix(id, k));
      assert base + ("_" + Decimal(n)) == base + "_" + Decimal(n);
    }
  }

  // ---- the operations of a document ----

  /** The methods that are read, in the order in which they are. */
  ghost function Rank(method_: string): (r: nat) {
    if method_ == "get" then 0 else if method_ == "post" then 1 else if method_ == "put" then 2 else if method_ == "delete" then 3
    else if method_ == "patch" then 4 else if method_ == "options" then 5 else if method_ == "head" then 6 else 7
  }

  /** The path has an object under this method. */
  ghost predicate Declares(path: Path, method_: string, data: OperationData) {
    path.item.Some? && method_ in path.item.value && path.item.value[method_] == Some(data)
  }

  ghost predicate Ranked(sources: seq<Source>) {
    forall i, j | 0 <= i < j < |sources| :: Rank(sources[i].method_) < Rank(sources[j].method_)
  }

  lemma RankedMore(sources: seq<Source>, s: Source)
    requires Ranked(sources) && forall x | x in sources :: Rank(x.method_) < Rank(s.method_)
    ensures Ranked(sources + [s])
  {
    hide Rank;
  }

  lemma {:induction false} PathSourcesMeaning(path: Path, methods: seq<string>)
    requires forall i, j | 0 <= i < j < |methods| :: Rank(methods[i]) < Rank(methods[j])
    ensures forall s :: s in PathSources(path, methods) <==> s.path == path.path && s.method_ in methods && Declares(path, s.method_, s.data)
    ensures Ranked(PathSources(path, methods))
  {
    hide Rank;
    if methods != [] && path.item.Some? {
      var init, last := methods[..|methods| - 1], methods[|methods| - 1];
      assert methods == init + [last];
      PathSourcesMeaning(path, init);
      var r := PathSources(path, init);
      forall x | x in r ensures Rank(x.method_) < Rank(last) {
        var k :| 0 <= k < |init| && init[k] == x.method_;
        assert methods[k] == init[k] && Rank(methods[k]) < Rank(methods[|methods| - 1]);
      }
      if last in path.item.value && path.item.value[last].Some? {
        RankedMore(r, Source(path.path, last, path.item.value[last].value));
      } else {
        assert r + [] == r;
      }
    }
  }

  /** A path has one operation for each known method it declares, in their order. */
  lemma PathOperations(path: Path)
    ensures forall s :: s in PathSources(path, METHODS) <==> s.path == path.path && Rank(s.method_) < 7 && Declares(path, s.method_, s.data)
    ensures Ranked(PathSources(path, METHODS))
  {
    KnownMethods();
    hide Rank;
    PathSourcesMeaning(path, METHODS);
  }

  lemma KnownMethods()
    ensures forall m :: m in METHODS <==> Rank(m) < 7
    ensures forall i, j | 0 <= i < j < |METHODS| :: Rank(METHODS[i]) < Rank(METHODS[j])
  {
    assert METHODS[0] == "get" && METHODS[1] == "post" && METHODS[2] == "put" && METHODS[3] == "delete"
        && METHODS[4] == "patch" && METHODS[5] == "options" && METHODS[6] == "head";
  }

  /** A document has the operations of its paths, path by path. */
  lemma {:induction false} DocumentOperations(paths: seq<Path>, more: seq<Path>)
    ensures Sources(paths + more) == Sources(paths) + Sources(more)
    ensures forall p :: Sources([p]) == PathSources(p, METHODS)
  {
    forall p ensures Sources([p]) == PathSources(p, METHODS) {
      assert [p][..0] == [] && Sources([]) == [];
    }
    if more == [] {
      assert paths + more == paths;
    } else {
      assert (paths + more)[..|paths + more| - 1] == paths + more[..|more| - 1];
      DocumentOperations(paths, more[..|more| - 1]);
    }
  }
}
