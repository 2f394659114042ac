/** Operation identifiers that are valid tool names and pairwise distinct
    (openapi/parser.py: `sanitize_operation_id`, `_disambiguate_id`,
    `_parse_operations`, `get_operation_by_id`). */
module OperationIds {
  import opened Wrappers

  const MAX_TOOL_NAME_LEN := 64

  predicate ToolNameChar(c: char) {
    'a' <= c <= 'z' || 'A' <= c <= 'Z' || '0' <= c <= '9' || c == '_' || c == '-'
  }

  predicate Separator(c: char) {
    c == '_' || c == '-'
  }

  ghost predicate ToolNameChars(s: string) {
    forall i | 0 <= i < |s| :: ToolNameChar(s[i])
  }

  ghost predicate ToolName(s: string) {
    1 <= |s| <= MAX_TOOL_NAME_LEN && ToolNameChars(s)
  }

  /** Neither end is a separator. */
  ghost predicate Trimmed(s: string) {
    s != [] ==> !Separator(s[0]) && !Separator(s[|s| - 1])
  }

  function DropInvalid(s: string): (r: string)
    ensures |r| <= |s|
    ensures r != [] ==> ToolNameChar(r[0])
  {
    if s == [] || ToolNameChar(s[0]) then s else DropInvalid(s[1..])
  }

  /** Each maximal run of invalid characters becomes one underscore. */
  function ReplaceInvalid(s: string): (r: string)
    ensures ToolNameChars(r)
    decreases |s|
  {
    if s == [] then []
    else if ToolNameChar(s[0]) then [s[0]] + ReplaceInvalid(s[1..])
    else "_" + ReplaceInvalid(DropInvalid(s[1..]))
  }

  function StripLeft(s: string): (r: string) {
    if s != [] && Separator(s[0]) then StripLeft(s[1..]) else s
  }

  function StripRight(s: string): (r: string) {
    if s != [] && Separator(s[|s| - 1]) then StripRight(s[..|s| - 1]) else s
  }

  /** Python's `s.strip("_-")`. */
  function Strip(s: string): (r: string) {
    StripRight(StripLeft(s))
  }

  lemma {:induction false} StripLeftFacts(s: string)
    ensures var r := StripLeft(s);
            && |r| <= |s|
            && (r != [] ==> !Separator(r[0]) && r[|r| - 1] == s[|s| - 1])
            && (ToolNameChars(s) ==> ToolNameChars(r))
            && (r == [] ==> AllSeparators(s))
  {
    if s != [] && Separator(s[0]) {
      StripLeftFacts(s[1..]);
    }
  }

  lemma {:induction false} StripRightFacts(s: string)
    ensures var r := StripRight(s);
            && |r| <= |s|
            && (r != [] ==> !Separator(r[|r| - 1]) && r[0] == s[0])
            && (ToolNameChars(s) ==> ToolNameChars(r))
            && (r == [] ==> AllSeparators(s))
  {
    if s != [] && Separator(s[|s| - 1]) {
      StripRightFacts(s[..|s| - 1]);
    }
  }

  ghost predicate AllSeparators(s: string) {
    forall i | 0 <= i < |s| :: Separator(s[i])
  }

  lemma StripFacts(s: string)
    ensures var r := Strip(s);
            && Trimmed(r) && |r| <= |s|
            && (ToolNameChars(s) ==> ToolNameChars(r))
            && (r == [] ==> AllSeparators(s))
            && (Trimmed(s) ==> r == s)
  {
    StripLeftFacts(s);
    StripRightFacts(StripLeft(s));
  }

  /** Python's `s[:end]`, which counts a negative end from the back. */
  function Prefix(s: string, end: int): (r: string) {
    if end >= |s| then s
    else if end >= 0 then s[..end]
    else if |s| + end >= 0 then s[..|s| + end]
    else []
  }

  function Sanitize(raw: Option<string>, method_: string, path: string): (r: string) {
    var given := Strip(ReplaceInvalid(raw.GetOr("")));
    var candidate := if given == [] then Strip(ReplaceInvalid(method_ + "/" + path)) else given;
    Strip(Prefix(candidate, MAX_TOOL_NAME_LEN))
  }

  const METHODS := ["get", "post", "put", "delete", "patch", "options", "head"]

  /** Whatever the specification supplies, the result is a valid tool name. */
  lemma SanitizeValid(raw: Option<string>, method_: string, path: string)
    requires method_ in METHODS
    ensures ToolName(Sanitize(raw, method_, path)) && Trimmed(Sanitize(raw, method_, path))
  {
    var given := ReplaceInvalid(raw.GetOr(""));
    var fallback := ReplaceInvalid(method_ + "/" + path);
    assert !Separator(fallback[0]);
    StripFacts(given);
    StripFacts(fallback);
    var candidate := if Strip(given) == [] then Strip(fallback) else Strip(given);
    var cut := Prefix(candidate, MAX_TOOL_NAME_LEN);
    assert cut[0] == candidate[0];
    StripFacts(cut);
  }

  lemma {:induction false} ReplaceFixpoint(s: string)
    requires ToolNameChars(s)
    ensures ReplaceInvalid(s) == s
  {
    if s != [] {
      ReplaceFixpoint(s[1..]);
    }
  }

  /** An identifier passes through unchanged exactly when it is a valid tool
      name that neither starts nor ends with a separator. */
  lemma SanitizeFixpoint(raw: string, method_: string, path: string)
    requires method_ in METHODS
    ensures Sanitize(Some(raw), method_, path) == raw <==> ToolName(raw) && Trimmed(raw)
  {
    SanitizeValid(Some(raw), method_, path);
    if ToolName(raw) && Trimmed(raw) {
      ReplaceFixpoint(raw);
      StripFacts(raw);
    }
  }

  /** The documented "already-valid ids are returned unchanged" fails for
      every valid id with a separator at an end, such as this one. */
  lemma ValidIdChanged(method_: string, path: string)
    requires method_ in METHODS
    ensures ToolName("_a") && Sanitize(Some("_a"), method_, path) != "_a"
  {
    SanitizeFixpoint("_a", method_, path);
  }

  // ---- disambiguation ----

  function Decimal(n: nat): (r: string)
    ensures |r| >= 1
    ensures forall i | 0 <= i < |r| :: '0' <= r[i] <= '9'
  {
    if n < 10 then [('0' as int + n) as char] else Decimal(n / 10) + [('0' as int + n % 10) as char]
  }

  lemma {:induction false} DecimalInjective(m: nat, n: nat)
    requires Decimal(m) == Decimal(n)
    ensures m == n
    decreases m
  {
    var a, b := Decimal(m), Decimal(n);
    assert a[|a| - 1] == b[|b| - 1];
    assert m >= 10 ==> |a| == |Decimal(m / 10)| + 1;
    assert n >= 10 ==> |b| == |Decimal(n / 10)| + 1;
    if m >= 10 && n >= 10 {
      assert Decimal(m / 10) == a[..|a| - 1] == b[..|b| - 1] == Decimal(n / 10);
      DecimalInjective(m / 10, n / 10);
    }
  }

  function Suffix(n: nat): (r: string) {
    "_" + Decimal(n)
  }

  function Candidate(id: string, n: nat): (r: string) {
    Strip(Prefix(id, MAX_TOOL_NAME_LEN - |Suffix(n)|)) + Suffix(n)
  }

  /** The number can be read back: it follows the last underscore. */
  lemma CandidateInjective(id: string, m: nat, n: nat)
    requires Candidate(id, m) == Candidate(id, n)
    ensures m == n
  {
    var a := Strip(Prefix(id, MAX_TOOL_NAME_LEN - |Suffix(m)|));
    var b := Strip(Prefix(id, MAX_TOOL_NAME_LEN - |Suffix(n)|));
    ReadBack(a, Decimal(m));
    ReadBack(b, Decimal(n));
    DecimalInjective(m, n);
  }

  /** What follows the last underscore. */
  ghost function AfterUnderscore(c: string): string {
    if c == [] || c[|c| - 1] == '_' then [] else AfterUnderscore(c[..|c| - 1]) + [c[|c| - 1]]
  }

  lemma {:induction false} ReadBack(a: string, d: string)
    requires '_' !in d
    ensures AfterUnderscore(a + ("_" + d)) == d
  {
    var c := a + ("_" + d);
    if d != [] {
      assert c[..|c| - 1] == a + ("_" + d[..|d| - 1]);
      ReadBack(a, d[..|d| - 1]);
    }
  }

  /** The id the loop settles on: the given one if free, else the first free candidate. */
  ghost predicate Disambiguated(id: string, used: set<string>, result: string) {
    if id !in used then result == id
    else exists n | 2 <= n <= |used| + 2 :: FirstFree(id, used, n) && result == Candidate(id, n)
  }

  ghost predicate FirstFree(id: string, used: set<string>, n: nat) {
    Candidate(id, n) !in used && forall m | 2 <= m < n :: Candidate(id, m) in used
  }

  ghost function Tried(id: string, n: nat): (r: set<string>) {
    set m | 2 <= m < n :: Candidate(id, m)
  }

  lemma {:induction false} TriedSize(id: string, n: nat)
    requires n >= 2
    ensures |Tried(id, n)| == n - 2
  {
    if n > 2 {
      TriedSize(id, n - 1);
      var last := Candidate(id, n - 1);
      if last in Tried(id, n - 1) {
        var m :| 2 <= m < n - 1 && Candidate(id, m) == last;
        CandidateInjective(id, m, n - 1);
      }
      assert Tried(id, n) == Tried(id, n - 1) + {last};
    } else {
      assert Tried(id, n) == {};
    }
  }

  /** Tries at most `|used| + 1` candidates. */
  method Disambiguate(id: string, used: set<string>) returns (result: string)
    ensures Disambiguated(id, used, result)
    ensures result !in used
  {
    if id !in used {
      return id;
    }
    var n := 2;
    while true
      invariant 2 <= n <= |used| + 2
      invariant forall m | 2 <= m < n :: Candidate(id, m) in used
      decreases |used| + 2 - n
    {
      var suffix := Suffix(n);
      var base := Strip(Prefix(id, MAX_TOOL_NAME_LEN - |suffix|));
      var candidate := base + suffix;
      if candidate !in used {
        assert FirstFree(id, used, n);
        return candidate;
      }
      assert Tried(id, n + 1) <= used;
      TriedSize(id, n + 1);
      SubsetSize(Tried(id, n + 1), used);
      n := n + 1;
    }
  }

  /** A candidate stays a tool name exactly while its suffix fits the length cap. */
  lemma CandidateValid(id: string, n: nat)
    requires ToolName(id) && Trimmed(id)
    ensures ToolName(Candidate(id, n)) <==> |Suffix(n)| <= MAX_TOOL_NAME_LEN
  {
    var cut := Prefix(id, MAX_TOOL_NAME_LEN - |Suffix(n)|);
    assert ToolNameChars(cut);
    StripFacts(cut);
    assert ToolNameChars(Suffix(n));
    assert ToolNameChars(Candidate(id, n));
  }

  function Pow10(e: nat): (r: nat)
    ensures r >= 1
  {
    if e == 0 then 1 else 10 * Pow10(e - 1)
  }

  lemma {:induction false} DecimalLength(n: nat, e: nat)
    requires e >= 1 && n < Pow10(e)
    ensures |Decimal(n)| <= e
    decreases e
  {
    if n >= 10 {
      assert e >= 2;
      DecimalLength(n / 10, e - 1);
    }
  }

  // ---- parsing ----

  /** One entry of a path item: `None` where the value is not an object. */
  datatype OperationData = OperationData(operationId: Option<string>, details: string)

  datatype Path = Path(path: string, item: Option<map<string, Option<OperationData>>>)

  datatype Operation = Operation(path: string, method_: string, operationId: string, details: string)

  datatype Source = Source(path: string, method_: string, data: OperationData) {
    function RequestedId(): string {
      Sanitize(data.operationId, method_, path)
    }
  }

  /** The operations of one path, in the fixed order of the methods. */
  function PathSources(path: Path, methods: seq<string>): (r: seq<Source>) {
    if methods == [] || path.item.None? then []
    else
      var init, last := methods[..|methods| - 1], methods[|methods| - 1];
      var item := path.item.value;
      PathSources(path, init) +
      (if last in item && item[last].Some? then [Source(path.path, last, item[last].value)] else [])
  }

  function Sources(paths: seq<Path>): (r: seq<Source>) {
    if paths == [] then []
    else Sources(paths[..|paths| - 1]) + PathSources(paths[|paths| - 1], METHODS)
  }

  function Requested(sources: seq<Source>): (r: seq<string>) {
    seq(|sources|, i requires 0 <= i < |sources| => sources[i].RequestedId())
  }

  function Ids(operations: seq<Operation>): (r: seq<string>) {
    seq(|operations|, i requires 0 <= i < |operations| => operations[i].operationId)
  }

  ghost function Elements(ids: seq<string>): (r: set<string>) {
    set id | id in ids
  }

  /** Each id is the requested one, disambiguated against the ids before it. */
  ghost predicate Assigned(requested: seq<string>, ids: seq<string>) {
    && |ids| == |requested|
    && (ids != [] ==>
          var n := |ids| - 1;
          && Assigned(requested[..n], ids[..n])
          && Disambiguated(requested[n], Elements(ids[..n]), ids[n])
          && ids[n] !in ids[..n])
  }

  /** The operations are the sources in order, each under its assigned id. */
  ghost predicate ParsedFrom(operations: seq<Operation>, sources: seq<Source>) {
    SameEndpoints(operations, sources) && Assigned(Requested(sources), Ids(operations))
  }

  ghost predicate SameEndpoints(operations: seq<Operation>, sources: seq<Source>) {
    && |operations| == |sources|
    && forall i | 0 <= i < |operations| ::
         && operations[i].path == sources[i].path
         && operations[i].method_ == sources[i].method_
         && operations[i].details == sources[i].data.details
  }

  lemma AssignedAppend(requested: seq<string>, ids: seq<string>, request: string, id: string)
    requires Assigned(requested, ids)
    requires Disambiguated(request, Elements(ids), id) && id !in ids
    ensures Assigned(requested + [request], ids + [id])
  {
    var n := |ids|;
    assert (ids + [id])[..n] == ids;
    assert (requested + [request])[..n] == requested;
  }

  lemma ParsedAppend(operations: seq<Operation>, sources: seq<Source>, source: Source, id: string)
    requires ParsedFrom(operations, sources)
    requires Disambiguated(source.RequestedId(), Elements(Ids(operations)), id) && id !in Ids(operations)
    ensures var o := Operation(source.path, source.method_, id, source.data.details);
            && ParsedFrom(operations + [o], sources + [source])
            && Elements(Ids(operations + [o])) == Elements(Ids(operations)) + {id}
  {
    var o := Operation(source.path, source.method_, id, source.data.details);
    AssignedAppend(Requested(sources), Ids(operations), source.RequestedId(), id);
    assert Ids(operations + [o]) == Ids(operations) + [id];
    assert Requested(sources + [source]) == Requested(sources) + [source.RequestedId()];
    assert SameEndpoints(operations + [o], sources + [source]);
  }

  lemma NextMethod(path: Path, methods: seq<string>, m: nat)
    requires m < |methods| && path.item.Some?
    ensures var item := path.item.value;
            PathSources(path, methods[..m + 1]) == PathSources(path, methods[..m]) +
              if methods[m] in item && item[methods[m]].Some?
              then [Source(path.path, methods[m], item[methods[m]].value)] else []
  {
    assert methods[..m + 1][..m] == methods[..m];
  }

  /** One path's operations, appended to those parsed so far. */
  method ParsePath(path: Path, methods: seq<string>, parsed: seq<Operation>, ids: set<string>, ghost sources: seq<Source>)
    returns (operations: seq<Operation>, used: set<string>)
    requires ids == Elements(Ids(parsed)) && ParsedFrom(parsed, sources)
    ensures used == Elements(Ids(operations))
    ensures ParsedFrom(operations, sources + PathSources(path, methods))
  {
    hide ParsedFrom, Ids, Disambiguated;
    operations, used := parsed, ids;
    ghost var seen := sources;
    if path.item.Some? {
      var item := path.item.value;
      for m := 0 to |methods|
        invariant used == Elements(Ids(operations))
        invariant ParsedFrom(operations, seen)
        invariant seen == sources + PathSources(path, methods[..m])
      {
        var method_ := methods[m];
        NextMethod(path, methods, m);
        if method_ in item && item[method_].Some? {
          var source := Source(path.path, method_, item[method_].value);
          var id := Disambiguate(source.RequestedId(), used);
          ParsedAppend(operations, seen, source, id);
          operations := operations + [Operation(path.path, method_, id, source.data.details)];
          used := used + {id};
          seen := seen + [source];
        }
      }
      assert methods[..|methods|] == methods;
    }
    assert seen == sources + PathSources(path, methods);
  }

  method ParseOperations(paths: seq<Path>) returns (operations: seq<Operation>)
    ensures ParsedFrom(operations, Sources(paths))
  {
    operations := [];
    var used: set<string> := {};
    for p := 0 to |paths|
      invariant used == Elements(Ids(operations))
      invariant ParsedFrom(operations, Sources(paths[..p]))
    {
      assert paths[..p + 1][..p] == paths[..p];
      operations, used := ParsePath(paths[p], METHODS, operations, used, Sources(paths[..p]));
    }
    assert paths[..|paths|] == paths;
  }

  /** The first operation with this id. */
  function FindById(operations: seq<Operation>, id: string): (r: Option<Operation>)
    ensures r.None? <==> forall o | o in operations :: o.operationId != id
    ensures r.Some? ==> r.value in operations && r.value.operationId == id
  {
    if operations == [] then None
    else if operations[0].operationId == id then Some(operations[0])
    else FindById(operations[1..], id)
  }

  method GetOperationById(operations: seq<Operation>, id: string) returns (found: Option<Operation>)
    ensures found == FindById(operations, id)
  {
    for i := 0 to |operations|
      invariant FindById(operations[i..], id) == FindById(operations, id)
    {
      if operations[i].operationId == id {
        return Some(operations[i]);
      }
    }
    return None;
  }

  lemma {:induction false} PathSourceMethods(path: Path, methods: seq<string>)
    ensures forall s | s in PathSources(path, methods) :: s.method_ in methods
  {
    if methods != [] && path.item.Some? {
      PathSourceMethods(path, methods[..|methods| - 1]);
    }
  }

  lemma {:induction false} SourceMethods(paths: seq<Path>)
    ensures forall s | s in Sources(paths) :: s.method_ in METHODS
  {
    if paths != [] {
      SourceMethods(paths[..|paths| - 1]);
      PathSourceMethods(paths[|paths| - 1], METHODS);
    }
  }

  /** Operation ids never collide, so an id names at most one operation. */
  lemma {:induction false} IdsDistinct(requested: seq<string>, ids: seq<string>, i: nat, j: nat)
    requires Assigned(requested, ids) && i < j < |ids|
    ensures ids[i] != ids[j]
  {
    var n := |ids| - 1;
    if j < n {
      IdsDistinct(requested[..n], ids[..n], i, j);
    } else {
      assert ids[i] in ids[..n];
    }
  }

  /** Looking an operation up by its own id finds that operation. */
  lemma OwnIdFound(operations: seq<Operation>, sources: seq<Source>, i: nat)
    requires ParsedFrom(operations, sources) && i < |operations|
    ensures FindById(operations, operations[i].operationId) == Some(operations[i])
  {
    var found := FindById(operations, operations[i].operationId);
    var requested, ids := Requested(sources), Ids(operations);
    assert operations[i] in operations;
    var j :| 0 <= j < |operations| && operations[j] == found.value;
    assert ids[i] == ids[j];
    if i < j {
      IdsDistinct(requested, ids, i, j);
    } else if j < i {
      IdsDistinct(requested, ids, j, i);
    }
  }

  lemma {:induction false} ElementsCount(ids: seq<string>)
    ensures |Elements(ids)| <= |ids|
  {
    if ids != [] {
      var n := |ids| - 1;
      ElementsCount(ids[..n]);
      assert ids == ids[..n] + [ids[n]];
      assert Elements(ids) == Elements(ids[..n]) + {ids[n]};
    }
  }

  /** Every id is a valid tool name, as long as the specification has fewer
      operations than there are suffixes within the length cap. */
  lemma {:induction false} IdsValid(requested: seq<string>, ids: seq<string>, i: nat, digits: nat)
    requires Assigned(requested, ids) && i < |ids|
    requires forall j | 0 <= j < |requested| :: ToolName(requested[j]) && Trimmed(requested[j])
    requires 1 <= digits < MAX_TOOL_NAME_LEN && |ids| + 1 < Pow10(digits)
    ensures ToolName(ids[i])
  {
    var n := |ids| - 1;
    hide ToolName, Trimmed, Candidate, FirstFree;
    if i < n {
      IdsValid(requested[..n], ids[..n], i, digits);
    } else if requested[n] in Elements(ids[..n]) {
      ElementsCount(ids[..n]);
      var used := Elements(ids[..n]);
      var k :| 2 <= k <= |used| + 2 && FirstFree(requested[n], used, k) && ids[n] == Candidate(requested[n], k);
      DecimalLength(k, digits);
      CandidateValid(requested[n], k);
    }
  }

  /** What parsing guarantees about every specification: one operation per
      object under a known method, each under a valid id of its own. */
  lemma ParsedIdsValid(operations: seq<Operation>, paths: seq<Path>, digits: nat)
    requires ParsedFrom(operations, Sources(paths))
    requires 1 <= digits < MAX_TOOL_NAME_LEN && |operations| + 1 < Pow10(digits)
    ensures forall i | 0 <= i < |operations| :: ToolName(operations[i].operationId)
    ensures forall i, j | 0 <= i < j < |operations| :: operations[i].operationId != operations[j].operationId
  {
    var sources := Sources(paths);
    var requested, ids := Requested(sources), Ids(operations);
    SourceMethods(paths);
    forall i | 0 <= i < |requested| ensures ToolName(requested[i]) && Trimmed(requested[i]) {
      assert sources[i] in sources;
      SanitizeValid(sources[i].data.operationId, sources[i].method_, sources[i].path);
    }
    forall i | 0 <= i < |operations| ensures ToolName(operations[i].operationId) {
      IdsValid(requested, ids, i, digits);
      assert ids[i] == operations[i].operationId;
    }
    forall i, j | 0 <= i < j < |operations| ensures operations[i].operationId != operations[j].operationId {
      IdsDistinct(requested, ids, i, j);
      assert ids[i] == operations[i].operationId && ids[j] == operations[j].operationId;
    }
  }
}
