/** What a query says about the values themselves: numbers, strings and paths
    (state/store.py, `_matches_where`, `_get_nested_value` and `list`). */
module QueryMeaning {
  import opened Wrappers
  import opened Json
  import opened StableSort
  import opened Names
  import opened Values
  import opened Store
  import opened StoreProperties

  // ---- paths ----

  lemma {:induction false} NestedReaches(value: Json, path: seq<string>)
    ensures Nested(value, path) == ValueAt(value, path)
    decreases path
  {
    if path != [] {
      ValueAtFirst(value, path);
      match value.Get(path[0])
      case None =>
      case Some(next) => NestedReaches(next, path[1..]);
    }
  }

  /** A dotted path reads one key after the other. */
  lemma PathReads(row: Row, path: seq<string>)
    requires path != [] && forall key | key in path :: '.' !in key
    ensures At(row, Join(path, '.')) == ValueAt(Obj(row), path)
  {
    SplitJoin(path, '.');
    NestedReaches(Obj(row), path);
  }

  // ---- comparisons ----

  /** A number, or a boolean counted as one or zero. */
  ghost predicate IsNumber(j: Json, v: real) {
    (j.Num? && j.value == v) || (j.Bool? && v == if j.truth then 1.0 else 0.0)
  }

  /** On numbers the operators are those of the real numbers. */
  lemma NumbersCompare(value: Json, x: Json, a: real, b: real)
    requires IsNumber(value, a) && IsNumber(x, b)
    ensures Judged(value, "$gt", x) == Decide(a > b)
    ensures Judged(value, "$gte", x) == Decide(a >= b)
    ensures Judged(value, "$lt", x) == Decide(a < b)
    ensures Judged(value, "$lte", x) == Decide(a <= b)
    ensures Judge(value, x) == Decide(a == b)
  {
  }

  /** On strings they go by the first character that differs. */
  lemma StringsCompare(s: string, t: string)
    ensures Judged(Str(s), "$gt", Str(t)) == Decide(Precedes(t, s))
    ensures Judged(Str(s), "$gte", Str(t)) == Decide(s == t || Precedes(t, s))
    ensures Judged(Str(s), "$lt", Str(t)) == Decide(Precedes(s, t))
    ensures Judged(Str(s), "$lte", Str(t)) == Decide(s == t || Precedes(s, t))
    ensures Judge(Str(s), Str(t)) == Decide(s == t)
  {
    NameLeMeaning(s, t);
    NameLeMeaning(t, s);
    NameLeTotal(s, t);
    NotBothWays(s, t);
    hide NameLe, Precedes;
  }

  lemma NotBothWays(s: string, t: string)
    ensures !(Precedes(s, t) && Precedes(t, s)) && !Precedes(s, s)
  {
    forall m, n | DiffersAt(s, t, m) && DiffersAt(t, s, n) ensures m == n {
      assert DiffersAt(s, t, n);
      DiffersOnce(s, t, m, n);
    }
  }

  /** Values of different kinds, objects and null have no order. */
  lemma OthersRaise(value: Json, x: Json)
    requires !(value.Str? && x.Str?) && !(value.Arr? && x.Arr?)
    requires !((value.Num? || value.Bool?) && (x.Num? || x.Bool?))
    ensures forall op | op in {"$gt", "$gte", "$lt", "$lte"} :: Judged(value, op, x) == Raises(TypeError)
  {
  }

  // ---- the other operators ----

  /** Strings alike but for the case of letters. */
  ghost predicate AlikeButCase(s: string, t: string) {
    |s| == |t| && forall i | 0 <= i < |s| ::
      s[i] == t[i] || ('A' <= s[i] <= 'Z' && t[i] as int == s[i] as int + 32) || ('A' <= t[i] <= 'Z' && s[i] as int == t[i] as int + 32)
  }

  lemma LowerAlike(s: string, t: string)
    ensures Lower(s) == Lower(t) <==> AlikeButCase(s, t)
  {
    if |s| == |t| {
      assert forall i | 0 <= i < |s| :: Lower(s)[i] == LowerChar(s[i]) && Lower(t)[i] == LowerChar(t[i]);
      if AlikeButCase(s, t) { assert Lower(s) == Lower(t); }
    } else {
      assert |Lower(s)| == |s| && |Lower(t)| == |t|;
    }
  }

  lemma IgnoringCase(value: Json, x: Json)
    ensures Judged(value, "$ieq", x) == Decide(value.Str? && x.Str? && AlikeButCase(value.text, x.text))
  {
    if value.Str? && x.Str? { LowerAlike(value.text, x.text); }
  }

  /** Membership in a list is by equality, in a string by occurrence, in an
      object by key; anything else raises. */
  lemma Membership(value: Json, x: Json)
    ensures x.Arr? ==> Judged(value, "$in", x) == Decide(exists y | y in x.items :: Equal(value, y))
    ensures value.Str? && x.Str? ==>
              Judged(value, "$in", x) == Decide(exists before, after: string :: x.text == before + value.text + after)
    ensures value.Str? && x.Obj? ==> Judged(value, "$in", x) == Decide(value.text in x.fields)
    ensures x.Null? || x.Bool? || x.Num? || (x.Str? && !value.Str?) ==> Judged(value, "$in", x) == Raises(TypeError)
  {
    if x.Arr? {
      if y :| y in x.items && Equal(value, y) {
        var i :| 0 <= i < |x.items| && x.items[i] == y;
      }
      if i :| 0 <= i < |x.items| && Equal(value, x.items[i]) { assert x.items[i] in x.items; }
    }
    if value.Str? && x.Str? { Occurs(x.text, value.text); }
  }

  lemma Occurs(s: string, sub: string)
    ensures Substring(s, sub) <==> exists before, after: string :: s == before + sub + after
  {
    if i :| 0 <= i <= |s| && SubstringAt(s, sub, i) {
      assert s == s[..i] + sub + s[i + |sub|..];
    }
    if before, after: string :| s == before + sub + after {
      assert s[|before|..|before| + |sub|] == sub;
      assert SubstringAt(s, sub, |before|);
    }
  }

  /** A present field meets `$exists` if that is asked for, a missing one only
      the literal false, and nothing else at all. */
  lemma Presence(row: Row, path: string, predicate_: Json)
    ensures At(row, path).None? ==>
              Check(row, Condition(path, predicate_)) ==
                Decide(predicate_.Obj? && "$exists" in predicate_.fields && predicate_.fields["$exists"] == Bool(false))
    ensures At(row, path).Some? ==> Check(row, Condition(path, predicate_)) == Judge(At(row, path).value, predicate_)
    ensures forall value, wanted: bool :: Judged(value, "$exists", Bool(wanted)) == Decide(wanted)
  {
  }

  /** Plain equality: null and strings only with themselves, lists and objects
      member by member. */
  lemma PlainEquality(a: Json, b: Json)
    ensures Equal(a, a)
    ensures a.Null? || a.Str? || b.Null? || b.Str? ==> (Equal(a, b) <==> a == b)
    ensures a.Arr? && b.Arr? ==> (Equal(a, b) <==> |a.items| == |b.items| && forall i | 0 <= i < |a.items| :: Equal(a.items[i], b.items[i]))
    ensures a.Obj? && b.Obj? ==> (Equal(a, b) <==> a.fields.Keys == b.fields.Keys && forall k | k in a.fields :: Equal(a.fields[k], b.fields[k]))
    ensures a.Arr? != b.Arr? || a.Obj? != b.Obj? ==> !Equal(a, b)
    ensures !b.Obj? ==> Judge(a, b) == Decide(Equal(a, b))
  {
    EqualSelf(a);
  }

  lemma {:induction false} EqualSelf(a: Json)
    ensures Equal(a, a)
  {
    match a
    case Arr(items) => forall i | 0 <= i < |items| ensures Equal(items[i], items[i]) { EqualSelf(items[i]); }
    case Obj(fields) => forall k | k in fields ensures Equal(fields[k], fields[k]) { EqualSelf(fields[k]); }
    case _ =>
  }

  const OPERATORS := ["$ieq", "$in", "$gt", "$gte", "$lt", "$lte", "$exists"]

  /** Of several operators only the first in this order counts, and an object
      without any raises. */
  lemma FirstOperatorCounts(value: Json, ops: Row)
    ensures "$ieq" in ops ==> Judge(value, Obj(ops)) == Judged(value, "$ieq", ops["$ieq"])
    ensures "$ieq" !in ops && "$in" in ops ==> Judge(value, Obj(ops)) == Judged(value, "$in", ops["$in"])
    ensures "$ieq" !in ops && "$in" !in ops && "$gt" in ops ==> Judge(value, Obj(ops)) == Judged(value, "$gt", ops["$gt"])
    ensures "$ieq" !in ops && "$in" !in ops && "$gt" !in ops && "$gte" in ops ==>
              Judge(value, Obj(ops)) == Judged(value, "$gte", ops["$gte"])
    ensures (forall op | op in OPERATORS :: op !in ops) ==> Judge(value, Obj(ops)) == Raises(BadQuery)
  {
    assert OPERATORS[0] == "$ieq" && OPERATORS[1] == "$in" && OPERATORS[2] == "$gt" && OPERATORS[3] == "$gte";
    assert OPERATORS[4] == "$lt" && OPERATORS[5] == "$lte" && OPERATORS[6] == "$exists";
  }

  /** A clause holds if all its conditions do; the first that does not decides. */
  lemma {:induction false} AllConditions(row: Row, where_: seq<Condition>)
    ensures Matches(row, where_).Holds? <==> forall c | c in where_ :: Check(row, c).Holds?
    ensures !Matches(row, where_).Holds? ==>
              exists i | 0 <= i < |where_| ::
                Check(row, where_[i]) == Matches(row, where_) && forall j | 0 <= j < i :: Check(row, where_[j]).Holds?
  {
    hide Check;
    if where_ != [] {
      AllConditions(row, where_[1..]);
      assert where_ == [where_[0]] + where_[1..];
      if Check(row, where_[0]).Holds? && !Matches(row, where_[1..]).Holds? {
        var i :| 0 <= i < |where_[1..]| && Check(row, where_[1..][i]) == Matches(row, where_[1..])
          && forall j | 0 <= j < i :: Check(row, where_[1..][j]).Holds?;
        assert where_[i + 1] == where_[1..][i];
        forall j | 0 <= j < i + 1 ensures Check(row, where_[j]).Holds? {
          if j > 0 { assert where_[j] == where_[1..][j - 1]; }
        }
      }
    }
  }

  // ---- sorted lists ----

  lemma FirstKeyOrders(cfg: Config, data: Data, store: string, where_: seq<Condition>, sort: seq<SortKey>, i: nat, j: nat)
    requires ValidData(data) && sort != [] && Listed(cfg, data, store, where_, sort, None).Ok?
    requires i < j < |Listed(cfg, data, store, where_, sort, None).value|
    ensures var rows := Filter(data[store].Values(), where_).value;
            var r := Listed(cfg, data, store, where_, sort, None).value;
            r[i] in rows && r[j] in rows && sort[0].Order()(r[i], r[j])
  {
    ListIsStableSort(cfg, data, store, where_, sort);
    var rows := Filter(data[store].Values(), where_).value;
    var r := Listed(cfg, data, store, where_, sort, None).value;
    hide Listed, Filter;
    InMultiset(r, r[i]);
    InMultiset(r, r[j]);
    InMultiset(rows, r[i]);
    InMultiset(rows, r[j]);
    assert Orders(sort)[0] == sort[0].Order();
    assert TiedUpTo(Orders(sort), 0, r[i], r[j]);
  }

  lemma NumbersLe(value: Json, x: Json, a: real, b: real)
    requires IsNumber(value, a) && IsNumber(x, b)
    ensures ValueLe(value, x) <==> a <= b
  {
  }

  lemma NumberOrder(key: SortKey, x: Row, y: Row, a: real, b: real)
    requires IsNumber(key.Value(x), a) && IsNumber(key.Value(y), b) && key.Order()(x, y)
    ensures if AlikeButCase(key.direction, "desc") then a >= b else a <= b
  {
    LowerAlike(key.direction, "desc");
    assert Lower("desc") == "desc";
    assert key.Descending() <==> AlikeButCase(key.direction, "desc");
    var up := By(row => key.Value(row), ValueLe);
    assert key.Order() == if key.Descending() then Reversed(up) else up;
    var value := row => key.Value(row);
    assert value(x) == key.Value(x) && value(y) == key.Value(y);
    NumbersLe(key.Value(x), key.Value(y), a, b);
    NumbersLe(key.Value(y), key.Value(x), b, a);
    hide Lower, AlikeButCase;
  }

  /** Where the first sort key is a number, the rows' numbers rise; they fall
      exactly if the direction reads "desc", in whatever case. */
  lemma NumbersInOrder(cfg: Config, data: Data, store: string, where_: seq<Condition>, sort: seq<SortKey>, number: Row -> real, i: nat, j: nat)
    requires ValidData(data) && sort != [] && Listed(cfg, data, store, where_, sort, None).Ok?
    requires forall row | row in Filter(data[store].Values(), where_).value :: IsNumber(sort[0].Value(row), number(row))
    requires i < j < |Listed(cfg, data, store, where_, sort, None).value|
    ensures var r := Listed(cfg, data, store, where_, sort, None).value;
            if AlikeButCase(sort[0].direction, "desc") then number(r[i]) >= number(r[j]) else number(r[i]) <= number(r[j])
  {
    var r := Listed(cfg, data, store, where_, sort, None).value;
    FirstKeyOrders(cfg, data, store, where_, sort, i, j);
    NumberOrder(sort[0], r[i], r[j], number(r[i]), number(r[j]));
    hide Listed, Filter;
  }
}
