/** Python's `==` and `<` on JSON values: numbers and booleans compare by value,
    lists element by element, and most other pairs not at all. */
module Values {
  import opened Wrappers
  import opened Json
  import opened StableSort
  import opened Names

  function Number(j: Json): (r: Option<real>) {
    match j
    case Num(v, _) => Some(v)
    case Bool(b) => Some(if b then 1.0 else 0.0)
    case _ => None
  }

  /** Python's `==`: numbers and booleans compare by value. */
  predicate Equal(a: Json, b: Json) {
    if Number(a).Some? && Number(b).Some? then Number(a) == Number(b)
    else match (a, b)
      case (Arr(xs), Arr(ys)) => |xs| == |ys| && forall i | 0 <= i < |xs| :: Equal(xs[i], ys[i])
      case (Obj(m), Obj(n)) => m.Keys == n.Keys && forall k | k in m :: Equal(m[k], n[k])
      case _ => a == b
  }

  /** Whether `<` is defined between two values: between numbers, between
      strings, and between lists whose first unequal elements allow it. */
  predicate Comparable(a: Json, b: Json)
    decreases a, if a.Arr? then |a.items| + 1 else 0
  {
    || (Number(a).Some? && Number(b).Some?)
    || (a.Str? && b.Str?)
    || (a.Arr? && b.Arr? && ComparableFrom(a, b, 0))
  }

  predicate ComparableFrom(a: Json, b: Json, i: nat)
    requires a.Arr? && b.Arr? && i <= |a.items|
    decreases a, |a.items| - i
  {
    i == |a.items| || i >= |b.items| ||
    if Equal(a.items[i], b.items[i]) then ComparableFrom(a, b, i + 1) else Comparable(a.items[i], b.items[i])
  }

  function Kind(j: Json): (r: nat) {
    if Number(j).Some? then 0 else if j.Str? then 1 else if j.Arr? then 2 else 3
  }

  /** Below, alike or above. Values `<` is not defined on go by kind. */
  function Compare(a: Json, b: Json): (r: int)
    decreases a, if a.Arr? then |a.items| + 1 else 0
  {
    if Kind(a) != Kind(b) then Kind(a) - Kind(b)
    else match a
      case Str(s) => if s == b.text then 0 else if NameLe(s, b.text) then -1 else 1
      case Arr(_) => CompareFrom(a, b, 0)
      case Obj(_) => 0
      case Null => 0
      case _ => if Number(a).value < Number(b).value then -1 else if Number(a).value > Number(b).value then 1 else 0
  }

  /** The first elements that differ decide; then the shorter list comes first. */
  function CompareFrom(a: Json, b: Json, i: nat): (r: int)
    requires a.Arr? && b.Arr? && i <= |a.items| && i <= |b.items|
    decreases a, |a.items| - i
  {
    if i == |a.items| || i == |b.items| then |a.items| - |b.items|
    else
      var c := Compare(a.items[i], b.items[i]);
      if c != 0 then c else CompareFrom(a, b, i + 1)
  }

  predicate ValueLe(a: Json, b: Json) {
    Compare(a, b) <= 0
  }

  // ---- a total order up to ties ----

  ghost predicate Opposite(x: int, y: int) {
    (x < 0 <==> y > 0) && (x > 0 <==> y < 0)
  }

  lemma {:induction false} CompareReversed(a: Json, b: Json)
    ensures Opposite(Compare(a, b), Compare(b, a))
    decreases a, if a.Arr? then |a.items| + 1 else 0
  {
    if a.Str? && b.Str? { NameLeTotal(a.text, b.text); }
    if a.Arr? && b.Arr? { CompareFromReversed(a, b, 0); }
  }

  lemma {:induction false} CompareFromReversed(a: Json, b: Json, i: nat)
    requires a.Arr? && b.Arr? && i <= |a.items| && i <= |b.items|
    ensures Opposite(CompareFrom(a, b, i), CompareFrom(b, a, i))
    decreases a, |a.items| - i
  {
    if i < |a.items| && i < |b.items| {
      CompareReversed(a.items[i], b.items[i]);
      CompareFromReversed(a, b, i + 1);
    }
  }

  /** Comparisons chain, and ties are those of both links. */
  ghost predicate Chained(ab: int, bc: int, ac: int) {
    ab <= 0 && bc <= 0 ==> ac <= 0 && (ac == 0 <==> ab == 0 && bc == 0)
  }

  lemma {:induction false} CompareChained(a: Json, b: Json, c: Json)
    ensures Chained(Compare(a, b), Compare(b, c), Compare(a, c))
    decreases a, if a.Arr? then |a.items| + 1 else 0
  {
    if a.Str? && b.Str? && c.Str? {
      NameOrder();
    } else if a.Arr? && b.Arr? && c.Arr? {
      CompareFromChained(a, b, c, 0);
    }
  }

  lemma {:induction false} CompareFromChained(a: Json, b: Json, c: Json, i: nat)
    requires a.Arr? && b.Arr? && c.Arr? && i <= |a.items| && i <= |b.items| && i <= |c.items|
    ensures Chained(CompareFrom(a, b, i), CompareFrom(b, c, i), CompareFrom(a, c, i))
    decreases a, |a.items| - i
  {
    hide Compare;
    if i < |a.items| && i < |b.items| && i < |c.items| {
      CompareChained(a.items[i], b.items[i], c.items[i]);
      CompareFromChained(a, b, c, i + 1);
    }
  }

  lemma ValueOrder()
    ensures TotalPreorder(ValueLe)
  {
    hide Compare;
    forall a, b ensures ValueLe(a, b) || ValueLe(b, a) { CompareReversed(a, b); }
    forall a, b, c | ValueLe(a, b) && ValueLe(b, c) ensures ValueLe(a, c) { CompareChained(a, b, c); }
  }

  // ---- what it means ----

  lemma {:induction false} EqualAlike(a: Json, b: Json)
    requires Equal(a, b)
    ensures Compare(a, b) == 0
    decreases a, if a.Arr? then |a.items| + 1 else 0
  {
    if a.Arr? { EqualFromAlike(a, b, 0); }
  }

  lemma {:induction false} EqualFromAlike(a: Json, b: Json, i: nat)
    requires a.Arr? && b.Arr? && Equal(a, b) && i <= |a.items|
    ensures CompareFrom(a, b, i) == 0
    decreases a, |a.items| - i
  {
    if i < |a.items| {
      EqualAlike(a.items[i], b.items[i]);
      EqualFromAlike(a, b, i + 1);
    }
  }

  /** Of comparable values exactly the equal ones are alike. */
  lemma {:induction false} ComparedEqual(a: Json, b: Json)
    requires Comparable(a, b)
    ensures Compare(a, b) == 0 <==> Equal(a, b)
    decreases a, if a.Arr? then |a.items| + 1 else 0
  {
    if a.Str? { NameLeTotal(a.text, b.text); }
    if a.Arr? { ComparedEqualFrom(a, b, 0); }
  }

  lemma {:induction false} ComparedEqualFrom(a: Json, b: Json, i: nat)
    requires a.Arr? && b.Arr? && i <= |a.items| && i <= |b.items| && ComparableFrom(a, b, i)
    ensures CompareFrom(a, b, i) == 0 <==>
              |a.items| == |b.items| && forall j | i <= j < |a.items| :: Equal(a.items[j], b.items[j])
    decreases a, |a.items| - i
  {
    hide Compare, Comparable;
    if i < |a.items| && i < |b.items| {
      if Equal(a.items[i], b.items[i]) {
        EqualAlike(a.items[i], b.items[i]);
        ComparedEqualFrom(a, b, i + 1);
      } else {
        ComparedEqual(a.items[i], b.items[i]);
      }
    }
  }

  /** Two lists compare as their first unequal elements do, and raise when those
      do; without such elements the shorter list is below. */
  lemma FirstDifferenceDecides(a: Json, b: Json, n: nat)
    requires a.Arr? && b.Arr? && n <= |a.items| && n <= |b.items|
    requires forall j | 0 <= j < n :: Equal(a.items[j], b.items[j])
    requires n < |a.items| && n < |b.items| ==> !Equal(a.items[n], b.items[n])
    ensures n < |a.items| && n < |b.items| ==>
              && (Comparable(a, b) <==> Comparable(a.items[n], b.items[n]))
              && (Comparable(a, b) ==> Compare(a, b) == Compare(a.items[n], b.items[n]))
    ensures n == |a.items| || n == |b.items| ==>
              Comparable(a, b) && (ValueLe(a, b) <==> |a.items| <= |b.items|)
  {
    SkipEqual(a, b, 0, n);
    if n < |a.items| && n < |b.items| && Comparable(a.items[n], b.items[n]) {
      ComparedEqual(a.items[n], b.items[n]);
    }
  }

  lemma {:induction false} SkipEqual(a: Json, b: Json, i: nat, n: nat)
    requires a.Arr? && b.Arr? && i <= n <= |a.items| && n <= |b.items|
    requires forall j | i <= j < n :: Equal(a.items[j], b.items[j])
    ensures CompareFrom(a, b, i) == CompareFrom(a, b, n)
    ensures ComparableFrom(a, b, i) <==> ComparableFrom(a, b, n)
    decreases n - i
  {
    hide Compare, Comparable, Equal;
    if i < n {
      EqualAlike(a.items[i], b.items[i]);
      SkipEqual(a, b, i + 1, n);
    }
  }
}
