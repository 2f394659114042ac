/** Stable sorting, as Python's `list.sort` performs it: the reference the
    store's `list`, the batch planner and the composed entity list are proved
    against. */
module StableSort {

  type Order<!T> = (T, T) -> bool

  ghost predicate TotalPreorder<T(!new)>(le: Order<T>) {
    && (forall x, y :: le(x, y) || le(y, x))
    && (forall x, y, z :: le(x, y) && le(y, z) ==> le(x, z))
  }

  ghost predicate Sorted<T>(s: seq<T>, le: Order<T>) {
    forall i, j | 0 <= i < j < |s| :: le(s[i], s[j])
  }

  /** Puts `x` before the first element that is not below it. */
  function Insert<T>(x: T, s: seq<T>, le: Order<T>): (r: seq<T>) {
    if s == [] then [x]
    else if le(x, s[0]) then [x] + s
    else [s[0]] + Insert(x, s[1..], le)
  }

  function Sort<T>(s: seq<T>, le: Order<T>): (r: seq<T>) {
    if s == [] then [] else Insert(s[0], Sort(s[1..], le), le)
  }

  /** The members of `s` that tie with `v`, in the order they occur. */
  ghost function Ties<T>(s: seq<T>, v: T, le: Order<T>): seq<T> {
    if s == [] then []
    else (if le(s[0], v) && le(v, s[0]) then [s[0]] else []) + Ties(s[1..], v, le)
  }

  lemma InsertMultiset<T>(x: T, s: seq<T>, le: Order<T>)
    ensures multiset(Insert(x, s, le)) == multiset{x} + multiset(s)
    ensures |Insert(x, s, le)| == |s| + 1
  {
    if s != [] && !le(x, s[0]) {
      InsertMultiset(x, s[1..], le);
      assert s == [s[0]] + s[1..];
    }
  }

  lemma {:induction false} SortMultiset<T>(s: seq<T>, le: Order<T>)
    ensures multiset(Sort(s, le)) == multiset(s)
    ensures |Sort(s, le)| == |s|
  {
    if s != [] {
      SortMultiset(s[1..], le);
      InsertMultiset(s[0], Sort(s[1..], le), le);
      assert s == [s[0]] + s[1..];
    }
  }

  lemma InMultiset<T>(s: seq<T>, x: T)
    ensures x in s <==> x in multiset(s)
  {
  }

  lemma SortMembers<T>(s: seq<T>, le: Order<T>)
    ensures forall x :: x in Sort(s, le) <==> x in s
  {
    SortMultiset(s, le);
    forall x ensures x in Sort(s, le) <==> x in s {
      InMultiset(s, x);
      InMultiset(Sort(s, le), x);
    }
  }

  lemma InsertMembers<T>(x: T, s: seq<T>, le: Order<T>)
    ensures forall y :: y in Insert(x, s, le) <==> y == x || y in s
  {
    InsertMultiset(x, s, le);
    forall y ensures y in Insert(x, s, le) <==> y == x || y in s {
      InMultiset(s, y);
      InMultiset(Insert(x, s, le), y);
    }
  }

  lemma {:induction false} InsertSorted<T(!new)>(x: T, s: seq<T>, le: Order<T>)
    requires TotalPreorder(le) && Sorted(s, le)
    ensures Sorted(Insert(x, s, le), le)
  {
    if s != [] && !le(x, s[0]) {
      InsertSorted(x, s[1..], le);
      InsertMembers(x, s[1..], le);
      var r := Insert(x, s[1..], le);
      forall i | 0 <= i < |r| ensures le(s[0], r[i]) {
        assert r[i] in r;
      }
    }
  }

  lemma {:induction false} SortSorted<T(!new)>(s: seq<T>, le: Order<T>)
    requires TotalPreorder(le)
    ensures Sorted(Sort(s, le), le)
  {
    if s != [] {
      SortSorted(s[1..], le);
      InsertSorted(s[0], Sort(s[1..], le), le);
    }
  }

  lemma {:induction false} InsertTies<T(!new)>(x: T, s: seq<T>, v: T, le: Order<T>)
    requires TotalPreorder(le) && Sorted(s, le)
    ensures Ties(Insert(x, s, le), v, le) == Ties([x] + s, v, le)
  {
    if s != [] && !le(x, s[0]) {
      var first, rest := s[0], s[1..];
      assert Sorted(rest, le);
      InsertTies(x, rest, v, le);
      assert le(x, v) && le(v, first) ==> le(x, first);
      assert Insert(x, s, le) == [first] + Insert(x, rest, le);
      hide Sorted, TotalPreorder, Ties, Insert;
      TiesCons(first, Insert(x, rest, le), v, le);
      TiesCons(x, rest, v, le);
      TiesCons(x, s, v, le);
      TiesCons(first, rest, v, le);
      assert [first] + rest == s;
    }
  }

  /** Elements that tie keep the order they came in. */
  lemma {:induction false} SortStable<T(!new)>(s: seq<T>, v: T, le: Order<T>)
    requires TotalPreorder(le)
    ensures Ties(Sort(s, le), v, le) == Ties(s, v, le)
  {
    if s != [] {
      SortStable(s[1..], v, le);
      SortSorted(s[1..], le);
      InsertTies(s[0], Sort(s[1..], le), v, le);
      var u := Sort(s[1..], le);
      assert ([s[0]] + u)[1..] == u;
    }
  }

  lemma {:induction false} TiesMembers<T>(s: seq<T>, v: T, le: Order<T>)
    ensures forall x :: x in Ties(s, v, le) <==> x in s && le(x, v) && le(v, x)
  {
    if s != [] {
      TiesMembers(s[1..], v, le);
    }
  }

  /** Sortedness and tie order pin the result down: there is only one stable sort. */
  lemma {:induction false} StableSortUnique<T(!new)>(a: seq<T>, b: seq<T>, le: Order<T>)
    requires TotalPreorder(le) && Sorted(a, le) && Sorted(b, le)
    requires forall v :: Ties(a, v, le) == Ties(b, v, le)
    ensures a == b
  {
    if a == [] || b == [] {
      // A non-empty side would have a tie class the empty side lacks.
      assert a != [] ==> Ties(a, a[0], le) == Ties(b, a[0], le);
      assert b != [] ==> Ties(a, b[0], le) == Ties(b, b[0], le);
    } else {
      HeadsTie(a, b, le);
      HeadsTie(b, a, le);
      assert Ties(a, a[0], le)[0] == a[0];
      assert Ties(b, a[0], le)[0] == b[0];
      forall v ensures Ties(a[1..], v, le) == Ties(b[1..], v, le) {
        var h := if le(a[0], v) && le(v, a[0]) then [a[0]] else [];
        assert Ties(a, v, le) == h + Ties(a[1..], v, le);
        assert Ties(b, v, le) == h + Ties(b[1..], v, le);
        assert Ties(a[1..], v, le) == (h + Ties(a[1..], v, le))[|h|..];
        assert Ties(b[1..], v, le) == (h + Ties(b[1..], v, le))[|h|..];
      }
      StableSortUnique(a[1..], b[1..], le);
      assert a == [a[0]] + a[1..] && b == [b[0]] + b[1..];
    }
  }

  lemma HeadsTie<T(!new)>(a: seq<T>, b: seq<T>, le: Order<T>)
    requires TotalPreorder(le) && Sorted(b, le) && a != [] && b != []
    requires forall v :: Ties(a, v, le) == Ties(b, v, le)
    ensures le(b[0], a[0])
  {
    TiesMembers(a, a[0], le);
    TiesMembers(b, a[0], le);
    assert a[0] in Ties(a, a[0], le);
    assert a[0] in Ties(b, a[0], le);
  }

  /** First by `major`, then by `minor`. */
  function Lex<T>(major: Order<T>, minor: Order<T>): Order<T> {
    (x, y) => major(x, y) && (major(y, x) ==> minor(x, y))
  }

  lemma LexTotal<T(!new)>(major: Order<T>, minor: Order<T>)
    requires TotalPreorder(major) && TotalPreorder(minor)
    ensures TotalPreorder(Lex(major, minor))
  {
    var le := Lex(major, minor);
    forall x, y ensures le(x, y) || le(y, x) {
      assert major(x, y) || major(y, x);
      assert minor(x, y) || minor(y, x);
    }
  }

  /** The ties of a coarser order keep the finer ones apart. */
  lemma {:induction false} LexTies<T(!new)>(s: seq<T>, v: T, major: Order<T>, minor: Order<T>)
    ensures Ties(s, v, Lex(major, minor)) == Ties(Ties(s, v, minor), v, major)
    ensures Ties(s, v, Lex(major, minor)) == Ties(Ties(s, v, major), v, minor)
  {
    if s != [] {
      LexTies(s[1..], v, major, minor);
      TiesCons(s[0], Ties(s[1..], v, minor), v, major);
      TiesCons(s[0], Ties(s[1..], v, major), v, minor);
    }
  }

  lemma TiesCons<T>(x: T, s: seq<T>, v: T, le: Order<T>)
    ensures Ties([x] + s, v, le) == (if le(x, v) && le(v, x) then [x] else []) + Ties(s, v, le)
    ensures Ties([] + s, v, le) == Ties(s, v, le)
  {
    assert ([x] + s)[1..] == s;
    assert [] + s == s;
  }

  /** Sorting by `minor` and then by `major` is one sort by `Lex(major, minor)`. */
  lemma {:induction false} SortTwice<T(!new)>(s: seq<T>, major: Order<T>, minor: Order<T>)
    requires TotalPreorder(major) && TotalPreorder(minor)
    ensures Sort(Sort(s, minor), major) == Sort(s, Lex(major, minor))
  {
    var le := Lex(major, minor);
    var once := Sort(s, minor);
    var twice := Sort(once, major);
    LexTotal(major, minor);
    SortSorted(once, major);
    SortSorted(s, minor);
    SortSorted(s, le);
    forall i, j | 0 <= i < j < |twice| ensures le(twice[i], twice[j]) {
      if major(twice[j], twice[i]) {
        var ties := Ties(twice, twice[i], major);
        SortStable(once, twice[i], major);
        assert ties == Ties(once, twice[i], major);
        SubSorted(once, twice[i], major, minor);
        var p, q := TiesInOrder(twice, i, j, major);
        assert minor(ties[p], ties[q]);
      }
    }
    forall v ensures Ties(twice, v, le) == Ties(Sort(s, le), v, le) {
      LexTies(twice, v, major, minor);
      SortStable(once, v, major);
      LexTies(once, v, major, minor);
      SortStable(s, v, minor);
      LexTies(s, v, major, minor);
      SortStable(s, v, le);
    }
    StableSortUnique(twice, Sort(s, le), le);
  }

  /** Positions of two tied members inside their tie class. */
  lemma {:induction false} TiesInOrder<T(!new)>(s: seq<T>, i: nat, j: nat, le: Order<T>) returns (p: nat, q: nat)
    requires TotalPreorder(le) && i < j < |s| && le(s[i], s[j]) && le(s[j], s[i])
    ensures p < q < |Ties(s, s[i], le)|
    ensures Ties(s, s[i], le)[p] == s[i] && Ties(s, s[i], le)[q] == s[j]
  {
    p := TiePosition(s, i, s[i], le);
    var head := if le(s[0], s[i]) && le(s[i], s[0]) then 1 else 0;
    if i == 0 {
      p := 0;
      q := TiePosition(s[1..], j - 1, s[0], le);
      q := q + 1;
    } else {
      p, q := TiesInOrder(s[1..], i - 1, j - 1, le);
      p, q := p + head, q + head;
    }
  }

  lemma {:induction false} TiePosition<T>(s: seq<T>, i: nat, v: T, le: Order<T>) returns (p: nat)
    requires i < |s| && le(s[i], v) && le(v, s[i])
    ensures p < |Ties(s, v, le)| && Ties(s, v, le)[p] == s[i]
  {
    if i == 0 {
      p := 0;
    } else {
      p := TiePosition(s[1..], i - 1, v, le);
      p := p + if le(s[0], v) && le(v, s[0]) then 1 else 0;
    }
  }

  /** A tie class of a sorted sequence is sorted. */
  lemma {:induction false} SubSorted<T(!new)>(s: seq<T>, v: T, le: Order<T>, by_: Order<T>)
    requires Sorted(s, by_)
    ensures Sorted(Ties(s, v, le), by_)
  {
    if s != [] {
      SubSorted(s[1..], v, le, by_);
      TiesMembers(s[1..], v, le);
      var r := Ties(s[1..], v, le);
      forall k | 0 <= k < |r| ensures by_(s[0], r[k]) {
        assert r[k] in r;
        assert r[k] in s[1..];
      }
    }
  }

  /** Orders by a key. */
  function By<T, K>(key: T -> K, le: Order<K>): Order<T> {
    (x, y) => le(key(x), key(y))
  }

  lemma ByTotal<T(!new), K(!new)>(key: T -> K, le: Order<K>)
    requires TotalPreorder(le)
    ensures TotalPreorder(By(key, le))
  {
    var by_ := By(key, le);
    forall x, y ensures by_(x, y) || by_(y, x) {
      assert le(key(x), key(y)) || le(key(y), key(x));
    }
  }

  /** The same order from last to first; ties are still ties. */
  function Reversed<T>(le: Order<T>): Order<T> {
    (x, y) => le(y, x)
  }

  lemma ReversedTotal<T(!new)>(le: Order<T>)
    requires TotalPreorder(le)
    ensures TotalPreorder(Reversed(le))
  {
    var back := Reversed(le);
    forall x, y ensures back(x, y) || back(y, x) {
      assert le(x, y) || le(y, x);
    }
  }

  /** The first order decides, then the second, and so on. */
  function LexAll<T>(orders: seq<Order<T>>): Order<T> {
    if orders == [] then (x, y) => true else Lex(orders[0], LexAll(orders[1..]))
  }

  lemma {:induction false} LexAllTotal<T(!new)>(orders: seq<Order<T>>)
    requires forall i | 0 <= i < |orders| :: TotalPreorder(orders[i])
    ensures TotalPreorder(LexAll(orders))
  {
    if orders != [] {
      LexAllTotal(orders[1..]);
      LexTotal(orders[0], LexAll(orders[1..]));
    }
  }

  lemma {:induction false} SortByNothing<T>(s: seq<T>)
    ensures Sort(s, LexAll([])) == s
  {
    if s != [] {
      SortByNothing(s[1..]);
    }
  }

  /** The first `n` orders do not separate `x` and `y`. */
  ghost predicate TiedUpTo<T>(orders: seq<Order<T>>, n: nat, x: T, y: T)
    requires n <= |orders|
  {
    forall j | 0 <= j < n :: orders[j](x, y) && orders[j](y, x)
  }

  /** No order puts `y` before `x`, unless an earlier one separates them. */
  ghost predicate MayPrecede<T>(orders: seq<Order<T>>, x: T, y: T) {
    forall i | 0 <= i < |orders| && TiedUpTo(orders, i, x, y) :: orders[i](x, y)
  }

  lemma {:induction false} LexAllMeaning<T>(orders: seq<Order<T>>, x: T, y: T)
    ensures LexAll(orders)(x, y) <==> MayPrecede(orders, x, y)
  {
    if orders != [] {
      var rest := orders[1..];
      LexAllMeaning(rest, x, y);
      if orders[0](x, y) && orders[0](y, x) {
        forall i | 0 <= i < |rest| ensures TiedUpTo(rest, i, x, y) <==> TiedUpTo(orders, i + 1, x, y) {
          TiedTail(orders, i, x, y);
        }
        assert MayPrecede(orders, x, y) <==> MayPrecede(rest, x, y) by {
          if MayPrecede(rest, x, y) {
            forall i | 0 <= i < |orders| && TiedUpTo(orders, i, x, y) ensures orders[i](x, y) {
              if i > 0 { assert TiedUpTo(rest, i - 1, x, y) && rest[i - 1](x, y); }
            }
          }
          if MayPrecede(orders, x, y) {
            forall i | 0 <= i < |rest| && TiedUpTo(rest, i, x, y) ensures rest[i](x, y) {
              assert TiedUpTo(orders, i + 1, x, y) && orders[i + 1](x, y);
            }
          }
        }
      } else {
        assert TiedUpTo(orders, 0, x, y);
      }
    }
  }

  lemma TiedTail<T>(orders: seq<Order<T>>, n: nat, x: T, y: T)
    requires n < |orders| && orders[0](x, y) && orders[0](y, x)
    ensures TiedUpTo(orders[1..], n, x, y) <==> TiedUpTo(orders, n + 1, x, y)
  {
    forall j | 0 <= j < n ensures orders[1..][j] == orders[j + 1] {}
    if TiedUpTo(orders[1..], n, x, y) {
      forall j | 0 <= j < n + 1 ensures orders[j](x, y) && orders[j](y, x) {
        if j > 0 { assert orders[j] == orders[1..][j - 1]; }
      }
    }
  }
}
