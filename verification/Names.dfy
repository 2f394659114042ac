/** Sets of names in sorted order: Python's `sorted(...)` over dictionary keys. */
module Names {
  import opened StableSort

  /** Code-point lexicographic order. */
  predicate NameLe(a: string, b: string) {
    a == [] || (b != [] && (a[0] < b[0] || (a[0] == b[0] && NameLe(a[1..], b[1..]))))
  }

  lemma {:induction false} NameLeTotal(a: string, b: string)
    ensures NameLe(a, b) || NameLe(b, a)
    ensures NameLe(a, b) && NameLe(b, a) ==> a == b
  {
    if a != [] && b != [] && a[0] == b[0] {
      NameLeTotal(a[1..], b[1..]);
      assert a == [a[0]] + a[1..] && b == [b[0]] + b[1..];
    }
  }

  lemma {:induction false} NameLeTransitive(a: string, b: string, c: string)
    requires NameLe(a, b) && NameLe(b, c)
    ensures NameLe(a, c)
  {
    if a != [] && a[0] == b[0] == c[0] {
      NameLeTransitive(a[1..], b[1..], c[1..]);
    }
  }

  lemma NameOrder()
    ensures TotalPreorder(NameLe)
    ensures forall a, b :: NameLe(a, b) && NameLe(b, a) ==> a == b
  {
    forall a, b ensures NameLe(a, b) || NameLe(b, a) { NameLeTotal(a, b); }
    forall a, b | NameLe(a, b) && NameLe(b, a) ensures a == b { NameLeTotal(a, b); }
    forall a, b, c | NameLe(a, b) && NameLe(b, c) ensures NameLe(a, c) { NameLeTransitive(a, b, c); }
  }

  /** `a` comes before `b`: they agree up to some point, where `a` ends or has
      the smaller character. */
  ghost predicate Precedes(a: string, b: string) {
    exists n :: DiffersAt(a, b, n) && (n == |a| || (n < |b| && a[n] < b[n]))
  }

  ghost predicate DiffersAt(a: string, b: string, n: int) {
    && 0 <= n <= |a| && n <= |b| && (n < |a| || n < |b|)
    && (forall k | 0 <= k < n :: a[k] == b[k])
    && (n < |a| && n < |b| ==> a[n] != b[n])
  }

  lemma DiffersOnce(a: string, b: string, m: int, n: int)
    requires DiffersAt(a, b, m) && DiffersAt(a, b, n)
    ensures m == n
  {
  }

  lemma DiffersTail(a: string, b: string, n: int)
    requires a != [] && b != [] && a[0] == b[0]
    ensures DiffersAt(a[1..], b[1..], n) ==> DiffersAt(a, b, n + 1)
    ensures DiffersAt(a, b, n) ==> n > 0 && DiffersAt(a[1..], b[1..], n - 1)
  {
  }

  lemma {:induction false} NameLeMeaning(a: string, b: string)
    ensures NameLe(a, b) <==> a == b || Precedes(a, b)
  {
    if a == [] || b == [] || a[0] != b[0] {
      assert a != b ==> DiffersAt(a, b, 0);
      forall n | DiffersAt(a, b, n) ensures n == 0 { DiffersOnce(a, b, 0, n); }
    } else {
      NameLeMeaning(a[1..], b[1..]);
      assert a == [a[0]] + a[1..] && b == [b[0]] + b[1..];
      hide DiffersAt;
      if n :| DiffersAt(a[1..], b[1..], n) && (n == |a[1..]| || (n < |b[1..]| && 0 <= n < |a[1..]| && a[1..][n] < b[1..][n])) {
        DiffersTail(a, b, n);
      }
      if n :| DiffersAt(a, b, n) && (n == |a| || (n < |b| && 0 <= n < |a| && a[n] < b[n])) {
        DiffersTail(a, b, n);
      }
    }
  }

  ghost predicate Distinct<T>(r: seq<T>) {
    forall i, j | 0 <= i < j < |r| :: r[i] != r[j]
  }

  /** `r` lists `s` in increasing order, each name once. */
  ghost predicate Lists(r: seq<string>, s: set<string>) {
    && Sorted(r, NameLe)
    && Distinct(r)
    && forall x :: x in r <==> x in s
  }

  lemma ListsSome(r: seq<string>, s: set<string>)
    requires Lists(r, s) && r != []
    ensures r[0] in s
  {
  }

  lemma {:induction false} ListsUnique(a: seq<string>, b: seq<string>, s: set<string>)
    requires Lists(a, s) && Lists(b, s)
    ensures a == b
  {
    NameOrder();
    if a == [] {
      if b != [] { ListsSome(b, s); }
    } else {
      assert a[0] in s;
      assert b[0] in s;
      var i :| 0 <= i < |b| && b[i] == a[0];
      var j :| 0 <= j < |a| && a[j] == b[0];
      assert a[0] == b[0];
      var rest := s - {a[0]};
      assert Lists(a[1..], rest);
      assert Lists(b[1..], rest);
      ListsUnique(a[1..], b[1..], rest);
    }
  }

  lemma {:induction false} LeastName(s: set<string>) returns (x: string)
    requires s != {}
    ensures x in s && forall y | y in s :: NameLe(x, y)
  {
    NameOrder();
    x :| x in s;
    if s != {x} {
      var y := LeastName(s - {x});
      if NameLe(y, x) { x := y; }
    }
  }

  lemma LeastExists(s: set<string>)
    requires s != {}
    ensures exists x :: x in s && forall y | y in s :: NameLe(x, y)
    ensures forall x, z | x in s && z in s && NameLe(x, z) && NameLe(z, x) :: x == z
  {
    NameOrder();
    var x := LeastName(s);
  }

  /** Python's `sorted(s)`. */
  function SortedNames(s: set<string>): (r: seq<string>) {
    if s == {} then []
    else
      LeastExists(s);
      var x :| x in s && forall y | y in s :: NameLe(x, y);
      [x] + SortedNames(s - {x})
  }

  lemma InsertLists(x: string, r: seq<string>, s: set<string>)
    requires Lists(r, s) && x !in s
    ensures Lists(Insert(x, r, NameLe), s + {x})
  {
    NameOrder();
    InsertSorted(x, r, NameLe);
    InsertMembers(x, r, NameLe);
    InsertDistinct(x, r);
  }

  lemma {:induction false} InsertDistinct(x: string, r: seq<string>)
    requires Distinct(r) && x !in r
    ensures Distinct(Insert(x, r, NameLe))
  {
    if r != [] && !NameLe(x, r[0]) {
      InsertDistinct(x, r[1..]);
      InsertMembers(x, r[1..], NameLe);
      var t := Insert(x, r[1..], NameLe);
      forall j | 0 <= j < |t| ensures t[j] != r[0] { assert t[j] in t; }
    }
  }

  lemma {:induction false} SortedNamesLists(s: set<string>)
    ensures Lists(SortedNames(s), s)
  {
    if s != {} {
      LeastExists(s);
      var x :| x in s && (forall y | y in s :: NameLe(x, y)) && SortedNames(s) == [x] + SortedNames(s - {x});
      SortedNamesLists(s - {x});
      var rest := SortedNames(s - {x});
      forall j | 0 <= j < |rest| ensures NameLe(x, rest[j]) && rest[j] != x { assert rest[j] in rest; }
    }
  }

  /** Whatever order the names come in, they are listed in one way. */
  method SortNames(s: set<string>) returns (r: seq<string>)
    ensures r == SortedNames(s)
  {
    r := [];
    var rest := s;
    while rest != {}
      invariant rest <= s && Lists(r, s - rest)
      decreases rest
    {
      var x :| x in rest;
      InsertLists(x, r, s - rest);
      r := Insert(x, r, NameLe);
      assert s - rest + {x} == s - (rest - {x});
      rest := rest - {x};
    }
    assert s - rest == s;
    SortedNamesLists(s);
    ListsUnique(r, SortedNames(s), s);
  }
}
