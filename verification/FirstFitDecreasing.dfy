/** First-fit over groups of decreasing size uses at most half as many bins again
    as any packing that keeps the groups whole. */
module FirstFitDecreasing {
  import opened StableSort
  import opened Batches

  type Bin = seq<nat>

  function Sum(sizes: seq<nat>): (r: nat) {
    if sizes == [] then 0 else sizes[0] + Sum(sizes[1..])
  }

  lemma {:induction false} SumAppend(a: seq<nat>, b: seq<nat>)
    ensures Sum(a + b) == Sum(a) + Sum(b)
  {
    if a == [] {
      assert a + b == b;
    } else {
      assert (a + b)[1..] == a[1..] + b;
      SumAppend(a[1..], b);
    }
  }

  lemma {:induction false} SumPermuted(a: seq<nat>, b: seq<nat>)
    requires multiset(a) == multiset(b)
    ensures Sum(a) == Sum(b)
    decreases |a|
  {
    SameCount(a, b);
    if a != [] {
      var i := PermutedHead(a, b);
      SumPermuted(a[1..], b[..i] + b[i + 1..]);
      SumAppend(b[..i], [b[i]] + b[i + 1..]);
      SumAppend(b[..i], b[i + 1..]);
    }
  }

  // ---- the packer, on sizes ----

  function FirstRoom(bins: seq<Bin>, size: nat, cap: nat, from: nat): (i: nat)
    requires from <= |bins|
    ensures from <= i <= |bins|
    ensures forall j | from <= j < i :: Sum(bins[j]) + size > cap
    ensures i < |bins| ==> Sum(bins[i]) + size <= cap
    decreases |bins| - from
  {
    if from == |bins| || Sum(bins[from]) + size <= cap then from else FirstRoom(bins, size, cap, from + 1)
  }

  function PlaceSize(bins: seq<Bin>, size: nat, cap: nat): (r: seq<Bin>) {
    var i := FirstRoom(bins, size, cap, 0);
    if i < |bins| then bins[i := bins[i] + [size]] else bins + [[size]]
  }

  function PackSizes(sizes: seq<nat>, cap: nat): (r: seq<Bin>) {
    if sizes == [] then []
    else PlaceSize(PackSizes(sizes[..|sizes| - 1], cap), sizes[|sizes| - 1], cap)
  }

  function Sizes(groups: seq<Group>): (r: seq<nat>) {
    seq(|groups|, i requires 0 <= i < |groups| => |groups[i]|)
  }

  ghost predicate SameLoads(bins: seq<Group>, loads: seq<Bin>) {
    |bins| == |loads| && forall i | 0 <= i < |bins| :: |bins[i]| == Sum(loads[i])
  }

  lemma {:induction false} SameFit(bins: seq<Group>, loads: seq<Bin>, group: Group, cap: nat, from: nat)
    requires SameLoads(bins, loads) && from <= |bins|
    ensures FirstFit(bins, group, cap, from) == FirstRoom(loads, |group|, cap, from)
    decreases |bins| - from
  {
    if from < |bins| && |bins[from]| + |group| > cap {
      SameFit(bins, loads, group, cap, from + 1);
    }
  }

  /** The planner's bins have the loads of the packer on sizes. */
  lemma {:induction false} PackLoads(groups: seq<Group>, cap: nat)
    ensures SameLoads(Pack(groups, cap), PackSizes(Sizes(groups), cap))
  {
    if groups != [] {
      var n := |groups| - 1;
      var init, last := groups[..n], groups[n];
      PackLoads(init, cap);
      assert Sizes(groups)[..n] == Sizes(init);
      var bins, loads := Pack(init, cap), PackSizes(Sizes(init), cap);
      SameFit(bins, loads, last, cap, 0);
      var i := FirstFit(bins, last, cap, 0);
      if i < |bins| {
        SumAppend(loads[i], [|last|]);
      }
    }
  }

  // ---- what first-fit-decreasing keeps ----

  ghost predicate Descending(sizes: seq<nat>) {
    forall i, j | 0 <= i < j < |sizes| :: sizes[i] >= sizes[j]
  }

  /** No bin is empty, and no item of a bin would have fitted into an earlier one. */
  ghost predicate Tight(bins: seq<Bin>, cap: nat) {
    && (forall i | 0 <= i < |bins| :: bins[i] != [])
    && forall i, j, x | 0 <= i < j < |bins| && x in bins[j] :: Sum(bins[i]) + x > cap
  }

  /** Bins are opened by ever smaller items, and no item is smaller than the next to come. */
  ghost predicate Opened(bins: seq<Bin>, least: nat) {
    && (forall i, j | 0 <= i < j < |bins| && bins[i] != [] && bins[j] != [] :: bins[i][0] >= bins[j][0])
    && forall i, x | 0 <= i < |bins| && x in bins[i] :: least <= x <= bins[i][0]
  }

  lemma {:induction false} PackTight(sizes: seq<nat>, cap: nat)
    ensures Tight(PackSizes(sizes, cap), cap)
  {
    if sizes != [] {
      var init, size := sizes[..|sizes| - 1], sizes[|sizes| - 1];
      PackTight(init, cap);
      var bins := PackSizes(init, cap);
      var i := FirstRoom(bins, size, cap, 0);
      if i < |bins| { SumAppend(bins[i], [size]); }
    }
  }

  lemma OpenedPlace(bins: seq<Bin>, size: nat, cap: nat)
    requires Opened(bins, size) && forall i | 0 <= i < |bins| :: bins[i] != []
    ensures Opened(PlaceSize(bins, size, cap), size)
  {
    var after := PlaceSize(bins, size, cap);
    forall i | 0 <= i < |bins| ensures after[i] != [] && after[i][0] == bins[i][0] && size <= bins[i][0] {
      assert bins[i][0] in bins[i];
    }
    forall i, x | 0 <= i < |after| && x in after[i] ensures size <= x <= after[i][0] {
      assert i < |bins| && x !in bins[i] ==> x == size;
    }
  }

  lemma {:induction false} PackOpened(sizes: seq<nat>, cap: nat, least: nat)
    requires Descending(sizes) && forall i | 0 <= i < |sizes| :: least <= sizes[i]
    ensures Opened(PackSizes(sizes, cap), least)
  {
    if sizes != [] {
      var init, size := sizes[..|sizes| - 1], sizes[|sizes| - 1];
      PackOpened(init, cap, size);
      PackTight(init, cap);
      OpenedPlace(PackSizes(init, cap), size, cap);
    }
  }

  lemma {:induction false} PackItems(sizes: seq<nat>, cap: nat)
    ensures multiset(Flatten(PackSizes(sizes, cap))) == multiset(sizes)
  {
    if sizes != [] {
      var init, size := sizes[..|sizes| - 1], sizes[|sizes| - 1];
      PackItems(init, cap);
      assert sizes == init + [size];
      var bins := PackSizes(init, cap);
      var i := FirstRoom(bins, size, cap, 0);
      if i < |bins| {
        FlattenUpdate(bins, i, [size]);
      } else {
        FlattenAppend(bins, [[size]]);
        FlattenSingle([size]);
      }
    }
  }

  // ---- what any packing needs ----

  ghost predicate Within(bins: seq<Bin>, cap: nat) {
    forall i | 0 <= i < |bins| :: Sum(bins[i]) <= cap
  }

  lemma {:induction false} TotalWithin(bins: seq<Bin>, cap: nat)
    requires Within(bins, cap)
    ensures Sum(Flatten(bins)) <= |bins| * cap
  {
    if bins != [] {
      TotalWithin(bins[1..], cap);
      SumAppend(bins[0], Flatten(bins[1..]));
      assert Sum(bins[0]) <= cap;
      Step(|bins| - 1, cap, Sum(Flatten(bins)), Sum(Flatten(bins[1..])));
    }
  }

  /** Items larger than half a bin. */
  function Big(sizes: seq<nat>, cap: nat): (r: nat) {
    if sizes == [] then 0 else (if 2 * sizes[0] > cap then 1 else 0) + Big(sizes[1..], cap)
  }

  lemma {:induction false} BigAppend(a: seq<nat>, b: seq<nat>, cap: nat)
    ensures Big(a + b, cap) == Big(a, cap) + Big(b, cap)
  {
    if a == [] {
      assert a + b == b;
    } else {
      assert (a + b)[1..] == a[1..] + b;
      BigAppend(a[1..], b, cap);
    }
  }

  lemma {:induction false} BigPermuted(a: seq<nat>, b: seq<nat>, cap: nat)
    requires multiset(a) == multiset(b)
    ensures Big(a, cap) == Big(b, cap)
    decreases |a|
  {
    SameCount(a, b);
    if a != [] {
      var i := PermutedHead(a, b);
      BigPermuted(a[1..], b[..i] + b[i + 1..], cap);
      BigAppend(b[..i], [b[i]] + b[i + 1..], cap);
      BigAppend(b[..i], b[i + 1..], cap);
    }
  }

  lemma {:induction false} BigInBin(bin: Bin, cap: nat)
    ensures 2 * Sum(bin) >= Big(bin, cap) * (cap + 1)
  {
    if bin != [] {
      BigInBin(bin[1..], cap);
      var rest := Big(bin[1..], cap);
      assert (rest + 1) * (cap + 1) == rest * (cap + 1) + (cap + 1);
    }
  }

  /** A bin within the cap holds at most one big item. */
  lemma {:induction false} BigWithin(bins: seq<Bin>, cap: nat)
    requires Within(bins, cap)
    ensures Big(Flatten(bins), cap) <= |bins|
  {
    if bins != [] {
      BigWithin(bins[1..], cap);
      BigAppend(bins[0], Flatten(bins[1..]), cap);
      var b := Big(bins[0], cap);
      BigInBin(bins[0], cap);
      if b >= 2 {
        MulMonotone(2, b, cap + 1);
        assert false;
      }
    }
  }

  // ---- the bound ----

  /** Each of the first `n` bins was opened by a big item. */
  lemma {:induction false} BigOpeners(bins: seq<Bin>, cap: nat, n: nat)
    requires n <= |bins| && forall i | 0 <= i < n :: bins[i] != [] && 2 * bins[i][0] > cap
    ensures Big(Flatten(bins), cap) >= n
  {
    if n > 0 {
      BigOpeners(bins[1..], cap, n - 1);
      BigAppend(bins[0], Flatten(bins[1..]), cap);
    }
  }

  lemma TwoItems(bin: Bin, y: nat, cap: nat)
    requires bin != [] && 2 * bin[0] <= cap && 2 * y <= cap && Sum(bin) + y > cap
    ensures |bin| >= 2
  {
    assert Sum(bin) == bin[0] + Sum(bin[1..]);
    assert Sum([]) == 0;
  }

  /** Bins opened by small items hold two items each, all but the last. */
  lemma {:induction false} SmallBins(bins: seq<Bin>, cap: nat)
    requires Tight(bins, cap) && bins != [] && forall i | 0 <= i < |bins| :: 2 * bins[i][0] <= cap
    ensures |Flatten(bins)| >= 2 * |bins| - 1
  {
    if |bins| > 1 {
      SmallBins(bins[1..], cap);
      assert bins[1][0] in bins[1];
      TwoItems(bins[0], bins[1][0], cap);
    } else {
      FlattenSingle(bins[0]);
      assert bins == [bins[0]];
    }
  }

  ghost predicate Exceed(front: seq<Bin>, items: seq<nat>, cap: nat) {
    forall bin, x | bin in front && x in items :: Sum(bin) + x > cap
  }

  /** A bin and an item that did not fit into it exceed the cap; so do many. */
  lemma {:induction false} Overflow(front: seq<Bin>, items: seq<nat>, cap: nat)
    requires |items| >= |front| && Exceed(front, items, cap)
    ensures Sum(Flatten(front)) + Sum(items) >= |front| * (cap + 1)
  {
    if front != [] {
      assert front[0] in front && items[0] in items;
      assert forall bin | bin in front[1..] :: bin in front;
      assert forall x | x in items[1..] :: x in items;
      Overflow(front[1..], items[1..], cap);
      SumAppend(front[0], Flatten(front[1..]));
      assert Sum(front[0]) + items[0] > cap;
      Step(|front| - 1, cap + 1, Sum(Flatten(front)) + Sum(items), Sum(Flatten(front[1..])) + Sum(items[1..]));
    }
  }

  lemma {:induction false} FlattenMember<T>(bins: seq<seq<T>>, x: T)
    requires x in Flatten(bins)
    ensures exists j :: 0 <= j < |bins| && x in bins[j]
  {
    if x in bins[0] {
      assert x in bins[0];
    } else {
      FlattenMember(bins[1..], x);
      var j :| 0 <= j < |bins[1..]| && x in bins[1..][j];
      assert x in bins[j + 1];
    }
  }

  /** Nothing from bin `p` on would have fitted into the bins before it. */
  lemma BackOverflows(bins: seq<Bin>, cap: nat, p: nat)
    requires Tight(bins, cap) && p <= |bins|
    ensures Exceed(bins[..p], Flatten(bins[p..]), cap)
  {
    forall bin, x | bin in bins[..p] && x in Flatten(bins[p..]) ensures Sum(bin) + x > cap {
      var i :| 0 <= i < p && bins[i] == bin;
      FlattenMember(bins[p..], x);
      var q :| 0 <= q < |bins[p..]| && x in bins[p..][q];
      assert x in bins[p + q];
    }
  }

  lemma SmallBack(bins: seq<Bin>, cap: nat, p: nat)
    requires Tight(bins, cap) && Opened(bins, 0) && p < |bins| && 2 * bins[p][0] <= cap
    ensures |Flatten(bins[p..])| >= 2 * (|bins| - p) - 1
  {
    var back := bins[p..];
    assert forall j | 0 <= j < |back| :: back[j] == bins[p + j];
    SmallBins(back, cap);
  }

  lemma OverflowFrom(bins: seq<Bin>, cap: nat, p: nat)
    requires p <= |bins| && |Flatten(bins[p..])| >= p && Exceed(bins[..p], Flatten(bins[p..]), cap)
    ensures Sum(Flatten(bins)) >= p * (cap + 1)
  {
    hide Sum, Flatten, Exceed;
    Overflow(bins[..p], Flatten(bins[p..]), cap);
    assert bins == bins[..p] + bins[p..];
    FlattenAppend(bins[..p], bins[p..]);
    SumAppend(Flatten(bins[..p]), Flatten(bins[p..]));
  }

  /** If bin `p` was opened by a small item, the items from there on overflow
      the `p` bins before it. */
  lemma SmallFromOn(bins: seq<Bin>, cap: nat, p: nat)
    requires Tight(bins, cap) && Opened(bins, 0) && p < |bins| && 2 * bins[p][0] <= cap
    requires 2 * |bins| - 1 >= 3 * p
    ensures Sum(Flatten(bins)) >= p * (cap + 1)
  {
    SmallBack(bins, cap, p);
    BackOverflows(bins, cap, p);
    OverflowFrom(bins, cap, p);
  }

  lemma MoreBins(m: nat, p: nat, cap: nat)
    requires p * (cap + 1) <= m * cap && p >= 1
    ensures m >= p + 1
  {
    assert p * (cap + 1) == p * cap + p;
    if m <= p { MulMonotone(m, p, cap); }
  }

  lemma NoEmptyPacking(bins: seq<Bin>, other: seq<Bin>)
    requires bins != [] && bins[0] != [] && multiset(Flatten(bins)) == multiset(Flatten(other))
    ensures other != []
  {
    SameCount(Flatten(bins), Flatten(other));
  }

  lemma BigFront(bins: seq<Bin>, cap: nat, p: nat)
    requires Tight(bins, cap) && Opened(bins, 0) && p < |bins| && 2 * bins[p][0] > cap
    ensures forall i | 0 <= i < p + 1 :: bins[i] != [] && 2 * bins[i][0] > cap
  {
  }

  /** Bin `p` was opened by a big item: there are more than `p` big items. */
  lemma BigCase(bins: seq<Bin>, cap: nat, other: seq<Bin>, p: nat)
    requires Tight(bins, cap) && Opened(bins, 0) && p < |bins| && 2 * bins[p][0] > cap
    requires multiset(Flatten(bins)) == multiset(Flatten(other)) && Within(other, cap)
    ensures |other| >= p + 1
  {
    BigFront(bins, cap, p);
    hide Flatten, Tight, Opened, Within;
    BigOpeners(bins, cap, p + 1);
    BigPermuted(Flatten(bins), Flatten(other), cap);
    BigWithin(other, cap);
  }

  /** Bin `p` was opened by a small item: there is more to pack than `p` bins hold. */
  lemma SmallCase(bins: seq<Bin>, cap: nat, other: seq<Bin>, p: nat)
    requires Tight(bins, cap) && Opened(bins, 0) && p < |bins| && 2 * bins[p][0] <= cap
    requires 2 * |bins| - 1 >= 3 * p
    requires multiset(Flatten(bins)) == multiset(Flatten(other)) && Within(other, cap)
    ensures |other| >= p + 1
  {
    SmallFromOn(bins, cap, p);
    SumPermuted(Flatten(bins), Flatten(other));
    TotalWithin(other, cap);
    NoEmptyPacking(bins, other);
    if p >= 1 { MoreBins(|other|, p, cap); }
  }

  /** Twice the bins of first-fit-decreasing are at most three times the bins of
      any other packing of the same sizes. */
  lemma PackSizesBound(sizes: seq<nat>, cap: nat, other: seq<Bin>)
    requires Descending(sizes)
    requires multiset(Flatten(other)) == multiset(sizes) && Within(other, cap)
    ensures 2 * |PackSizes(sizes, cap)| <= 3 * |other|
  {
    var bins := PackSizes(sizes, cap);
    PackTight(sizes, cap);
    PackOpened(sizes, cap, 0);
    PackItems(sizes, cap);
    if bins != [] {
      var p := (2 * |bins| - 1) / 3;
      if 2 * bins[p][0] > cap {
        BigCase(bins, cap, other, p);
      } else {
        SmallCase(bins, cap, other, p);
      }
    }
  }

  lemma SizesSplit(b: seq<Group>, i: nat)
    requires i < |b|
    ensures Sizes(b) == Sizes(b[..i]) + ([|b[i]|] + Sizes(b[i + 1..]))
    ensures Sizes(b[..i] + b[i + 1..]) == Sizes(b[..i]) + Sizes(b[i + 1..])
  {
  }

  lemma {:induction false} SizesPermuted(a: seq<Group>, b: seq<Group>)
    requires multiset(a) == multiset(b)
    ensures multiset(Sizes(a)) == multiset(Sizes(b))
    decreases |a|
  {
    SameCount(a, b);
    if a != [] {
      var i := PermutedHead(a, b);
      SizesPermuted(a[1..], b[..i] + b[i + 1..]);
      SizesSplit(a, 0);
      SizesSplit(b, i);
      assert a[..0] + a[1..] == a[1..];
    }
  }

  /** The planner packs the tags that fit into at most half as many batches again
      as the best plan that keeps each of these tags in one batch. */
  lemma PlanNearBest(stubs: seq<Stub>, cap: nat, other: seq<Bin>)
    requires multiset(Flatten(other)) == multiset(Sizes(Packable(Groups(stubs), cap))) && Within(other, cap)
    ensures 2 * |Packed(stubs, cap)| <= 3 * |other|
  {
    var packable := Packable(Groups(stubs), cap);
    var sorted := Sort(packable, Decreasing);
    assert TotalPreorder(Decreasing);
    SortSorted(packable, Decreasing);
    SortMultiset(packable, Decreasing);
    SortMembers(packable, Decreasing);
    SizesPermuted(sorted, packable);
    PackLoads(sorted, cap);
    forall i, j | 0 <= i < j < |sorted| ensures |sorted[i]| >= |sorted[j]| { assert Decreasing(sorted[i], sorted[j]); }
    hide Packable, Groups, Sort, PackSizes;
    PackSizesBound(Sizes(sorted), cap, other);
  }
}
