/** Tag-aware first-fit-decreasing batching of operations
    (analyze/classify.py, `plan_classify_batches`). */
module Batches {
  import opened Wrappers
  import opened StableSort
  import opened Names

  /** The part of an operation stub the planner reads. */
  datatype Stub = Stub(operationId: string, tag: Option<string>) {
    /** A missing tag and an empty one are the same group. */
    function Tag(): string {
      match tag
      case Some(t) => t
      case None => ""
    }
  }

  type Group = seq<Stub>

  function Flatten<T>(groups: seq<seq<T>>): (r: seq<T>) {
    if groups == [] then [] else groups[0] + Flatten(groups[1..])
  }

  function WithTag(stubs: seq<Stub>, tag: string): (r: Group) {
    if stubs == [] then []
    else
      var init, last := stubs[..|stubs| - 1], stubs[|stubs| - 1];
      WithTag(init, tag) + (if last.Tag() == tag then [last] else [])
  }

  /** The tags in order of first appearance. */
  function TagOrder(stubs: seq<Stub>): (r: seq<string>) {
    if stubs == [] then []
    else
      var order, last := TagOrder(stubs[..|stubs| - 1]), stubs[|stubs| - 1];
      if last.Tag() in order then order else order + [last.Tag()]
  }

  function GroupsAt(stubs: seq<Stub>, order: seq<string>): (r: seq<Group>) {
    seq(|order|, i requires 0 <= i < |order| => WithTag(stubs, order[i]))
  }

  function Groups(stubs: seq<Stub>): (r: seq<Group>) {
    GroupsAt(stubs, TagOrder(stubs))
  }

  /** Consecutive slices of `cap` elements, the last one possibly shorter. */
  function Chunks(group: Group, cap: nat): (r: seq<Group>)
    requires cap >= 1
  {
    if |group| <= cap then (if group == [] then [] else [group])
    else [group[..cap]] + Chunks(group[cap..], cap)
  }

  function Oversized(groups: seq<Group>, cap: nat): (r: seq<Group>)
    requires cap >= 1
  {
    if groups == [] then []
    else
      var init, last := groups[..|groups| - 1], groups[|groups| - 1];
      Oversized(init, cap) + (if |last| > cap then Chunks(last, cap) else [])
  }

  function Packable(groups: seq<Group>, cap: nat): (r: seq<Group>) {
    if groups == [] then []
    else
      var init, last := groups[..|groups| - 1], groups[|groups| - 1];
      Packable(init, cap) + (if |last| > cap then [] else [last])
  }

  /** The first bin at or after `from` with room for `group`, or the number of bins. */
  function FirstFit(bins: seq<Group>, group: Group, cap: nat, from: nat): (i: nat)
    requires from <= |bins|
    ensures from <= i <= |bins|
    ensures forall j | from <= j < i :: |bins[j]| + |group| > cap
    ensures i < |bins| ==> |bins[i]| + |group| <= cap
    decreases |bins| - from
  {
    if from == |bins| || |bins[from]| + |group| <= cap then from
    else FirstFit(bins, group, cap, from + 1)
  }

  function Place(bins: seq<Group>, group: Group, cap: nat): (r: seq<Group>) {
    var i := FirstFit(bins, group, cap, 0);
    if i < |bins| then bins[i := bins[i] + group] else bins + [group]
  }

  function Pack(groups: seq<Group>, cap: nat): (r: seq<Group>) {
    if groups == [] then []
    else Place(Pack(groups[..|groups| - 1], cap), groups[|groups| - 1], cap)
  }

  const Decreasing: Order<Group> := (a, b) => |a| >= |b|

  function Packed(stubs: seq<Stub>, cap: nat): (r: seq<Group>) {
    Pack(Sort(Packable(Groups(stubs), cap), Decreasing), cap)
  }

  function Plan(stubs: seq<Stub>, cap: nat): (r: seq<Group>)
    requires cap >= 1
  {
    Oversized(Groups(stubs), cap) + Packed(stubs, cap)
  }

  // ---- the planner ----

  method GroupByTag(stubs: seq<Stub>) returns (order: seq<string>, groups: map<string, Group>)
    ensures order == TagOrder(stubs)
    ensures forall t :: t in order <==> t in groups
    ensures forall t | t in groups :: groups[t] == WithTag(stubs, t)
  {
    order, groups := [], map[];
    for i := 0 to |stubs|
      invariant order == TagOrder(stubs[..i])
      invariant forall t :: t in order <==> t in groups
      invariant forall t | t in groups :: groups[t] == WithTag(stubs[..i], t)
      invariant forall t | t !in groups :: WithTag(stubs[..i], t) == []
    {
      var tag := stubs[i].Tag();
      assert stubs[..i + 1][..i] == stubs[..i];
      if tag !in groups {
        order := order + [tag];
        groups := groups[tag := []];
      }
      groups := groups[tag := groups[tag] + [stubs[i]]];
    }
    assert stubs[..|stubs|] == stubs;
  }

  method SplitGroup(group: Group, cap: nat) returns (chunks: seq<Group>)
    requires cap >= 1
    ensures chunks == Chunks(group, cap)
  {
    chunks := [];
    var i := 0;
    while i < |group|
      invariant 0 <= i
      invariant chunks + (if i <= |group| then Chunks(group[i..], cap) else []) == Chunks(group, cap)
      decreases |group| - i
    {
      var end := if i + cap <= |group| then i + cap else |group|;
      ghost var rest := group[i..];
      assert rest[..end - i] == group[i..end];
      if i + cap < |group| {
        assert rest[cap..] == group[i + cap..];
        assert Chunks(rest, cap) == [group[i..end]] + Chunks(group[i + cap..], cap);
      } else {
        assert rest == group[i..end];
        assert i + cap == |group| ==> group[i + cap..] == [];
      }
      chunks := chunks + [group[i..end]];
      i := i + cap;
    }
  }

  /** The first bin with room takes the whole group; if none has, a new one. */
  method PackGroups(packable: seq<Group>, cap: nat) returns (packed: seq<Group>)
    ensures packed == Pack(packable, cap)
  {
    packed := [];
    for i := 0 to |packable|
      invariant packed == Pack(packable[..i], cap)
    {
      var group := packable[i];
      assert packable[..i + 1][..i] == packable[..i];
      var b := 0;
      while b < |packed| && |packed[b]| + |group| > cap
        invariant b <= |packed|
        invariant FirstFit(packed, group, cap, b) == FirstFit(packed, group, cap, 0)
      {
        b := b + 1;
      }
      if b < |packed| {
        packed := packed[b := packed[b] + group];
      } else {
        packed := packed + [group];
      }
    }
    assert packable[..|packable|] == packable;
  }

  method PlanClassifyBatches(stubs: seq<Stub>, cap: nat) returns (batches: seq<Group>)
    requires cap >= 1
    ensures batches == Plan(stubs, cap)
  {
    var order, groups := GroupByTag(stubs);
    ghost var all := Groups(stubs);
    var oversized: seq<Group>, packable: seq<Group> := [], [];
    for i := 0 to |order|
      invariant oversized == Oversized(all[..i], cap)
      invariant packable == Packable(all[..i], cap)
    {
      var group := groups[order[i]];
      assert group == all[i];
      assert all[..i + 1][..i] == all[..i];
      if |group| > cap {
        var chunks := SplitGroup(group, cap);
        oversized := oversized + chunks;
      } else {
        packable := packable + [group];
      }
    }
    assert all[..|order|] == all;
    packable := Sort(packable, Decreasing);
    var packed := PackGroups(packable, cap);
    batches := oversized + packed;
  }

  // ---- conservation ----

  lemma {:induction false} FlattenAppend<T>(a: seq<seq<T>>, b: seq<seq<T>>)
    ensures Flatten(a + b) == Flatten(a) + Flatten(b)
  {
    if a == [] {
      assert a + b == b;
    } else {
      assert (a + b)[1..] == a[1..] + b;
      FlattenAppend(a[1..], b);
    }
  }

  lemma FlattenSingle<T>(group: seq<T>)
    ensures Flatten([group]) == group
  {
    assert Flatten([group]) == group + Flatten([group][1..]);
  }

  lemma FlattenLast(groups: seq<Group>)
    requires groups != []
    ensures Flatten(groups) == Flatten(groups[..|groups| - 1]) + groups[|groups| - 1]
  {
    var last := groups[|groups| - 1];
    assert groups == groups[..|groups| - 1] + [last];
    FlattenAppend(groups[..|groups| - 1], [last]);
    FlattenSingle(last);
  }

  lemma {:induction false} ChunksFlatten(group: Group, cap: nat)
    requires cap >= 1
    ensures Flatten(Chunks(group, cap)) == group
  {
    if |group| <= cap {
      if group != [] { assert [group][1..] == []; }
    } else {
      ChunksFlatten(group[cap..], cap);
      assert ([group[..cap]] + Chunks(group[cap..], cap))[1..] == Chunks(group[cap..], cap);
    }
  }

  lemma {:induction false} SplitConserves(groups: seq<Group>, cap: nat)
    requires cap >= 1
    ensures multiset(Flatten(groups))
         == multiset(Flatten(Oversized(groups, cap))) + multiset(Flatten(Packable(groups, cap)))
  {
    if groups != [] {
      var init, last := groups[..|groups| - 1], groups[|groups| - 1];
      SplitConserves(init, cap);
      FlattenLast(groups);
      SplitLast(groups, cap);
    }
  }

  lemma SplitLast(groups: seq<Group>, cap: nat)
    requires cap >= 1 && groups != []
    ensures var init, last := groups[..|groups| - 1], groups[|groups| - 1];
            if |last| > cap then
              && Flatten(Oversized(groups, cap)) == Flatten(Oversized(init, cap)) + last
              && Flatten(Packable(groups, cap)) == Flatten(Packable(init, cap))
            else
              && Flatten(Oversized(groups, cap)) == Flatten(Oversized(init, cap))
              && Flatten(Packable(groups, cap)) == Flatten(Packable(init, cap)) + last
  {
    var init, last := groups[..|groups| - 1], groups[|groups| - 1];
    if |last| > cap {
      ChunksFlatten(last, cap);
      FlattenAppend(Oversized(init, cap), Chunks(last, cap));
      assert Packable(groups, cap) == Packable(init, cap);
    } else {
      FlattenSingle(last);
      FlattenAppend(Packable(init, cap), [last]);
      assert Oversized(groups, cap) == Oversized(init, cap);
    }
  }

  lemma {:induction false} FlattenUpdate<T>(bins: seq<seq<T>>, i: nat, group: seq<T>)
    requires i < |bins|
    ensures multiset(Flatten(bins[i := bins[i] + group])) == multiset(Flatten(bins)) + multiset(group)
  {
    var after := bins[i := bins[i] + group];
    if i == 0 {
      assert after[1..] == bins[1..];
    } else {
      assert after[1..] == bins[1..][i - 1 := bins[1..][i - 1] + group];
      FlattenUpdate(bins[1..], i - 1, group);
    }
  }

  lemma {:induction false} PackConserves(groups: seq<Group>, cap: nat)
    ensures multiset(Flatten(Pack(groups, cap))) == multiset(Flatten(groups))
  {
    if groups != [] {
      var init, last := groups[..|groups| - 1], groups[|groups| - 1];
      PackConserves(init, cap);
      FlattenLast(groups);
      var bins := Pack(init, cap);
      var i := FirstFit(bins, last, cap, 0);
      if i < |bins| {
        FlattenUpdate(bins, i, last);
      } else {
        FlattenAppend(bins, [last]);
        FlattenSingle(last);
      }
    }
  }

  /** The head of `a` stands somewhere in `b`; without it both hold the same. */
  lemma PermutedHead<T>(a: seq<T>, b: seq<T>) returns (i: nat)
    requires a != [] && multiset(a) == multiset(b)
    ensures i < |b| && b[i] == a[0] && multiset(a[1..]) == multiset(b[..i] + b[i + 1..])
    ensures b == b[..i] + ([b[i]] + b[i + 1..])
  {
    assert a[0] in multiset(b);
    i :| 0 <= i < |b| && b[i] == a[0];
    assert a == [a[0]] + a[1..];
    assert b == b[..i] + ([b[i]] + b[i + 1..]);
    assert multiset(a[1..]) == multiset(a) - multiset{a[0]};
  }

  lemma SameCount<T>(a: seq<T>, b: seq<T>)
    requires multiset(a) == multiset(b)
    ensures |a| == |b|
  {
    assert |multiset(a)| == |a|;
    assert |multiset(b)| == |b|;
  }

  /** `Flatten` only counts: reordering the groups reorders nothing else. */
  lemma {:induction false} FlattenPermutation<T>(a: seq<seq<T>>, b: seq<seq<T>>)
    requires multiset(a) == multiset(b)
    ensures multiset(Flatten(a)) == multiset(Flatten(b))
    decreases |a|
  {
    SameCount(a, b);
    if a != [] {
      var i := PermutedHead(a, b);
      FlattenPermutation(a[1..], b[..i] + b[i + 1..]);
      FlattenRemove(b, i);
    }
  }

  lemma {:induction false} FlattenRemove<T>(b: seq<seq<T>>, i: nat)
    requires i < |b|
    ensures multiset(Flatten(b)) == multiset(b[i]) + multiset(Flatten(b[..i] + b[i + 1..]))
  {
    var rest := b[..i] + b[i + 1..];
    if i == 0 {
      assert rest == b[1..];
    } else {
      FlattenRemove(b[1..], i - 1);
      assert rest[1..] == b[1..][..i - 1] + b[1..][i..];
    }
  }

  lemma {:induction false} TagOrderComplete(stubs: seq<Stub>)
    ensures forall i | 0 <= i < |stubs| :: stubs[i].Tag() in TagOrder(stubs)
    ensures Distinct(TagOrder(stubs))
    ensures forall t :: t in TagOrder(stubs) <==> WithTag(stubs, t) != []
  {
    if stubs != [] {
      TagOrderComplete(stubs[..|stubs| - 1]);
    }
  }

  lemma GroupsGrow(stubs: seq<Stub>, order: seq<string>, i: nat)
    requires stubs != [] && i < |order| && order[i] == stubs[|stubs| - 1].Tag()
    requires Distinct(order)
    ensures var before, last := GroupsAt(stubs[..|stubs| - 1], order), stubs[|stubs| - 1];
            GroupsAt(stubs, order) == before[i := before[i] + [last]]
  {
    var before, after := GroupsAt(stubs[..|stubs| - 1], order), GroupsAt(stubs, order);
    var last := stubs[|stubs| - 1];
    forall j | 0 <= j < |order| ensures after[j] == if j == i then before[j] + [last] else before[j] {
      assert after[j] == WithTag(stubs, order[j]);
      assert j != i ==> order[j] != order[i];
    }
  }

  lemma GroupsTake(stubs: seq<Stub>, order: seq<string>)
    requires stubs != [] && Distinct(order) && stubs[|stubs| - 1].Tag() in order
    ensures multiset(Flatten(GroupsAt(stubs, order)))
         == multiset(Flatten(GroupsAt(stubs[..|stubs| - 1], order))) + multiset{stubs[|stubs| - 1]}
  {
    var last := stubs[|stubs| - 1];
    var i :| 0 <= i < |order| && order[i] == last.Tag();
    GroupsGrow(stubs, order, i);
    hide Flatten, Distinct;
    FlattenUpdate(GroupsAt(stubs[..|stubs| - 1], order), i, [last]);
  }

  lemma CountLast<T>(s: seq<T>)
    requires s != []
    ensures multiset(s) == multiset(s[..|s| - 1]) + multiset{s[|s| - 1]}
  {
    assert s == s[..|s| - 1] + [s[|s| - 1]];
  }

  lemma {:induction false} GroupsConserve(stubs: seq<Stub>, order: seq<string>)
    requires Distinct(order)
    requires forall i | 0 <= i < |stubs| :: stubs[i].Tag() in order
    ensures multiset(Flatten(GroupsAt(stubs, order))) == multiset(stubs)
  {
    if stubs == [] {
      EmptyGroups(order);
    } else {
      var init, last := stubs[..|stubs| - 1], stubs[|stubs| - 1];
      assert stubs[|stubs| - 1].Tag() in order;
      GroupsConserve(init, order);
      hide Flatten, GroupsAt, Distinct;
      GroupsTake(stubs, order);
      CountLast(stubs);
    }
  }

  lemma {:induction false} EmptyGroups(order: seq<string>)
    ensures Flatten(GroupsAt([], order)) == []
  {
    if order != [] {
      EmptyGroups(order[1..]);
      assert GroupsAt([], order)[1..] == GroupsAt([], order[1..]);
    }
  }

  /** No operation is lost, invented or duplicated. */
  lemma PlanConserves(stubs: seq<Stub>, cap: nat)
    requires cap >= 1
    ensures multiset(Flatten(Plan(stubs, cap))) == multiset(stubs)
  {
    var groups := Groups(stubs);
    var packable := Packable(groups, cap);
    TagOrderComplete(stubs);
    GroupsConserve(stubs, TagOrder(stubs));
    SplitConserves(groups, cap);
    SortMultiset(packable, Decreasing);
    FlattenPermutation(Sort(packable, Decreasing), packable);
    PackConserves(Sort(packable, Decreasing), cap);
    FlattenAppend(Oversized(groups, cap), Packed(stubs, cap));
  }

  // ---- capacity, and tags that fit ----

  lemma {:induction false} PackableMembers(groups: seq<Group>, cap: nat)
    ensures forall g :: g in Packable(groups, cap) <==> g in groups && |g| <= cap
  {
    if groups != [] {
      var init, last := groups[..|groups| - 1], groups[|groups| - 1];
      PackableMembers(init, cap);
      assert groups == init + [last];
    }
  }

  lemma {:induction false} PackWithin(groups: seq<Group>, cap: nat)
    requires forall g | g in groups :: 0 < |g| <= cap
    ensures forall b | b in Pack(groups, cap) :: 0 < |b| <= cap
  {
    if groups != [] {
      PackWithin(groups[..|groups| - 1], cap);
      assert groups[|groups| - 1] in groups;
    }
  }

  lemma {:induction false} ChunksWithin(group: Group, cap: nat)
    requires cap >= 1
    ensures forall i | 0 <= i < |Chunks(group, cap)| :: 0 < |Chunks(group, cap)[i]| <= cap
    ensures forall i | 0 <= i < |Chunks(group, cap)| - 1 :: |Chunks(group, cap)[i]| == cap
  {
    if |group| > cap {
      ChunksWithin(group[cap..], cap);
    }
  }

  lemma {:induction false} OversizedWithin(groups: seq<Group>, cap: nat)
    requires cap >= 1
    ensures forall b | b in Oversized(groups, cap) :: 0 < |b| <= cap
  {
    if groups != [] {
      var last := groups[|groups| - 1];
      OversizedWithin(groups[..|groups| - 1], cap);
      ChunksWithin(last, cap);
      forall b | b in Oversized(groups, cap) ensures 0 < |b| <= cap {
        if b !in Oversized(groups[..|groups| - 1], cap) {
          var i :| 0 <= i < |Chunks(last, cap)| && Chunks(last, cap)[i] == b;
        }
      }
    }
  }

  lemma PackableGroups(stubs: seq<Stub>, cap: nat)
    ensures forall g | g in Packable(Groups(stubs), cap) :: 0 < |g| <= cap
    ensures forall t | 0 < |WithTag(stubs, t)| <= cap :: WithTag(stubs, t) in Packable(Groups(stubs), cap)
  {
    TagOrderComplete(stubs);
    PackableMembers(Groups(stubs), cap);
    forall g | g in Packable(Groups(stubs), cap) ensures 0 < |g| {
      var i :| 0 <= i < |Groups(stubs)| && Groups(stubs)[i] == g;
      assert TagOrder(stubs)[i] in TagOrder(stubs);
    }
    forall t | 0 < |WithTag(stubs, t)| <= cap
      ensures WithTag(stubs, t) in Packable(Groups(stubs), cap)
    {
      var i :| 0 <= i < |TagOrder(stubs)| && TagOrder(stubs)[i] == t;
      assert Groups(stubs)[i] == WithTag(stubs, t);
    }
  }

  /** Every batch is non-empty and within the cap. */
  lemma PlanWithinCap(stubs: seq<Stub>, cap: nat)
    requires cap >= 1
    ensures forall b | b in Plan(stubs, cap) :: 0 < |b| <= cap
  {
    var packable := Packable(Groups(stubs), cap);
    OversizedWithin(Groups(stubs), cap);
    PackableGroups(stubs, cap);
    SortMembers(packable, Decreasing);
    PackWithin(Sort(packable, Decreasing), cap);
  }

  ghost predicate SliceAt<T>(outer: seq<T>, inner: seq<T>, at: nat) {
    at + |inner| <= |outer| && outer[at..at + |inner|] == inner
  }

  /** `inner` occurs in `outer`, uninterrupted and in order. */
  ghost predicate Occurs<T>(outer: seq<T>, inner: seq<T>) {
    exists at: nat :: SliceAt(outer, inner, at)
  }

  lemma OccursWider<T>(left: seq<T>, right: seq<T>, inner: seq<T>)
    requires Occurs(left, inner) || Occurs(right, inner)
    ensures Occurs(left + right, inner)
  {
    if Occurs(left, inner) {
      var at: nat :| SliceAt(left, inner, at);
      assert (left + right)[at..at + |inner|] == left[at..at + |inner|];
      assert SliceAt(left + right, inner, at);
    } else {
      var at: nat :| SliceAt(right, inner, at);
      assert (left + right)[|left| + at..|left| + at + |inner|] == right[at..at + |inner|];
      assert SliceAt(left + right, inner, |left| + at);
    }
  }

  lemma OccursSelf<T>(inner: seq<T>)
    ensures Occurs(inner, inner)
  {
    assert SliceAt(inner, inner, 0);
  }

  /** Some batch holds the whole of `group`. */
  ghost predicate HeldWhole(batches: seq<Group>, group: Group) {
    exists b | b in batches :: Occurs(b, group)
  }

  lemma {:induction false} PackHoldsWhole(groups: seq<Group>, cap: nat, group: Group)
    requires group in groups
    ensures HeldWhole(Pack(groups, cap), group)
  {
    var init, last := groups[..|groups| - 1], groups[|groups| - 1];
    var bins := Pack(init, cap);
    var i := FirstFit(bins, last, cap, 0);
    var after := Pack(groups, cap);
    OccursSelf(last);
    if group == last {
      if i < |bins| {
        OccursWider(bins[i], last, last);
        assert bins[i] + last == after[i];
        assert after[i] in after;
      } else {
        assert after[|bins|] == last;
      }
    } else {
      assert groups == init + [last];
      PackHoldsWhole(init, cap, group);
      var b :| b in bins && Occurs(b, group);
      var j :| 0 <= j < |bins| && bins[j] == b;
      OccursWider(b, last, group);
      assert after[j] == b || after[j] == b + last;
      assert after[j] in after;
    }
  }

  lemma {:induction false} OversizedHolds(groups: seq<Group>, cap: nat, group: Group)
    requires cap >= 1 && group in groups && |group| > cap
    ensures Occurs(Oversized(groups, cap), Chunks(group, cap))
  {
    var init, last := groups[..|groups| - 1], groups[|groups| - 1];
    var tail := if |last| > cap then Chunks(last, cap) else [];
    assert Oversized(groups, cap) == Oversized(init, cap) + tail;
    hide Chunks, Oversized, Occurs;
    if group == last {
      OccursSelf(tail);
    } else {
      assert groups == init + [last];
      OversizedHolds(init, cap, group);
    }
    OccursWider(Oversized(init, cap), tail, Chunks(group, cap));
  }

  lemma FittingTag(stubs: seq<Stub>, cap: nat, tag: string)
    requires 0 < |WithTag(stubs, tag)| <= cap
    ensures HeldWhole(Packed(stubs, cap), WithTag(stubs, tag))
  {
    var packable := Packable(Groups(stubs), cap);
    PackableGroups(stubs, cap);
    SortMembers(packable, Decreasing);
    PackHoldsWhole(Sort(packable, Decreasing), cap, WithTag(stubs, tag));
  }

  lemma OversizedTag(stubs: seq<Stub>, cap: nat, tag: string)
    requires cap >= 1 && |WithTag(stubs, tag)| > cap
    ensures Occurs(Oversized(Groups(stubs), cap), Chunks(WithTag(stubs, tag), cap))
  {
    TagOrderComplete(stubs);
    var i :| 0 <= i < |TagOrder(stubs)| && TagOrder(stubs)[i] == tag;
    assert Groups(stubs)[i] == WithTag(stubs, tag);
    OversizedHolds(Groups(stubs), cap, WithTag(stubs, tag));
  }

  /** A tag that fits under the cap is never split; one that does not is cut
      into consecutive full slices, which are batches of their own. */
  lemma PlanKeepsTags(stubs: seq<Stub>, cap: nat, tag: string)
    requires cap >= 1
    ensures 0 < |WithTag(stubs, tag)| <= cap ==> HeldWhole(Plan(stubs, cap), WithTag(stubs, tag))
    ensures |WithTag(stubs, tag)| > cap ==> Occurs(Plan(stubs, cap), Chunks(WithTag(stubs, tag), cap))
  {
    var group, over, packed := WithTag(stubs, tag), Oversized(Groups(stubs), cap), Packed(stubs, cap);
    hide WithTag, Groups, Oversized, Packed, Chunks, Occurs;
    if 0 < |group| <= cap {
      FittingTag(stubs, cap, tag);
      var b :| b in packed && Occurs(b, group);
      assert b in over + packed;
    } else if |group| > cap {
      OversizedTag(stubs, cap, tag);
      OccursWider(over, packed, Chunks(group, cap));
    }
  }

  // ---- near-optimality ----

  /** Any two bins overflow together: the later one was opened because the
      earlier had no room for its first group. */
  ghost predicate PairwiseFull(bins: seq<Group>, cap: nat) {
    forall i, j | 0 <= i < j < |bins| :: |bins[i]| + |bins[j]| > cap
  }

  lemma {:induction false} PackPairwiseFull(groups: seq<Group>, cap: nat)
    ensures PairwiseFull(Pack(groups, cap), cap)
  {
    if groups != [] {
      PackPairwiseFull(groups[..|groups| - 1], cap);
    }
  }

  lemma {:induction false} PairsFill(bins: seq<Group>, cap: nat)
    requires PairwiseFull(bins, cap) && |bins| >= 1
    ensures 2 * |Flatten(bins)| >= (|bins| - 1) * (cap + 1) + |bins[0]| + |bins[|bins| - 1]|
  {
    if |bins| == 1 {
      assert Flatten(bins) == bins[0] + Flatten(bins[1..]);
    } else {
      var n, rest := |bins| - 2, bins[1..];
      PairsFill(rest, cap);
      assert |bins[0]| + |bins[1]| >= cap + 1;
      assert |Flatten(bins)| == |bins[0]| + |Flatten(rest)|;
      assert (n + 1) * (cap + 1) == n * (cap + 1) + (cap + 1);
    }
  }

  lemma FullBins(bins: seq<Group>, cap: nat)
    requires PairwiseFull(bins, cap) && |bins| >= 2
    ensures |bins| * (cap + 1) <= 2 * |Flatten(bins)|
  {
    PairsFill(bins, cap);
    var n, total := |bins| - 1, 2 * |Flatten(bins)|;
    assert |bins[0]| + |bins[n]| >= cap + 1;
    hide Flatten;
    Step(n, cap + 1, total, n * (cap + 1));
  }

  /** How many operations the packer handles. */
  lemma PackedTotal(stubs: seq<Stub>, cap: nat)
    ensures |Flatten(Packed(stubs, cap))| == |Flatten(Packable(Groups(stubs), cap))|
  {
    var packable := Packable(Groups(stubs), cap);
    var sorted := Sort(packable, Decreasing);
    PackConserves(sorted, cap);
    SortMultiset(packable, Decreasing);
    FlattenPermutation(sorted, packable);
    SameCount(Flatten(Packed(stubs, cap)), Flatten(packable));
  }

  /** Twice the packed operations fill `cap + 1` per bin ... */
  lemma PackedFill(stubs: seq<Stub>, cap: nat)
    requires |Packed(stubs, cap)| >= 2
    ensures |Packed(stubs, cap)| * (cap + 1) <= 2 * |Flatten(Packable(Groups(stubs), cap))|
  {
    var bins := Packed(stubs, cap);
    PackPairwiseFull(Sort(Packable(Groups(stubs), cap), Decreasing), cap);
    PackedTotal(stubs, cap);
    assert PairwiseFull(bins, cap);
    hide Packed, Flatten, Packable, Groups;
    FullBins(bins, cap);
  }

  lemma {:induction false} BinsHold(bins: seq<Group>, cap: nat)
    requires forall b | b in bins :: |b| <= cap
    ensures |Flatten(bins)| <= |bins| * cap
  {
    if bins != [] {
      assert bins[0] in bins;
      BinsHold(bins[1..], cap);
      Step(|bins| - 1, cap, |Flatten(bins)|, |Flatten(bins[1..])|);
    }
  }

  lemma Step(n: nat, c: nat, total: nat, rest: nat)
    ensures rest >= n * c && total >= rest + c ==> total >= (n + 1) * c
    ensures rest <= n * c && total <= rest + c ==> total <= (n + 1) * c
  {
  }

  lemma MulMonotone(a: nat, b: nat, c: nat)
    requires a <= b
    ensures a * c <= b * c
  {
  }

  lemma NotTwice(k: nat, m: nat, cap: nat)
    requires k >= 1 && k * (cap + 1) <= 2 * (m * cap)
    ensures k < 2 * m
  {
    if k >= 2 * m {
      MulMonotone(2 * m, k, cap);
      assert false;
    }
  }

  /** ... so fewer than twice as many bins are used as by any packing at all of
      the same operations, even one that splits tags. */
  lemma PackedNearOptimal(stubs: seq<Stub>, cap: nat, other: seq<Group>)
    requires multiset(Flatten(other)) == multiset(Flatten(Packable(Groups(stubs), cap)))
    requires forall b | b in other :: |b| <= cap
    ensures Packed(stubs, cap) != [] ==> |Packed(stubs, cap)| < 2 * |other|
  {
    var packable := Packable(Groups(stubs), cap);
    var bins := Packed(stubs, cap);
    SameCount(Flatten(other), Flatten(packable));
    BinsHold(other, cap);
    if |bins| >= 2 {
      PackedFill(stubs, cap);
      NotTwice(|bins|, |other|, cap);
    } else if |bins| == 1 {
      PackableGroups(stubs, cap);
      SortMembers(packable, Decreasing);
      PackWithin(Sort(packable, Decreasing), cap);
      PackedTotal(stubs, cap);
      assert bins[0] in bins;
      assert |Flatten(bins)| >= |bins[0]| > 0;
    }
  }
}
