/** Which operations form a group, and where a group goes
    (analyze/classify.py, `plan_classify_batches`). */
module BatchRules {
  import opened Wrappers
  import opened StableSort
  import opened Names
  import opened Batches

  /** Operations are grouped by tag; those with an empty one or none are a group. */
  ghost predicate InGroup(s: Stub, tag: string) {
    s.tag == Some(tag) || (tag == "" && s.tag.None?)
  }

  lemma {:induction false} GroupAppend(a: seq<Stub>, b: seq<Stub>, tag: string)
    ensures WithTag(a + b, tag) == WithTag(a, tag) + WithTag(b, tag)
  {
    if b == [] {
      assert a + b == a;
    } else {
      assert (a + b)[..|a + b| - 1] == a + b[..|b| - 1];
      GroupAppend(a, b[..|b| - 1], tag);
    }
  }

  /** A group holds its operations, in the order they come in. */
  lemma {:induction false} GroupMeaning(stubs: seq<Stub>, tag: string)
    ensures forall s :: s in WithTag(stubs, tag) <==> s in stubs && InGroup(s, tag)
    ensures forall s: Stub :: WithTag([s], tag) == if InGroup(s, tag) then [s] else []
    ensures forall a, b :: WithTag(a + b, tag) == WithTag(a, tag) + WithTag(b, tag)
  {
    if stubs != [] {
      var init, last := stubs[..|stubs| - 1], stubs[|stubs| - 1];
      assert stubs == init + [last];
      GroupMeaning(init, tag);
    }
    forall s: Stub ensures WithTag([s], tag) == if InGroup(s, tag) then [s] else [] {
      assert [s][..0] == [] && WithTag([], tag) == [];
    }
    forall a, b ensures WithTag(a + b, tag) == WithTag(a, tag) + WithTag(b, tag) { GroupAppend(a, b, tag); }
  }

  ghost predicate FirstAt(stubs: seq<Stub>, tag: string, i: int) {
    0 <= i < |stubs| && InGroup(stubs[i], tag) && forall k | 0 <= k < i :: !InGroup(stubs[k], tag)
  }

  lemma FirstAtMore(stubs: seq<Stub>, s: Stub, tag: string, i: int)
    ensures FirstAt(stubs, tag, i) ==> FirstAt(stubs + [s], tag, i)
  {
  }

  lemma FirstOfNew(stubs: seq<Stub>, s: Stub)
    requires s.Tag() !in TagOrder(stubs)
    ensures FirstAt(stubs + [s], s.Tag(), |stubs|)
  {
    TagOrderComplete(stubs);
    forall k | 0 <= k < |stubs| ensures !InGroup((stubs + [s])[k], s.Tag()) { assert (stubs + [s])[k] == stubs[k]; }
  }

  lemma TagOrderStep(stubs: seq<Stub>, s: Stub)
    ensures TagOrder(stubs + [s]) == TagOrder(stubs) + if s.Tag() in TagOrder(stubs) then [] else [s.Tag()]
  {
    assert (stubs + [s])[..|stubs|] == stubs;
  }

  /** The groups come in the order of their first operations. */
  lemma {:induction false} GroupOrder(stubs: seq<Stub>, i: nat, j: nat) returns (p: int, q: int)
    requires i < j < |TagOrder(stubs)|
    ensures FirstAt(stubs, TagOrder(stubs)[i], p) && FirstAt(stubs, TagOrder(stubs)[j], q) && p < q
  {
    var n := |stubs| - 1;
    var init, last := stubs[..n], stubs[n];
    var order := TagOrder(init);
    assert stubs == init + [last];
    TagOrderStep(init, last);
    hide TagOrder, FirstAt;
    if j < |order| {
      p, q := GroupOrder(init, i, j);
      FirstAtMore(init, last, order[i], p);
      FirstAtMore(init, last, order[j], q);
    } else {
      p := Earliest(init, order[i]);
      FirstAtMore(init, last, order[i], p);
      FirstOfNew(init, last);
      q := n;
      FirstIndex(init, order[i], p);
    }
  }

  lemma FirstIndex(stubs: seq<Stub>, tag: string, i: int)
    requires FirstAt(stubs, tag, i)
    ensures 0 <= i < |stubs|
  {
  }

  lemma {:induction false} Earliest(stubs: seq<Stub>, tag: string) returns (i: int)
    requires tag in TagOrder(stubs)
    ensures FirstAt(stubs, tag, i)
  {
    var n := |stubs| - 1;
    assert stubs == stubs[..n] + [stubs[n]];
    if tag in TagOrder(stubs[..n]) {
      i := Earliest(stubs[..n], tag);
      FirstAtMore(stubs[..n], stubs[n], tag, i);
    } else {
      i := n;
      TagOrderComplete(stubs[..n]);
      forall k | 0 <= k < n ensures !InGroup(stubs[k], tag) { assert stubs[k] == stubs[..n][k]; }
    }
  }

  // ---- what the plan is made of ----


  /** A batch of whole groups, larger ones first. */
  ghost predicate MadeOf(batch: Group, groups: seq<Group>) {
    && groups != [] && batch == Flatten(groups)
    && forall i, j | 0 <= i < j < |groups| :: |groups[i]| >= |groups[j]|
  }

  ghost predicate AllMadeOf(bins: seq<Group>, parts: seq<seq<Group>>) {
    |bins| == |parts| && forall i | 0 <= i < |bins| :: MadeOf(bins[i], parts[i])
  }

  lemma PlaceMadeOf(bins: seq<Group>, parts: seq<seq<Group>>, group: Group, cap: nat) returns (more: seq<seq<Group>>)
    requires AllMadeOf(bins, parts)
    requires forall p, g | p in parts && g in p :: |g| >= |group|
    ensures AllMadeOf(Place(bins, group, cap), more)
    ensures forall p, g | p in more && g in p :: g == group || exists q :: q in parts && g in q
  {
    var i := FirstFit(bins, group, cap, 0);
    if i < |bins| {
      more := parts[i := parts[i] + [group]];
      assert parts[i] in parts;
      FlattenAppend(parts[i], [group]);
      FlattenSingle(group);
      forall p, g | p in more && g in p ensures g == group || exists q :: q in parts && g in q {
        var k :| 0 <= k < |more| && more[k] == p;
        assert parts[k] in parts;
      }
    } else {
      more := parts + [[group]];
      FlattenSingle(group);
    }
  }

  /** Every packed batch is made of whole groups, larger ones first. */
  lemma {:induction false} PackMadeOf(groups: seq<Group>, cap: nat) returns (parts: seq<seq<Group>>)
    requires forall i, j | 0 <= i < j < |groups| :: |groups[i]| >= |groups[j]|
    ensures AllMadeOf(Pack(groups, cap), parts)
    ensures forall p, g | p in parts && g in p :: g in groups
  {
    if groups == [] {
      parts := [];
    } else {
      var n := |groups| - 1;
      assert groups == groups[..n] + [groups[n]];
      var before := PackMadeOf(groups[..n], cap);
      parts := PlaceMadeOf(Pack(groups[..n], cap), before, groups[n], cap);
    }
  }

  /** The plan: first the tags too large for a batch, sliced, in their order; then
      batches made of whole groups, larger ones first. */
  lemma PlanMeaning(stubs: seq<Stub>, cap: nat) returns (split: seq<Group>, bins: seq<Group>, parts: seq<seq<Group>>)
    requires cap >= 1
    ensures Plan(stubs, cap) == split + bins && AllMadeOf(bins, parts)
    ensures split == Slices(stubs, TagOrder(stubs), cap)
    ensures forall p, g | p in parts && g in p :: exists t | t in TagOrder(stubs) :: g == WithTag(stubs, t) && |g| <= cap
  {
    var groups := Groups(stubs);
    split, bins := Oversized(groups, cap), Packed(stubs, cap);
    OversizedSlices(stubs, TagOrder(stubs), cap);
    var packable := Packable(groups, cap);
    SizeOrder();
    SortSorted(packable, Decreasing);
    SortMembers(packable, Decreasing);
    PackableMembers(groups, cap);
    hide Pack, Sort, Packable, WithTag, TagOrder;
    parts := PackMadeOf(Sort(packable, Decreasing), cap);
    forall p, g | p in parts && g in p ensures exists t | t in TagOrder(stubs) :: g == WithTag(stubs, t) && |g| <= cap {
      assert g in groups;
      var i :| 0 <= i < |groups| && groups[i] == g;
      assert TagOrder(stubs)[i] in TagOrder(stubs);
    }
  }

  lemma SizeOrder()
    ensures TotalPreorder(Decreasing)
  {
  }

  /** The slices of the oversized groups, tag by tag. */
  ghost function Slices(stubs: seq<Stub>, tags: seq<string>, cap: nat): (r: seq<Group>)
    requires cap >= 1
  {
    if tags == [] then []
    else (if |WithTag(stubs, tags[0])| > cap then Chunks(WithTag(stubs, tags[0]), cap) else []) + Slices(stubs, tags[1..], cap)
  }

  lemma {:induction false} SlicesAppend(stubs: seq<Stub>, tags: seq<string>, tag: string, cap: nat)
    requires cap >= 1
    ensures Slices(stubs, tags + [tag], cap)
         == Slices(stubs, tags, cap) + (if |WithTag(stubs, tag)| > cap then Chunks(WithTag(stubs, tag), cap) else [])
  {
    hide WithTag, Chunks;
    if tags == [] {
      assert [] + [tag] == [tag] && [tag][1..] == [];
    } else {
      assert (tags + [tag])[1..] == tags[1..] + [tag];
      SlicesAppend(stubs, tags[1..], tag, cap);
    }
  }

  lemma {:induction false} OversizedSlices(stubs: seq<Stub>, tags: seq<string>, cap: nat)
    requires cap >= 1
    ensures Oversized(GroupsAt(stubs, tags), cap) == Slices(stubs, tags, cap)
  {
    hide WithTag, Chunks;
    if tags != [] {
      var n := |tags| - 1;
      assert tags == tags[..n] + [tags[n]];
      assert GroupsAt(stubs, tags)[..n] == GroupsAt(stubs, tags[..n]);
      OversizedSlices(stubs, tags[..n], cap);
      SlicesAppend(stubs, tags[..n], tags[n], cap);
    }
  }
}
