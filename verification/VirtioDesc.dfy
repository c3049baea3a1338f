/** The descriptor table of the virtio disk driver. */
module VirtioDesc {
  import opened Basics

  const NUM: nat := 8
  const F_NEXT: nat := 1
  const F_WRITE: nat := 2

  /** What a descriptor points at: a request header, a data page, a status byte. */
  datatype Ptr = Null | OpsAt(i: nat) | PageAt(page: nat) | StatusAt(i: nat)

  /** struct virtq_desc */
  datatype Desc = Desc(addr: Ptr, len: nat, flags: nat, next: nat)

  const CLEAR: Desc := Desc(Null, 0, 0, 0)

  predicate HasNext(d: Desc) { d.flags % 2 == 1 }

  /** The table and its free marks as a value. */
  datatype Table = Table(free: seq<bool>, desc: seq<Desc>) {
    predicate Shape() { |free| == NUM && |desc| == NUM }

    /** Everything free. */
    predicate AllFree() { Shape() && forall i :: 0 <= i < NUM ==> free[i] }
  }

  /** The indices in use. */
  ghost function InUse(t: Table): set<nat>
    requires t.Shape()
  {
    set i: nat | i < NUM && !t.free[i]
  }

  /** The first free index from `lo` on. */
  function FirstFree(free: seq<bool>, lo: nat): (r: Option<nat>)
    requires |free| == NUM
    decreases NUM - lo
  {
    if lo >= NUM then None else if free[lo] then Some(lo) else FirstFree(free, lo + 1)
  }

  lemma {:induction false} FirstFreeIs(free: seq<bool>, lo: nat)
    requires |free| == NUM
    ensures FirstFree(free, lo).None? ==> forall k :: lo <= k < NUM ==> !free[k]
    ensures FirstFree(free, lo).Some? ==> var r := FirstFree(free, lo).value; lo <= r < NUM && free[r] && forall k :: lo <= k < r ==> !free[k]
    decreases NUM - lo
  {
    if lo < NUM && !free[lo] { FirstFreeIs(free, lo + 1); }
  }

  function Take(t: Table, i: nat): Table
    requires i < |t.free|
  {
    t.(free := t.free[i := false])
  }

  function Give(t: Table, i: nat): Table
    requires i < |t.free| && i < |t.desc|
  {
    Table(t.free[i := true], t.desc[i := CLEAR])
  }

  // ---- chains ----

  /** `ids` is a chain of descriptors in use: each but the last names the following one. */
  predicate IsChain(t: Table, ids: seq<nat>) {
    && t.Shape() && |ids| > 0
    && (forall k :: 0 <= k < |ids| ==> ids[k] < NUM && !t.free[ids[k]])
    && (forall k, m :: 0 <= k < m < |ids| ==> ids[k] != ids[m])
    && (forall k :: 0 <= k < |ids| ==> (HasNext(t.desc[ids[k]]) <==> k < |ids| - 1))
    && (forall k :: 0 <= k < |ids| - 1 ==> t.desc[ids[k]].next == ids[k + 1])
  }

  /** The table with the descriptors of `ids` freed, in order. */
  function GiveAll(t: Table, ids: seq<nat>): (r: Table)
    requires t.Shape() && forall k :: 0 <= k < |ids| ==> ids[k] < NUM
    ensures r.Shape()
    decreases |ids|
  {
    if ids == [] then t else Give(GiveAll(t, ids[..|ids| - 1]), ids[|ids| - 1])
  }

  /** Freeing changes exactly the listed descriptors. */
  lemma {:induction false} GiveAllIs(t: Table, ids: seq<nat>, i: nat)
    requires t.Shape() && (forall k :: 0 <= k < |ids| ==> ids[k] < NUM) && i < NUM
    ensures GiveAll(t, ids).free[i] == (t.free[i] || i in ids)
    ensures GiveAll(t, ids).desc[i] == if i in ids then CLEAR else t.desc[i]
    decreases |ids|
  {
    if ids != [] {
      var n := |ids| - 1;
      GiveAllIs(t, ids[..n], i);
      assert ids == ids[..n] + [ids[n]];
    }
  }

  // ---- the operations in place ----

  class Queue {
    const free: array<bool>
    const desc: array<Desc>

    /** virtio_disk_init: all descriptors start out unused. */
    constructor ()
      ensures fresh(free) && fresh(desc) && Valid() && Val().AllFree()
    {
      free := new bool[NUM](i => true);
      desc := new Desc[NUM](i => CLEAR);
    }

    ghost predicate Valid() { free.Length == NUM && desc.Length == NUM }

    ghost function Val(): Table
      reads free, desc
    {
      Table(free[..], desc[..])
    }

    /** alloc_desc: the lowest free index, or -1 when there is none. */
    method AllocDesc() returns (r: int)
      requires Valid()
      modifies free
      ensures r == -1 <==> InUse(old(Val())) == Indices()
      ensures r == -1 ==> Val() == old(Val())
      ensures r != -1 ==> 0 <= r < NUM && FirstFree(old(free[..]), 0) == Some(r) && old(free[r]) && Val() == Take(old(Val()), r)
    {
      ghost var before := free[..];
      FirstFreeIs(before, 0);
      var i := 0;
      while i < NUM
        invariant i <= NUM && free[..] == before && forall k :: 0 <= k < i ==> !before[k]
      {
        if free[i] {
          free[i] := false;
          assert i !in InUse(old(Val())) && i in Indices();
          return i;
        }
        i := i + 1;
      }
      r := -1;
    }

    /** free_desc; true stands for one of its panics. */
    method FreeDesc(i: nat) returns (panicked: bool)
      requires Valid()
      modifies free, desc
      ensures panicked <==> i >= NUM || old(free[i])
      ensures Val() == if panicked then old(Val()) else Give(old(Val()), i)
    {
      if i >= NUM { return true; }
      if free[i] { return true; }
      desc[i] := CLEAR;
      free[i] := true;
      panicked := false;
    }

    /** free_chain: terminates on every table, since a second visit panics, and frees
        exactly the chain without reaching a panic. */
    method FreeChain(head: nat, ghost ids: seq<nat>) returns (panicked: bool)
      requires Valid()
      modifies free, desc
      ensures IsChain(old(Val()), ids) && ids[0] == head ==> !panicked && Val() == GiveAll(old(Val()), ids)
    {
      ghost var t := Val();
      ghost var ok := IsChain(t, ids) && ids[0] == head;
      ghost var k := 0;
      var i: nat := head;
      panicked := false;
      assert ok ==> ids[..0] == [];
      while true
        invariant Val().Shape() && 0 <= k && !panicked
        invariant ok ==> k < |ids| && i == ids[k] && Val() == GiveAll(t, ids[..k])
        decreases |InUse(Val())|
      {
        if i >= NUM {
          panicked := true;
          assert !ok;
          return;
        }
        var flag, nxt := desc[i].flags, desc[i].next;
        ghost var now := Val();
        assert ok ==> now.desc[i] == t.desc[i] && !now.free[i] by {
          if ok { ChainRest(t, ids, k); }
        }
        panicked := FreeDesc(i);
        if panicked { return; }
        UseLess(now, i);
        assert ok ==> ids[..k + 1][..k] == ids[..k] && ids[..k + 1][k] == i;
        k := k + 1;
        if flag % 2 == 1 {
          i := nxt;
        } else {
          assert ok ==> ids[..k] == ids;
          break;
        }
      }
    }

    /** The rollback loop of alloc3_desc. */
    method FreeAll(idx: seq<nat>, ghost t: Table)
      requires Valid() && t.Shape() && Apart(t, idx) && InUse(Val()) == InUse(t) + Members(idx)
      modifies free, desc
      ensures InUse(Val()) == InUse(t)
    {
      hide InUse, Members, Apart;
      var j := 0;
      assert idx[0..] == idx;
      while j < |idx|
        invariant j <= |idx| && InUse(Val()) == InUse(t) + Members(idx[j..])
      {
        ghost var was := Val();
        InUseOne(t, was, idx, j);
        var stop := FreeDesc(idx[j]);
        GiveUse(was, idx[j]);
        MembersStep(t, idx, j);
        j := j + 1;
      }
      MembersNone(idx[j..]);
    }

    /** alloc3_desc: three descriptors, or none at all. */
    method Alloc3Desc() returns (r: int, idx: seq<nat>)
      requires Valid()
      modifies free, desc
      ensures r == 0 <==> |Indices() - InUse(old(Val()))| >= 3
      ensures r == 0 ==> |idx| == 3 && FirstThree(old(Val()), idx) && Val() == Take(Take(Take(old(Val()), idx[0]), idx[1]), idx[2])
      ensures r != 0 ==> r == -1 && InUse(Val()) == InUse(old(Val()))
    {
      hide InUse, Members, Indices, TakenFrom, FirstThree, Apart, FirstFree;
      ghost var t := Val();
      TakeNone(t);
      idx := [];
      var i := 0;
      while i < 3
        invariant i <= 3 && |idx| == i && desc[..] == t.desc && TakenFrom(t, Val(), idx)
      {
        ghost var now := Val();
        var d := AllocDesc();
        if d < 0 {
          NoneLeft(t, now, idx);
          FreeAll(idx, t);
          return -1, idx;
        }
        TakeOne(t, now, idx, d);
        idx := idx + [d];
        i := i + 1;
      }
      ThreeTaken(t, Val(), idx);
      r := 0;
    }
  }

  ghost function Indices(): set<nat> { {0, 1, 2, 3, 4, 5, 6, 7} }

  ghost function Members(ids: seq<nat>): set<nat> { set i | i in ids }

  /** `ids` are free in `t`, without repetition. */
  ghost predicate Apart(t: Table, ids: seq<nat>) {
    t.Shape() && (forall k :: 0 <= k < |ids| ==> ids[k] < NUM && t.free[ids[k]]) && forall k, m :: 0 <= k < m < |ids| ==> ids[k] != ids[m]
  }

  /** `u` is `t` with `ids` taken, each the lowest index free at its turn. */
  ghost predicate TakenFrom(t: Table, u: Table, ids: seq<nat>) {
    && Apart(t, ids) && u.Shape() && (forall i :: 0 <= i < NUM ==> u.free[i] == (t.free[i] && i !in ids))
    && (forall k, m :: 0 <= k < m < |ids| ==> ids[k] < ids[m])
    && forall i: nat :: i < NUM && t.free[i] && i !in ids ==> forall k :: 0 <= k < |ids| ==> ids[k] < i
  }

  /** The three lowest free indices, in ascending order. */
  ghost predicate FirstThree(t: Table, idx: seq<nat>) {
    && |idx| == 3 && t.Shape() && idx[0] < idx[1] < idx[2] < NUM && t.free[idx[0]] && t.free[idx[1]] && t.free[idx[2]]
    && forall i: nat :: i < idx[2] && t.free[i] ==> i == idx[0] || i == idx[1]
  }

  lemma UseLess(t: Table, i: nat)
    requires t.Shape() && i < NUM && !t.free[i]
    ensures |InUse(Give(t, i))| < |InUse(t)|
  {
    assert InUse(Give(t, i)) == InUse(t) - {i};
  }

  lemma ChainRest(t: Table, ids: seq<nat>, k: nat)
    requires IsChain(t, ids) && k < |ids|
    ensures GiveAll(t, ids[..k]).desc[ids[k]] == t.desc[ids[k]] && !GiveAll(t, ids[..k]).free[ids[k]]
  {
    GiveAllIs(t, ids[..k], ids[k]);
  }

  lemma TakeOne(t: Table, u: Table, ids: seq<nat>, d: nat)
    requires TakenFrom(t, u, ids) && FirstFree(u.free, 0) == Some(d) && d < NUM && u.free[d]
    ensures TakenFrom(t, Take(u, d), ids + [d])
  {
    FirstFreeIs(u.free, 0);
  }

  lemma NoneLeft(t: Table, u: Table, ids: seq<nat>)
    requires TakenFrom(t, u, ids) && InUse(u) == Indices() && |ids| < 3
    ensures Apart(t, ids) && InUse(u) == InUse(t) + Members(ids) && |Indices() - InUse(t)| < 3
  {
    hide Indices;
    forall i: nat ensures i in Indices() <==> i < NUM { IsIndex(i); }
    assert InUse(u) == InUse(t) + Members(ids);
    assert Indices() - InUse(t) == Members(ids);
    MembersCount(ids);
  }

  lemma IsIndex(i: nat)
    ensures i in Indices() <==> i < NUM
  {
  }

  lemma {:induction false} MembersCount(ids: seq<nat>)
    ensures |Members(ids)| <= |ids|
  {
    if ids != [] {
      MembersCount(ids[1..]);
      assert Members(ids) == {ids[0]} + Members(ids[1..]);
    }
  }

  lemma InUseOne(t: Table, u: Table, ids: seq<nat>, j: nat)
    requires Apart(t, ids) && j < |ids| && u.Shape() && InUse(u) == InUse(t) + Members(ids[j..])
    ensures ids[j] < NUM && !u.free[ids[j]] && ids[j] !in InUse(t)
  {
    assert ids[j..][0] == ids[j];
    assert ids[j] in InUse(u);
  }

  lemma GiveUse(t: Table, i: nat)
    requires t.Shape() && i < NUM
    ensures InUse(Give(t, i)) == InUse(t) - {i}
  {
  }

  lemma MembersNone(ids: seq<nat>)
    requires |ids| == 0
    ensures Members(ids) == {}
  {
  }

  lemma TakeNone(t: Table)
    requires t.Shape()
    ensures TakenFrom(t, t, [])
  {
  }

  lemma MembersStep(t: Table, ids: seq<nat>, j: nat)
    requires j < |ids| && Apart(t, ids)
    ensures ids[j] !in InUse(t) && Members(ids[j..]) == {ids[j]} + Members(ids[j + 1..]) && ids[j] !in Members(ids[j + 1..])
  {
    assert ids[j..] == [ids[j]] + ids[j + 1..];
  }

  lemma ThreeTaken(t: Table, u: Table, ids: seq<nat>)
    requires TakenFrom(t, u, ids) && |ids| == 3 && u.desc == t.desc
    ensures FirstThree(t, ids) && u == Take(Take(Take(t, ids[0]), ids[1]), ids[2]) && |Indices() - InUse(t)| >= 3
  {
    assert ids[0] in ids && ids[1] in ids && ids[2] in ids;
    assert u.free == t.free[ids[0] := false][ids[1] := false][ids[2] := false];
    var three := {ids[0], ids[1], ids[2]};
    assert three <= Indices() - InUse(t);
    Bigger(three, Indices() - InUse(t));
  }

  lemma Bigger(a: set<nat>, b: set<nat>)
    requires a <= b
    ensures |a| <= |b|
  {
    assert b == a + (b - a);
  }
}
