/** Every step keeps the handshake. */
module VirtioProofs {
  import opened Basics
  import opened VirtioDesc
  import opened Virtio

  lemma Mod16(n: nat)
    ensures (n % TWO16 + 1) % TWO16 == (n + 1) % TWO16 && n % TWO16 % NUM == n % NUM
  {
    Multiple(n / TWO16 * 8192, n % TWO16);
  }

  lemma Multiple(k: nat, r: nat)
    ensures (k * NUM + r) % NUM == r % NUM
  {
  }

  /** Indices that are less than 2^16 apart differ exactly when the counts do. */
  lemma Differ(a: nat, b: nat)
    requires a <= b < a + TWO16
    ensures a % TWO16 == b % TWO16 <==> a == b
  {
  }

  /** At most two completions are ever unseen. */
  lemma Window(s: State)
    requires Shape(s) && Counts(s)
    ensures |s.published| <= s.slept + 1 && s.posted <= s.woken + 1
    ensures s.lastAvail != s.availIdx <==> s.taken < |s.published|
    ensures s.hdl.Check? ==> (s.seen != s.usedIdx <==> s.woken < s.posted)
  {
    Differ(s.taken, |s.published|);
    if s.hdl.Check? { Differ(s.woken, s.posted); }
  }

  predicate ByDriver(a: Act) {
    a.Lock? || a.Alloc? || a.Format? || a.Ring? || a.Publish? || a.Sleep? || a.FreeChain? || a.Unlock? || a.Other?
  }

  lemma CountsDriver(s: State, a: Act)
    requires Shape(s) && Counts(s) && Can(s, a) && ByDriver(a)
    ensures Counts(Step(s, a))
  {
    hide IsChain, FirstThree, GiveAll, Serve, Chained;
    Mod16(|s.published|);
    assert s.drv.Ringed? ==> s.posted == s.slept;
  }

  predicate ByDevice(a: Act) { a.DevTake? || a.DevServe? || a.DevPost? || a.DevRaise? }

  predicate ByHandler(a: Act) { a.HStart? || a.HCheck? || a.HWake? || a.HNext? }

  lemma CountsDevice(s: State, a: Act)
    requires Shape(s) && Counts(s) && Can(s, a) && ByDevice(a)
    ensures Counts(Step(s, a))
  {
    hide IsChain, FirstThree, GiveAll, Serve, Chained;
    Window(s);
    Mod16(s.taken);
    Mod16(s.posted);
    ServeFrame(s);
  }

  lemma CountsHandler(s: State, a: Act)
    requires Shape(s) && Counts(s) && Can(s, a) && ByHandler(a)
    ensures Counts(Step(s, a))
  {
    hide IsChain, FirstThree, GiveAll, Serve, Chained;
    if a.HNext? { CountsNext(s); } else { Window(s); }
  }

  lemma CountsNext(s: State)
    requires Shape(s) && Counts(s) && s.hdl.Woken?
    ensures Counts(Step(s, HNext))
  {
    hide IsChain, FirstThree, GiveAll, Serve, Chained;
    Mod16(s.woken - 1);
  }

  /** A transfer touches only the disk, the page and the status byte. */
  lemma ServeFrame(s: State)
    requires Shape(s)
    ensures s.dev.Got? ==> var r := Serve(s, s.dev.head);
                           r == s.(blocks := r.blocks, mem := r.mem, status := r.status, broken := r.broken) && |r.blocks| == |s.blocks|
  {
  }

  // ---- descriptors ----

  lemma Take3(t: Table, ids: seq<nat>)
    requires t.AllFree() && FirstThree(t, ids)
    ensures Holds(Take(Take(Take(t, ids[0]), ids[1]), ids[2]), ids)
  {
  }

  /** The only chain that starts where the request starts is the request's. */
  lemma OnlyChain(s: State, r: Req, idx: seq<nat>, ids: seq<nat>)
    requires Shape(s) && Idx(idx) && ChainFor(s, r, idx) && IsChain(s.table, ids) && ids[0] == idx[0]
    ensures ids == idx
  {
    assert HasNext(s.table.desc[ids[0]]) && HasNext(s.table.desc[idx[1]]) && !HasNext(s.table.desc[idx[2]]);
    assert |ids| > 1 && ids[1] == idx[1];
    assert |ids| > 2 && ids[2] == idx[2];
  }

  /** And it is one: free_chain cannot panic. */
  lemma ChainIs(s: State, r: Req, idx: seq<nat>)
    requires Shape(s) && Holds(s.table, idx) && ChainFor(s, r, idx)
    ensures IsChain(s.table, idx)
  {
    assert idx[0] in idx && idx[1] in idx && idx[2] in idx;
  }

  lemma Give3(t: Table, idx: seq<nat>)
    requires Holds(t, idx)
    ensures GiveAll(t, idx).AllFree()
  {
    forall i: nat | i < NUM ensures GiveAll(t, idx).free[i] { GiveAllIs(t, idx, i); }
  }

  lemma DescsStep(s: State, a: Act)
    requires Shape(s) && Descs(s) && Can(s, a)
    ensures Shape(Step(s, a)) && Descs(Step(s, a))
  {
    hide IsChain, FirstThree, GiveAll, Serve, Holds, Chained;
    match a
    case Alloc(ids) => Take3(s.table, ids);
    case Format => FormatOk(s);
    case FreeChain(ids) => OnlyChain(s, s.drv.r, s.drv.idx, ids); Give3(s.table, ids);
    case _ => SameTable(s, a); HoldsIdx(s);
  }

  lemma HoldsIdx(s: State)
    requires Shape(s) && Descs(s)
    ensures HasIdx(s.drv) ==> Idx(s.drv.idx)
  {
  }

  /** The other steps leave the descriptors alone. */
  lemma SameTable(s: State, a: Act)
    requires Shape(s) && Can(s, a) && !a.Alloc? && !a.Format? && !a.FreeChain?
    ensures Shape(Step(s, a)) && Step(s, a).table == s.table && Step(s, a).ops == s.ops
    ensures HasIdx(Step(s, a).drv) == HasIdx(s.drv) && (HasIdx(s.drv) ==> Step(s, a).drv.idx == s.drv.idx && Step(s, a).drv.r == s.drv.r)
    ensures Step(s, a).drv.Ready? <==> s.drv.Ready?
  {
    hide IsChain, FirstThree, GiveAll, Serve, Chained;
    ServeFrame(s);
  }

  lemma FormatOk(s: State)
    requires Shape(s) && s.drv.Ready? && Holds(s.table, s.drv.idx)
    ensures Shape(Step(s, Format)) && Holds(Step(s, Format).table, s.drv.idx) && ChainFor(Step(s, Format), s.drv.r, s.drv.idx)
  {
  }

  // ---- the transfer ----

  /** The block the device reads out of the request header is the one asked for. */
  lemma SectorBlock(bno: nat)
    ensures Sector(bno) / 8 == bno <==> bno < TWO32 / 8
  {
    assert bno < TWO32 / 8 ==> 8 * bno < TWO32;
  }

  lemma ServeIs(s: State)
    requires Inv(s) && s.dev.Got?
    ensures var s' := Serve(s, s.dev.head); s.drv.Published? && !s'.broken && s'.status == s.status[s.drv.idx[0] := 0] && Moved(s', s.drv.r)
  {
    SectorBlock(s.drv.r.bno);
    assert s.drv.Published? && !Done(s);
    assert Idx(s.drv.idx);
  }

  lemma TransferDriver(s: State, a: Act)
    requires Inv(s) && Can(s, a) && ByDriver(a)
    ensures Transfer(Step(s, a))
  {
    hide IsChain, FirstThree, GiveAll, Serve, Holds, Descs, Rings, Chained;
  }

  lemma TransferServe(s: State)
    requires Inv(s) && s.dev.Got?
    ensures Transfer(Step(s, DevServe))
  {
    hide IsChain, FirstThree, GiveAll, Serve, Holds, Descs, Rings, Chained;
    ServeFrame(s);
    ServeIs(s);
  }

  lemma TransferRest(s: State, a: Act)
    requires Inv(s) && Can(s, a) && (ByDevice(a) || ByHandler(a)) && !a.DevServe?
    ensures Transfer(Step(s, a))
  {
    hide IsChain, FirstThree, GiveAll, Serve, Holds, Descs, Rings, Chained, Moved, Still;
    assert Step(s, a).mem == s.mem && Step(s, a).blocks == s.blocks && Step(s, a).blocks0 == s.blocks0 && Step(s, a).page0 == s.page0;
    if !s.drv.Out? { SameData(s, Step(s, a), s.drv.r); }
  }

  lemma SameData(s: State, s': State, r: Req)
    requires s'.mem == s.mem && s'.blocks == s.blocks && s'.blocks0 == s.blocks0 && s'.page0 == s.page0
    ensures Moved(s', r) == Moved(s, r) && Still(s', r) == Still(s, r)
  {
  }

  // ---- the rings ----

  lemma RingsDriver(s: State, a: Act)
    requires Inv(s) && Can(s, a) && ByDriver(a) && Shape(Step(s, a)) && Descs(Step(s, a))
    ensures Rings(Step(s, a)) && !Step(s, a).broken
  {
    hide IsChain, FirstThree, GiveAll, Serve, Holds, Transfer, Chained;
    Mod16(|s.published|);
  }

  lemma RingsDevice(s: State, a: Act)
    requires Inv(s) && Can(s, a) && ByDevice(a) && Shape(Step(s, a)) && Descs(Step(s, a))
    ensures Rings(Step(s, a)) && !Step(s, a).broken
  {
    hide IsChain, FirstThree, GiveAll, Serve, Transfer, Chained, Moved;
    ServeFrame(s);
    if s.dev.Got? { ServeIs(s); }
    Window(s);
    Mod16(s.taken);
    Mod16(s.posted);
  }

  lemma RingsHandler(s: State, a: Act)
    requires Inv(s) && Can(s, a) && ByHandler(a) && Shape(Step(s, a)) && Descs(Step(s, a))
    ensures Rings(Step(s, a)) && !Step(s, a).broken
  {
    hide IsChain, FirstThree, GiveAll, Serve, Transfer, Chained, Moved;
    Window(s);
    Mod16(s.woken);
    assert s.hdl.Read? ==> s.drv.Published? && s.posted == |s.published|;
  }

  lemma AtGot(s: State)
    requires Shape(s) && Can(s, DevServe)
    ensures s.dev.Got?
  {
  }

  /** Every step keeps the invariant. */
  lemma StepInv(s: State, a: Act)
    requires Inv(s) && Can(s, a)
    ensures Inv(Step(s, a))
  {
    hide Can, Step, Counts, Descs, Transfer, Rings;
    DescsStep(s, a);
    if ByDriver(a) { TransferDriver(s, a); } else if a.DevServe? { AtGot(s); TransferServe(s); } else { TransferRest(s, a); }
    if ByDriver(a) { CountsDriver(s, a); RingsDriver(s, a); } else if ByDevice(a) { CountsDevice(s, a); RingsDevice(s, a); } else { CountsHandler(s, a); RingsHandler(s, a); }
  }

  lemma InitInv(s: State)
    requires Init(s)
    ensures Inv(s)
  {
  }

  lemma {:induction false} RunInv(run: seq<State>, acts: seq<Act>, n: nat)
    requires IsRun(run, acts) && n <= |acts|
    ensures Inv(run[n])
    decreases n
  {
    hide Inv, Can, Step, Init;
    if n == 0 {
      InitInv(run[0]);
    } else {
      RunInv(run, acts, n - 1);
      StepInv(run[n - 1], acts[n - 1]);
    }
  }
}
