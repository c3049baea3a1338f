/** What the virtio handshake guarantees in every run. */
module VirtioTheorems {
  import opened Basics
  import opened VirtioDesc
  import opened Virtio
  import opened VirtioProofs

  /** No panic, no malformed chain and no failed allocation, whatever the interleaving: the
      ignored result of alloc3_desc is always success, and free_chain always finds exactly
      the request's three descriptors. */
  lemma NeverBroken(run: seq<State>, acts: seq<Act>, n: nat)
    requires IsRun(run, acts) && n <= |acts|
    ensures Shape(run[n]) && !run[n].broken
    ensures run[n].drv.Locked? ==> Can(run[n], Alloc([0, 1, 2]))
    ensures run[n].drv.Awake? ==> |run[n].drv.idx| == 3 && Can(run[n], FreeChain(run[n].drv.idx))
    ensures run[n].drv.Awake? ==> forall ids :: Can(run[n], FreeChain(ids)) ==> ids == run[n].drv.idx
  {
    hide Init, Counts, Rings, Transfer, Step;
    RunInv(run, acts, n);
    var s := run[n];
    if s.drv.Awake? {
      ChainIs(s, s.drv.r, s.drv.idx);
      forall ids | Can(s, FreeChain(ids)) ensures ids == s.drv.idx { OnlyChain(s, s.drv.r, s.drv.idx, ids); }
    }
  }

  /** Whenever the disk mutex is free, all eight descriptors are. */
  lemma AllFreeUnlocked(run: seq<State>, acts: seq<Act>, n: nat)
    requires IsRun(run, acts) && n <= |acts| && run[n].drv.Out?
    ensures run[n].table.AllFree()
  {
    hide IsRun, Counts, Rings, Transfer;
    RunInv(run, acts, n);
  }

  /** virtio_disk_rw goes past its sleep only after its own request was carried out: the
      block, or the page, is the one asked for and nothing else on the disk has changed. */
  lemma ReturnsAfterOwn(run: seq<State>, acts: seq<Act>, n: nat)
    requires IsRun(run, acts) && n <= |acts| && (run[n].drv.Awake? || run[n].drv.Freed?)
    ensures var s := run[n];
            && Moved(s, s.drv.r) && |s.published| > 0 && s.published[|s.published| - 1] == s.drv.r
            && s.slept == s.woken == s.posted == |s.published|
  {
    hide IsRun, Descs, Moved;
    RunInv(run, acts, n);
  }

  /** Completions are consumed in order and exactly once: the handler has woken once for
      each posted entry it has passed, never more than were posted, and everything
      published has been consumed whenever the mutex is free. */
  lemma ConsumedOnce(run: seq<State>, acts: seq<Act>, n: nat)
    requires IsRun(run, acts) && n <= |acts|
    ensures var s := run[n];
            && s.slept <= s.woken <= s.posted <= |s.published| <= s.slept + 1
            && s.seen == (s.woken - (if s.hdl.Woken? then 1 else 0)) % TWO16 && s.usedIdx == s.posted % TWO16
            && (s.drv.Out? ==> s.slept == s.woken == s.posted == |s.published| && s.intr == 0)
  {
    hide IsRun, Descs, Rings, Transfer;
    RunInv(run, acts, n);
  }

  // ---- the sleep always ends ----

  function DevWork(d: Dev): nat {
    match d
    case DevIdle => 0
    case Got(_) => 14
    case Served(_) => 13
    case Posted => 7
  }

  function HdlWork(h: Hdl): nat {
    match h
    case HIdle => 0
    case Check => 3
    case Read(_) => 2
    case Woken => 4
  }

  /** The work left for device and handler. */
  function Rank(s: State): int {
    16 * (|s.published| - s.taken) + DevWork(s.dev) + 5 * (s.posted - s.woken) + (if s.pending then 6 else 0) + HdlWork(s.hdl)
  }

  /** A sleeping caller is woken: every device or handler step shortens the work left, and
      when none of them can step the sleep returns, also when the interrupt came first. */
  lemma SleepEnds(run: seq<State>, acts: seq<Act>, n: nat)
    requires IsRun(run, acts) && n <= |acts| && run[n].drv.Published?
    ensures Shape(run[n]) && 0 <= Rank(run[n])
    ensures (forall a :: (ByDevice(a) || ByHandler(a)) ==> !Can(run[n], a)) ==> Can(run[n], Sleep)
    ensures forall a :: (ByDevice(a) || ByHandler(a)) && Can(run[n], a) ==>
              Rank(Step(run[n], a)) < Rank(run[n]) && Step(run[n], a).drv == run[n].drv
  {
    hide Init, Rank, Step, Can;
    RunInv(run, acts, n);
    Stuck(run[n]);
    forall a | (ByDevice(a) || ByHandler(a)) && Can(run[n], a)
      ensures Rank(Step(run[n], a)) < Rank(run[n]) && Step(run[n], a).drv == run[n].drv { RankFalls(run[n], a); }
  }

  lemma Stuck(s: State)
    requires Inv(s) && s.drv.Published?
    ensures 0 <= Rank(s)
    ensures (forall a :: (ByDevice(a) || ByHandler(a)) ==> !Can(s, a)) ==> Can(s, Sleep)
  {
    hide Descs, Rings, Transfer;
    if s.intr == 0 { var a := Helper(s); }
  }

  /** Without a wake-up in store, device or handler can step. */
  lemma Helper(s: State) returns (a: Act)
    requires Inv(s) && s.drv.Published? && s.intr == 0
    ensures (ByDevice(a) || ByHandler(a)) && Can(s, a)
  {
    hide Descs, Rings, Transfer;
    Window(s);
    if s.dev.Got? { a := DevServe; }
    else if s.dev.Served? { a := DevPost; }
    else if s.dev.Posted? { a := DevRaise; }
    else if s.taken < |s.published| { a := DevTake; }
    else { a := match s.hdl { case HIdle => HStart case Check => HCheck case Read(_) => HWake case Woken => HNext }; }
  }

  lemma RankFalls(s: State, a: Act)
    requires Inv(s) && Can(s, a) && (ByDevice(a) || ByHandler(a))
    ensures Rank(Step(s, a)) < Rank(s) && Step(s, a).drv == s.drv
  {
    hide IsChain, FirstThree, GiveAll, Serve, Chained, Descs, Transfer;
    Window(s);
    ServeFrame(s);
    if a.HWake? { NoPanicAt(s); }
  }

  lemma NoPanicAt(s: State)
    requires Inv(s) && s.hdl.Read?
    ensures s.hdl.id < NUM && s.status[s.hdl.id] == 0
  {
    hide Transfer;
  }

  // ---- one call of virtio_disk_rw ----

  /** The steps of virtio_disk_rw; the rest of `ByDriver` is other code. */
  predicate OfCall(a: Act) { ByDriver(a) && !a.Other? }

  /** Steps of the driver until virtio_disk_rw returns. */
  function CallLeft(d: Drv): nat {
    match d
    case Out => 0
    case Freed(_) => 1
    case Awake(_, _) => 2
    case Published(_, _) => 3
    case Ringed(_, _) => 4
    case Formatted(_, _) => 5
    case Ready(_, _) => 6
    case Locked(_) => 7
  }

  /** Inside a call every driver step takes one off what is left, no other step changes it, and
      except for its sleep, which `SleepEnds` speaks of, the driver can always take its next step. */
  lemma CallEnds(run: seq<State>, acts: seq<Act>, n: nat)
    requires IsRun(run, acts) && n <= |acts| && !run[n].drv.Out?
    ensures Shape(run[n])
    ensures forall a :: Can(run[n], a) ==> CallLeft(Step(run[n], a).drv) == CallLeft(run[n].drv) - (if OfCall(a) then 1 else 0)
    ensures run[n].drv.Published? || exists a :: OfCall(a) && Can(run[n], a)
  {
    hide Init, Counts, Rings, Transfer, Step;
    RunInv(run, acts, n);
    var s := run[n];
    forall a | Can(s, a) ensures CallLeft(Step(s, a).drv) == CallLeft(s.drv) - (if OfCall(a) then 1 else 0) { CallStep(s, a); }
    if !s.drv.Published? {
      var a := NextDriver(s);
    }
  }

  lemma CallStep(s: State, a: Act)
    requires Inv(s) && Can(s, a) && !s.drv.Out?
    ensures CallLeft(Step(s, a).drv) == CallLeft(s.drv) - (if OfCall(a) then 1 else 0)
  {
    hide IsChain, FirstThree, GiveAll, Serve, Chained, Counts, Descs, Rings, Transfer, Take;
    ServeFrame(s);
  }

  lemma NextDriver(s: State) returns (a: Act)
    requires Inv(s) && !s.drv.Out? && !s.drv.Published?
    ensures OfCall(a) && Can(s, a)
  {
    hide Counts, Rings, Transfer;
    match s.drv
    case Locked(_) => a := Alloc([0, 1, 2]);
    case Ready(_, _) => a := Format;
    case Formatted(_, _) => a := Ring;
    case Ringed(_, _) => a := Publish;
    case Awake(r, idx) => ChainIs(s, r, idx); a := FreeChain(idx);
    case Freed(_) => a := Unlock;
  }

  /** The call that began at step `k` is still going on with the same request. */
  predicate InCall(s0: State, s: State, r: Req) {
    !s.drv.Out? && s.drv.r == r && r.page in s0.mem && s.blocks0 == s0.blocks && s.page0 == s0.mem[r.page]
  }

  lemma InCallStep(s0: State, s: State, a: Act, r: Req)
    requires Inv(s) && Can(s, a) && InCall(s0, s, r)
    ensures Step(s, a).drv.Out? || InCall(s0, Step(s, a), r)
  {
    hide IsChain, FirstThree, GiveAll, Chained, Counts, Descs, Rings, Transfer, Take;
    ServeFrame(s);
  }

  lemma {:induction false} StaysInCall(run: seq<State>, acts: seq<Act>, k: nat, m: nat, r: Req)
    requires IsRun(run, acts) && k < m <= |acts| && acts[k] == Lock(r) && forall x :: k < x <= m ==> !run[x].drv.Out?
    ensures InCall(run[k], run[m], r)
  {
    hide Inv, Init;
    assert Shape(run[m - 1]) && Can(run[m - 1], acts[m - 1]) && run[m - 1 + 1] == Step(run[m - 1], acts[m - 1]);
    if m > k + 1 {
      hide Step, Can;
      StaysInCall(run, acts, k, m - 1, r);
      RunInv(run, acts, m - 1);
      InCallStep(run[k], run[m - 1], acts[m - 1], r);
    }
  }

  /** virtio_disk_rw does what it was called for: when the call that locked the disk returns, a
      write has put the caller's page into its block and changed no other block, and a read has
      put the block into the caller's page and changed no block. */
  lemma CallDoes(run: seq<State>, acts: seq<Act>, k: nat, n: nat, r: Req)
    requires IsRun(run, acts) && k < n <= |acts| && acts[k] == Lock(r) && run[n].drv.Out?
    requires forall x :: k < x < n ==> !run[x].drv.Out?
    ensures r.bno < |run[k].blocks| && r.page in run[k].mem && r.page in run[n].mem
    ensures r.write ==> run[n].blocks == run[k].blocks[r.bno := run[k].mem[r.page]] && run[n].mem[r.page] == run[k].mem[r.page]
    ensures !r.write ==> run[n].blocks == run[k].blocks && run[n].mem[r.page] == run[k].blocks[r.bno]
  {
    hide Inv, Init;
    assert Shape(run[k]) && Can(run[k], acts[k]) && run[k + 1] == Step(run[k], acts[k]);
    assert k + 1 != n;
    StaysInCall(run, acts, k, n - 1, r);
    RunInv(run, acts, n - 1);
    assert Shape(run[n - 1]) && Can(run[n - 1], acts[n - 1]) && run[n - 1 + 1] == Step(run[n - 1], acts[n - 1]);
    UnlockIs(run[n - 1], acts[n - 1]);
    hide IsRun, Can, Step;
    ReturnsFrom(run[n - 1]);
  }

  lemma UnlockIs(s: State, a: Act)
    requires Shape(s) && Can(s, a) && !s.drv.Out? && Step(s, a).drv.Out?
    ensures s.drv.Freed? && Step(s, a).blocks == s.blocks && Step(s, a).mem == s.mem
  {
    hide IsChain, FirstThree, GiveAll, Chained, Take;
    ServeDriver(s);
  }

  lemma ServeDriver(s: State)
    requires Shape(s)
    ensures s.dev.Got? ==> Serve(s, s.dev.head).drv == s.drv
  {
  }

  lemma ReturnsFrom(s: State)
    requires Inv(s) && s.drv.Freed?
    ensures Moved(s, s.drv.r)
  {
    hide Counts, Descs, Rings, Moved;
  }

  // ---- what the device accepts ----

  /** The device carries out a chain exactly when it has three descriptors, an operation on a
      block of the disk, a page and a status byte, and the page may be written exactly for a read;
      a head outside the table breaks it. */
  lemma ServeAccepts(s: State, ids: seq<nat>)
    requires Shape(s) && !s.broken && IsChain(s.table, ids)
    ensures !Serve(s, ids[0]).broken <==>
            && |ids| == 3
            && var (d0, d1, d2) := (s.table.desc[ids[0]], s.table.desc[ids[1]], s.table.desc[ids[2]]);
               && d0.addr.OpsAt? && d0.addr.i < NUM && d1.addr.PageAt? && d1.addr.page in s.mem && d1.len == 4096 && d2.addr.StatusAt? && d2.addr.i < NUM
               && s.ops[d0.addr.i].sector / 8 < |s.blocks| && (s.ops[d0.addr.i].write <==> d1.flags / 2 % 2 == 0)
    ensures forall head :: head >= NUM ==> Serve(s, head).broken
  {
    var d := s.table.desc[ids[0]];
    if |ids| > 1 {
      assert d.next == ids[1] && HasNext(d);
      var e := s.table.desc[ids[1]];
      assert HasNext(e) <==> |ids| > 2;
      if |ids| > 2 {
        assert e.next == ids[2];
        assert HasNext(s.table.desc[ids[2]]) <==> |ids| > 3;
      }
    }
  }
}
