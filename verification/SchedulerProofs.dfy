/** Every step keeps the invariant: one lemma per program counter. */
module SchedulerProofs {
  import opened Basics
  import opened Scheduler
  import opened SchedulerInvariant
  import opened SchedulerFrames

  lemma InitInv()
    ensures Inv(Init())
  {
  }

  // ---- spin_lock and spin_unlock ----

  /** The standing of a hart after a lock step follows from its standing before. */
  predicate CurMove(h: Hart, h': Hart) {
    h.thread.None? || CurOf(h'.pc) == CurOf(h.pc) || (CurOf(h.pc).Left? && CurOf(h'.pc).Stale?)
  }

  lemma PairsQuiet(cpu: seq<Hart>, thr: map<Tid, Thread>, c: Cpu, h: Hart)
    requires c < |cpu| && Pairs(cpu, thr) && h.thread == cpu[c].thread
    requires SubjOf(h.pc) == SubjOf(cpu[c].pc) && CurMove(cpu[c], h)
    ensures Pairs(cpu[c := h], thr)
  {
    forall t | t in thr ensures HartRel(c, h, t, thr[t]) {
      assert HartRel(c, cpu[c], t, thr[t]);
    }
  }

  /** A change of hart, lock word and load counter. */
  ghost predicate QuietChange(st: State, st': State, c: Cpu, h: Hart) {
    && c < |st.cpu| && h.thread == st.cpu[c].thread
    && st' == st.(cpu := st.cpu[c := h], lock := st'.lock, loadCpu := st'.loadCpu) && -1 <= st'.loadCpu < NCPU
  }

  lemma ShapedHart(st: State, st': State, c: Cpu, h: Hart)
    requires Shaped(st) && QuietChange(st, st', c, h) && PcMove(st.cpu[c], h) && PcSids(h.pc) <= st.sem.Keys
    ensures Shaped(st')
  {
  }

  predicate Quiet(h: Hart, h': Hart) {
    h'.thread == h.thread && SubjOf(h'.pc) == SubjOf(h.pc) && CurMove(h, h') && PcMove(h, h')
  }

  lemma QuietInv(st: State, st': State, c: Cpu, h: Hart)
    requires Inv(st) && QuietChange(st, st', c, h) && Quiet(st.cpu[c], h) && PcSids(h.pc) <= st.sem.Keys && Locks(st'.cpu, st'.lock)
    ensures Inv(st')
  {
    hide Locks, Harts, Tails, Pairs, Threads, RunQueues, OutLists, WaitQueues, Sems, SemPairs, Owed, HartRel, SemRel, CountsOk, MutexOk, HartOk, Holds, ThreadOk;
    ShapedHart(st, st', c, h);
    HartsKept(st.cpu, c, h);
    TailsKept(st.cpu, st.run, c, h);
    PairsQuiet(st.cpu, st.thr, c, h);
    SemPairsKept(st.cpu, st.sem, c, h);
  }

  lemma TakeQuiet(c: Cpu, h: Hart)
    requires HartOk(h) && LockMove(c, h).Take? && DstOk(h.pc)
    ensures var m := LockMove(c, h); Quiet(h, h.(pc := m.to)) && PcSids(m.to) <= PcSids(h.pc)
    ensures var m := LockMove(c, h); Holds(c, m.to) == Holds(c, h.pc) + {m.l}
  {
  }

  lemma GiveQuiet(c: Cpu, h: Hart)
    requires HartOk(h) && LockMove(c, h).Give? && DstOk(h.pc)
    ensures var m := LockMove(c, h); Quiet(h, h.(pc := m.to)) && PcSids(m.to) <= PcSids(h.pc)
    ensures var m := LockMove(c, h); m.l in Holds(c, h.pc) && Holds(c, m.to) == Holds(c, h.pc) - {m.l}
  {
  }

  lemma HartInv(st: State, c: Cpu)
    requires Inv(st) && c < NCPU
    ensures HartOk(st.cpu[c]) && DstOk(st.cpu[c].pc) && PcSids(st.cpu[c].pc) <= st.sem.Keys
  {
    assert HartShaped(st, st.cpu[c]);
  }

  lemma LockStepInv(st: State, c: Cpu)
    requires Inv(st) && c < NCPU && Unblocked(st, c) && !LockMove(c, st.cpu[c]).NoMove?
    ensures Inv(LockStep(st, c))
  {
    HartInv(st, c);
    var h, m := st.cpu[c], LockMove(c, st.cpu[c]);
    if m.Take? {
      TakeQuiet(c, h);
      LocksTaken(st.cpu, st.lock, c, m.l, h.(pc := m.to));
    } else {
      GiveQuiet(c, h);
      LocksGiven(st.cpu, st.lock, c, m.l, h.(pc := m.to));
    }
    QuietInv(st, LockStep(st, c), c, h.(pc := m.to));
  }

  // ---- steps that change one thread record under its lock ----

  /** The part of a step that concerns the hart and the thread alone. */
  predicate Core(c: Cpu, h: Hart, h': Hart, t: Tid, r: Thread, r': Thread) {
    && ThreadLock(t) in Holds(c, h.pc) && Holds(c, h'.pc) == Holds(c, h.pc)
    && HartOk(h') && OtherSame(h, h', t) && MayChange(c, r, r') && HartRel(c, h', t, r')
    && ThreadOk(r') && r'.affinity == r.affinity
    && PcTids(h'.pc) <= {t} && PcSids(h'.pc) <= PcSids(h.pc) && DstOk(h'.pc)
    && (h'.thread == h.thread || h'.thread == Some(t))
    && !h'.pc.Picked? && !h'.pc.Unlink?
  }

  lemma ThreadCore(st: State, c: Cpu, h: Hart, t: Tid, r: Thread)
    requires Inv(st) && c < NCPU && t in st.thr && Core(c, st.cpu[c], h, t, st.thr[t], r)
    ensures Locks(st.cpu[c := h], st.lock) && Harts(st.cpu[c := h])
    ensures Pairs(st.cpu[c := h], st.thr[t := r]) && Threads(st.thr[t := r])
  {
    LocksKept(st.cpu, st.lock, c, h);
    HartsKept(st.cpu, c, h);
    LockExclusive(st.cpu, st.lock, c, ThreadLock(t));
    PairsLocked(st.cpu, st.thr, c, h, t, r);
    ThreadsKept(st.thr, t, r);
  }

  /** The state after such a step. */
  function Changed(st: State, c: Cpu, h: Hart, t: Tid, r: Thread): State
    requires c < |st.cpu|
  {
    st.(cpu := st.cpu[c := h], thr := st.thr[t := r])
  }

  lemma ShapedChanged(st: State, c: Cpu, h: Hart, t: Tid, r: Thread)
    requires Shaped(st) && c < NCPU && t in st.thr && Core(c, st.cpu[c], h, t, st.thr[t], r)
    requires r.granted.None? || r.granted == st.thr[t].granted
    ensures Shaped(Changed(st, c, h, t, r))
  {
    assert HartShaped(st, st.cpu[c]) && ThreadShaped(st, st.thr[t]);
  }

  lemma ChangedInv(st: State, c: Cpu, h: Hart, t: Tid, r: Thread)
    requires Inv(st) && c < NCPU && t in st.thr && Core(c, st.cpu[c], h, t, st.thr[t], r)
    requires SameList(st.thr[t], r) && r.granted == st.thr[t].granted && SemSame(st.cpu[c], h)
    ensures Inv(Changed(st, c, h, t, r))
  {
    ThreadCore(st, c, h, t, r);
    ShapedChanged(st, c, h, t, r);
    TailsKept(st.cpu, st.run, c, h);
    ListsKept(st, st.thr[t := r], t, r);
    SemPairsKept(st.cpu, st.sem, c, h);
    OwedKept(st.sem, st.thr, t, r);
  }

  /** The same, for a step that also moves the thread from one list to another. */
  lemma FiledInv(st: State, st': State, c: Cpu, h: Hart, t: Tid, r: Thread)
    requires Inv(st) && c < NCPU && t in st.thr && Core(c, st.cpu[c], h, t, st.thr[t], r)
    requires r.granted == st.thr[t].granted && SemSame(st.cpu[c], h)
    requires st' == Changed(st, c, h, t, r).(run := st'.run, out := st'.out)
    requires |st'.run| == |st'.out| == NCPU && Tails(st'.cpu, st'.run)
    requires RunQueues(st'.run, st'.thr) && OutLists(st'.out, st'.thr) && WaitQueues(st.sem, st'.thr)
    ensures Inv(st')
  {
    hide Locks, Harts, Tails, Pairs, Threads, RunQueues, OutLists, WaitQueues, Sems, SemPairs, Owed, HartRel, SemRel, HartOk, Holds, ThreadOk;
    ThreadCore(st, c, h, t, r);
    ShapedChanged(st, c, h, t, r);
    SemPairsKept(st.cpu, st.sem, c, h);
    OwedKept(st.sem, st.thr, t, r);
  }

  lemma PairInv(st: State, c: Cpu, t: Tid)
    requires Inv(st) && c < NCPU && t in st.thr
    ensures HartOk(st.cpu[c]) && HartRel(c, st.cpu[c], t, st.thr[t]) && ThreadOk(st.thr[t])
  {
  }

  lemma DispatchCore(c: Cpu, h: Hart, t: Tid, r: Thread)
    requires c < NCPU && HartOk(h) && HartRel(c, h, t, r) && ThreadOk(r) && h.pc == Dispatch(t)
    ensures Core(c, h, Hart(SwitchIn(t), Some(t)), t, r, r.(state := Running, place := OnCpu(c)))
    ensures SemSame(h, Hart(SwitchIn(t), Some(t)))
  {
  }

  lemma DispatchInv(st: State, c: Cpu, t: Tid)
    requires Inv(st) && c < NCPU && t in st.thr && st.cpu[c].pc == Dispatch(t)
    ensures Inv(DispatchStep(st, c, t))
  {
    var r := st.thr[t].(state := Running, place := OnCpu(c));
    PairInv(st, c, t);
    DispatchCore(c, st.cpu[c], t, st.thr[t]);
    ChangedInv(st, c, Hart(SwitchIn(t), Some(t)), t, r);
  }

  lemma SwitchOutCore(c: Cpu, h: Hart, t: Tid, r: Thread)
    requires c < NCPU && HartOk(h) && HartRel(c, h, t, r) && ThreadOk(r) && h.pc == SwitchOut(t)
    ensures Core(c, h, h.(pc := Back(t)), t, r, r.(live := None))
    ensures SemSame(h, h.(pc := Back(t)))
  {
  }

  lemma SwitchOutInv(st: State, c: Cpu, t: Tid)
    requires Inv(st) && c < NCPU && t in st.thr && st.cpu[c].pc == SwitchOut(t)
    ensures Inv(SwitchOutStep(st, c, t))
  {
    PairInv(st, c, t);
    SwitchOutCore(c, st.cpu[c], t, st.thr[t]);
    ChangedInv(st, c, st.cpu[c].(pc := Back(t)), t, st.thr[t].(live := None));
  }

  lemma WakeCore(c: Cpu, h: Hart, t: Tid, g: Goal, r: Thread)
    requires c < NCPU && HartOk(h) && HartRel(c, h, t, r) && ThreadOk(r) && h.pc == WakeHave(t, g)
    ensures Core(c, h, h.(pc := LoadWant(t, g)), t, r, r.(state := Runnable, place := if g.Wake? then Moving(c) else r.place))
    ensures SemSame(h, h.(pc := LoadWant(t, g)))
  {
  }

  lemma WakeInv(st: State, c: Cpu, t: Tid, g: Goal)
    requires Inv(st) && c < NCPU && t in st.thr && st.cpu[c].pc == WakeHave(t, g)
    ensures Inv(WakeStep(st, c, t, g))
  {
    var r := st.thr[t];
    PairInv(st, c, t);
    WakeCore(c, st.cpu[c], t, g, r);
    ChangedInv(st, c, st.cpu[c].(pc := LoadWant(t, g)), t, r.(state := Runnable, place := if g.Wake? then Moving(c) else r.place));
  }

  lemma SleepCore(c: Cpu, h: Hart, t: Tid, r: Thread)
    requires c < NCPU && HartOk(h) && HartRel(c, h, t, r) && ThreadOk(r) && h.pc == Sleep(t)
    ensures Core(c, h, h.(pc := SwitchOut(t)), t, r, r.(state := Sleeping))
    ensures SemSame(h, h.(pc := SwitchOut(t)))
  {
  }

  lemma SleepInv(st: State, c: Cpu, t: Tid)
    requires Inv(st) && c < NCPU && t in st.thr && st.cpu[c].pc == Sleep(t)
    ensures Inv(SleepStep(st, c, t))
  {
    PairInv(st, c, t);
    SleepCore(c, st.cpu[c], t, st.thr[t]);
    ChangedInv(st, c, st.cpu[c].(pc := SwitchOut(t)), t, st.thr[t].(state := Sleeping));
  }

  // ---- the scheduler's own steps ----

  lemma PickLast(q: seq<Tid>, thr: map<Tid, Thread>)
    requires forall i :: 0 <= i < |q| ==> q[i] in thr && thr[q[i]].state.Runnable?
    ensures PickNext(q, thr) == if q == [] then None else Some(q[|q| - 1])
  {
  }

  lemma AllRunnable(st: State, c: Cpu)
    requires Inv(st) && c < NCPU
    ensures forall i :: 0 <= i < |st.run[c]| ==> st.run[c][i] in st.thr && st.thr[st.run[c][i]].state.Runnable?
  {
    forall i | 0 <= i < |st.run[c]|
      ensures st.run[c][i] in st.thr && st.thr[st.run[c][i]].state.Runnable?
    {
      assert st.run[c][i] in st.run[c];
      assert ThreadOk(st.thr[st.run[c][i]]);
    }
  }

  lemma PickedRel(c: Cpu, h: Hart, t: Tid, u: Tid, r: Thread)
    requires HartOk(h) && h.pc.Pick? && HartRel(c, h, u, r) && (u == t ==> r.place == Ready(c))
    ensures HartRel(c, h.(pc := Picked(t)), u, r)
  {
  }

  lemma PickInv(st: State, c: Cpu)
    requires Inv(st) && c < NCPU && st.cpu[c].pc.Pick?
    ensures Inv(PickStep(st, c))
  {
    AllRunnable(st, c);
    PickLast(st.run[c], st.thr);
    HartInv(st, c);
    if st.run[c] == [] {
      IdleInv(st, c);
    } else {
      PickSomeInv(st, c, st.run[c][|st.run[c]| - 1]);
    }
  }

  lemma IdleInv(st: State, c: Cpu)
    requires Inv(st) && c < NCPU && st.cpu[c].pc.Pick? && HartOk(st.cpu[c])
    ensures Inv(Goto(st, c, Idle))
  {
    LocksKept(st.cpu, st.lock, c, st.cpu[c].(pc := Idle));
    QuietInv(st, Goto(st, c, Idle), c, st.cpu[c].(pc := Idle));
  }

  lemma PickSomeInv(st: State, c: Cpu, t: Tid)
    requires Inv(st) && c < NCPU && st.cpu[c].pc.Pick? && HartOk(st.cpu[c])
    requires st.run[c] != [] && t == st.run[c][|st.run[c]| - 1]
    ensures Inv(Goto(st, c, Picked(t)))
  {
    var h := st.cpu[c].(pc := Picked(t));
    assert t in st.run[c] && st.thr[t].place == Ready(c);
    forall u | u in st.thr ensures HartRel(c, h, u, st.thr[u]) {
      PairInv(st, c, u);
      PickedRel(c, st.cpu[c], t, u, st.thr[u]);
    }
    PairsHart(st.cpu, st.thr, c, h);
    LocksKept(st.cpu, st.lock, c, h);
    HartsKept(st.cpu, c, h);
    SemPairsKept(st.cpu, st.sem, c, h);
    ShapedPicked(st, c, t);
    assert Tails(Goto(st, c, Picked(t)).cpu, st.run);
  }

  lemma ShapedPicked(st: State, c: Cpu, t: Tid)
    requires Shaped(st) && c < NCPU && t in st.thr
    ensures Shaped(Goto(st, c, Picked(t)))
  {
    assert HartShaped(st, st.cpu[c]);
  }

  lemma ClearedRel(c: Cpu, h: Hart, u: Tid, r: Thread)
    requires HartOk(h) && h.pc.Clear? && HartRel(c, h, u, r)
    ensures HartRel(c, Hart(Loop, None), u, r)
  {
  }

  lemma ClearInv(st: State, c: Cpu)
    requires Inv(st) && c < NCPU && st.cpu[c].pc.Clear?
    ensures Inv(ClearStep(st, c))
  {
    hide Locks, Harts, Tails, Pairs, Threads, RunQueues, OutLists, WaitQueues, Sems, SemPairs, Owed, HartRel, SemRel, CountsOk, MutexOk, HartOk, ThreadOk;
    var h := Hart(Loop, None);
    forall u | u in st.thr ensures HartRel(c, h, u, st.thr[u]) {
      PairInv(st, c, u);
      ClearedRel(c, st.cpu[c], u, st.thr[u]);
    }
    PairsHart(st.cpu, st.thr, c, h);
    LocksKept(st.cpu, st.lock, c, h);
    HartsKept(st.cpu, c, h);
    TailsKept(st.cpu, st.run, c, h);
    SemPairsKept(st.cpu, st.sem, c, h);
  }

  lemma LoadInv(st: State, c: Cpu, t: Tid, g: Goal)
    requires Inv(st) && c < NCPU && t in st.thr && st.cpu[c].pc == LoadHave(t, g)
    ensures Inv(LoadStep(st, c, t, g))
  {
    hide Locks, Harts, Tails, Pairs, Threads, RunQueues, OutLists, WaitQueues, Sems, SemPairs, Owed, HartRel, SemRel, CountsOk, MutexOk, HartOk, Holds, ThreadOk;
    HartInv(st, c);
    assert ThreadShaped(st, st.thr[t]);
    var d := if st.thr[t].affinity == -1 then (st.loadCpu + 1) % NCPU else st.thr[t].affinity;
    LoadQuiet(c, st.cpu[c], t, g, d);
    LocksGiven(st.cpu, st.lock, c, LoadLock, st.cpu[c].(pc := QueueWant(t, g, d)));
    QuietInv(st, LoadStep(st, c, t, g), c, st.cpu[c].(pc := QueueWant(t, g, d)));
  }

  lemma LoadQuiet(c: Cpu, h: Hart, t: Tid, g: Goal, d: Cpu)
    requires HartOk(h) && h.pc == LoadHave(t, g) && d < NCPU
    ensures Quiet(h, h.(pc := QueueWant(t, g, d))) && PcSids(QueueWant(t, g, d)) <= PcSids(h.pc)
    ensures LoadLock in Holds(c, h.pc) && Holds(c, QueueWant(t, g, d)) == Holds(c, h.pc) - {LoadLock}
  {
  }

  // ---- steps that move a thread between lists ----

  lemma RemoveLast(q: seq<Tid>, t: Tid)
    requires NoDup(q) && q != [] && q[|q| - 1] == t
    ensures Remove(q, t) == q[..|q| - 1]
  {
    if |q| > 1 { RemoveLast(q[1..], t); }
  }

  /** The context of a queued thread whose lock we hold has been saved. */
  lemma SavedWhenQueued(st: State, c: Cpu, t: Tid)
    requires Inv(st) && c < NCPU && t in st.thr && st.thr[t].place.Ready?
    requires ThreadLock(t) in Holds(c, st.cpu[c].pc) && st.cpu[c].thread != Some(t)
    ensures st.thr[t].live.None?
  {
    if st.thr[t].live.Some? {
      var d := st.thr[t].live.value;
      assert ThreadOk(st.thr[t]);
      PairInv(st, d, t);
      LeavingLocked(d, st.cpu[d], t, st.thr[t]);
      LockExclusive(st.cpu, st.lock, c, ThreadLock(t));
    }
  }

  lemma LeavingLocked(d: Cpu, h: Hart, t: Tid, r: Thread)
    requires HartOk(h) && HartRel(d, h, t, r) && r.live == Some(d) && r.place != OnCpu(d)
    ensures h.thread == Some(t) && ThreadLock(t) in Holds(d, h.pc)
  {
  }

  lemma UnlinkCore(c: Cpu, h: Hart, t: Tid, r: Thread)
    requires c < NCPU && HartOk(h) && HartRel(c, h, t, r) && ThreadOk(r) && h.pc == Unlink(t) && r.live.None?
    ensures Core(c, h, h.(pc := Unlinked(t)), t, r, r.(place := Moving(c)))
    ensures SemSame(h, h.(pc := Unlinked(t)))
  {
  }

  lemma DropLast(q: seq<Tid>)
    requires NoDup(q) && q != []
    ensures NoDup(q[..|q| - 1])
    ensures forall u :: u in q[..|q| - 1] <==> u in q && u != q[|q| - 1]
  {
    assert q == q[..|q| - 1] + [q[|q| - 1]];
  }

  lemma UnlinkLists(st: State, c: Cpu, t: Tid, run: seq<seq<Tid>>, thr: map<Tid, Thread>)
    requires |st.run| == |st.out| == NCPU && c < NCPU && t in st.thr && st.thr[t].place == Ready(c)
    requires RunQueues(st.run, st.thr) && OutLists(st.out, st.thr) && WaitQueues(st.sem, st.thr)
    requires st.run[c] != [] && st.run[c][|st.run[c]| - 1] == t
    requires run == st.run[c := st.run[c][..|st.run[c]| - 1]] && thr == st.thr[t := st.thr[t].(place := Moving(c))]
    ensures RunQueues(run, thr) && OutLists(st.out, thr) && WaitQueues(st.sem, thr)
  {
    DropLast(st.run[c]);
  }

  lemma TailsUnlink(cpu: seq<Hart>, run: seq<seq<Tid>>, c: Cpu, h: Hart)
    requires c < |cpu| == |run| && Tails(cpu, run) && !h.pc.Picked? && !h.pc.Unlink? && run[c] != []
    ensures Tails(cpu[c := h], run[c := run[c][..|run[c]| - 1]])
  {
  }

  lemma UnlinkInv(st: State, c: Cpu, t: Tid)
    requires Inv(st) && c < NCPU && t in st.thr && st.cpu[c].pc == Unlink(t)
    ensures Inv(UnlinkStep(st, c, t))
  {
    hide Locks, Harts, Pairs, Threads, OutLists, WaitQueues, Sems, SemPairs, Owed, SemRel, CountsOk, MutexOk, ThreadOk;
    var h, r := st.cpu[c].(pc := Unlinked(t)), st.thr[t].(place := Moving(c));
    PairInv(st, c, t);
    assert TailOk(st.cpu[c], st.run[c]);
    RemoveLast(st.run[c], t);
    SavedWhenQueued(st, c, t);
    UnlinkCore(c, st.cpu[c], t, st.thr[t]);
    UnlinkLists(st, c, t, UnlinkStep(st, c, t).run, st.thr[t := r]);
    TailsUnlink(st.cpu, st.run, c, h);
    FiledInv(st, UnlinkStep(st, c, t), c, h, t, r);
  }

  lemma QuitCore(c: Cpu, h: Hart, t: Tid, r: Thread)
    requires c < NCPU && HartOk(h) && HartRel(c, h, t, r) && ThreadOk(r) && h.pc == QuitHave(t)
    ensures r.place == OnCpu(c)
    ensures Core(c, h, h.(pc := SwitchOut(t)), t, r, r.(state := Zombie, place := Gone(c)))
    ensures SemSame(h, h.(pc := SwitchOut(t)))
  {
  }

  lemma QuitLists(st: State, c: Cpu, t: Tid, r: Thread)
    requires |st.run| == |st.out| == NCPU && c < NCPU && t in st.thr && st.thr[t].place == OnCpu(c) && r.place == Gone(c)
    requires RunQueues(st.run, st.thr) && OutLists(st.out, st.thr) && WaitQueues(st.sem, st.thr)
    ensures RunQueues(st.run, st.thr[t := r]) && OutLists(st.out[c := st.out[c] + [t]], st.thr[t := r])
    ensures WaitQueues(st.sem, st.thr[t := r])
  {
    assert t !in st.out[c];
  }

  lemma QuitInv(st: State, c: Cpu, t: Tid)
    requires Inv(st) && c < NCPU && t in st.thr && st.cpu[c].pc == QuitHave(t)
    ensures Inv(QuitStep(st, c, t))
  {
    var h, r := st.cpu[c].(pc := SwitchOut(t)), st.thr[t].(state := Zombie, place := Gone(c));
    PairInv(st, c, t);
    QuitCore(c, st.cpu[c], t, st.thr[t]);
    TailsKept(st.cpu, st.run, c, h);
    QuitLists(st, c, t, r);
    FiledInv(st, QuitStep(st, c, t), c, h, t, r);
  }

  lemma EnqueueCore(c: Cpu, h: Hart, t: Tid, g: Goal, d: Cpu, r: Thread)
    requires c < NCPU && d < NCPU && HartOk(h) && HartRel(c, h, t, r) && ThreadOk(r) && h.pc == QueueHave(t, g, d)
    ensures r.place == OnCpu(c) || r.place == Moving(c)
    ensures Core(c, h, h.(pc := QueueDone(t, g, d)), t, r, r.(place := Ready(d)))
    ensures SemSame(h, h.(pc := QueueDone(t, g, d)))
  {
  }

  lemma EnqueueLists(st: State, d: Cpu, t: Tid, r: Thread)
    requires |st.run| == |st.out| == NCPU && d < NCPU && t in st.thr && r.place == Ready(d)
    requires st.thr[t].place.OnCpu? || st.thr[t].place.Moving?
    requires RunQueues(st.run, st.thr) && OutLists(st.out, st.thr) && WaitQueues(st.sem, st.thr)
    ensures RunQueues(st.run[d := [t] + st.run[d]], st.thr[t := r]) && OutLists(st.out, st.thr[t := r])
    ensures WaitQueues(st.sem, st.thr[t := r])
  {
    assert t !in st.run[d];
  }

  /** Adding at the head leaves every picked tail in place. */
  lemma TailsEnqueue(cpu: seq<Hart>, run: seq<seq<Tid>>, c: Cpu, h: Hart, d: Cpu, t: Tid)
    requires c < |cpu| == |run| && d < |run| && Tails(cpu, run) && !h.pc.Picked? && !h.pc.Unlink?
    ensures Tails(cpu[c := h], run[d := [t] + run[d]])
  {
  }

  lemma EnqueueInv(st: State, c: Cpu, t: Tid, g: Goal, d: Cpu)
    requires Inv(st) && c < NCPU && d < NCPU && t in st.thr && st.cpu[c].pc == QueueHave(t, g, d)
    ensures Inv(EnqueueStep(st, c, t, g, d))
  {
    hide Locks, Harts, Tails, Pairs, Threads, RunQueues, OutLists, WaitQueues, Sems, SemPairs, Owed, HartRel, SemRel, CountsOk, MutexOk, HartOk, Holds, ThreadOk;
    var h, r := st.cpu[c].(pc := QueueDone(t, g, d)), st.thr[t].(place := Ready(d));
    PairInv(st, c, t);
    EnqueueCore(c, st.cpu[c], t, g, d, st.thr[t]);
    TailsEnqueue(st.cpu, st.run, c, h, d, t);
    EnqueueLists(st, d, t, r);
    FiledInv(st, EnqueueStep(st, c, t, g, d), c, h, t, r);
  }

  // ---- sem_wait ----

  /** Nobody is between decrement and push when another routine has the lock. */
  lemma NotPending(st: State, c: Cpu, s: Sid)
    requires Inv(st) && c < NCPU && s in st.sem && SemLock(s) in Holds(c, st.cpu[c].pc) && !MidWait(st.cpu[c].pc, s)
    ensures st.sem[s].pending.None?
  {
    hide Locks, Harts, Tails, Pairs, Threads, RunQueues, OutLists, WaitQueues, Sems, SemPairs, Owed, MutexOk, HartOk, Holds, Shaped;
    SemFacts(st, c, s);
    if st.sem[s].pending.Some? {
      var d := st.sem[s].pending.value;
      SemFacts(st, d, s);
      MidHolds(d, st.cpu[d].pc, s);
      HeldTwice(st.cpu, st.lock, c, d, SemLock(s));
    }
  }

  lemma MidHolds(d: Cpu, pc: Pc, s: Sid)
    requires MidWait(pc, s)
    ensures SemLock(s) in Holds(d, pc)
  {
  }

  lemma HeldTwice(cpu: seq<Hart>, lock: map<Lock, Cpu>, c: Cpu, d: Cpu, l: Lock)
    requires |cpu| == NCPU && c < NCPU && d < NCPU && Locks(cpu, lock) && l in Holds(c, cpu[c].pc) && l in Holds(d, cpu[d].pc)
    ensures c == d && l in lock
  {
    hide Holds;
    assert l in Holds(c, cpu[c].pc) <==> l in lock && lock[l] == c;
    assert l in Holds(d, cpu[d].pc) <==> l in lock && lock[l] == d;
  }

  /** The hart stands in a special relation to semaphore `s` at most. */
  predicate MidOnly(h: Hart, s: Sid) {
    && (MidSem(h.pc).None? || MidSem(h.pc) == Some(s))
    && (h.pc.SigWant? || h.pc.SigHave? ==> h.pc.s == s)
  }

  ghost predicate SemBystanders(cpu: seq<Hart>, c: Cpu, s: Sid, m: Sem) {
    forall d: Cpu :: d < |cpu| && d != c ==> SemRel(d, cpu[d], s, m)
  }

  /** The record of one semaphore changes; what harts and threads know of the others stays. */
  lemma SemPairsChanged(cpu: seq<Hart>, sem: map<Sid, Sem>, c: Cpu, h: Hart, s: Sid, m: Sem)
    requires c < |cpu| && SemPairs(cpu, sem) && s in sem
    requires MidOnly(cpu[c], s) && MidOnly(h, s) && SemRel(c, h, s, m) && SemBystanders(cpu, c, s, m)
    ensures SemPairs(cpu[c := h], sem[s := m])
  {
    forall x | x in sem && x != s ensures SemRel(c, h, x, sem[x]) {
      assert SemRel(c, cpu[c], x, sem[x]);
    }
  }

  lemma SemsChanged(sem: map<Sid, Sem>, s: Sid, m: Sem)
    requires Sems(sem) && CountsOk(m) && MutexOk(m)
    ensures Sems(sem[s := m])
  {
  }

  lemma ShapedSem(st: State, c: Cpu, h: Hart, s: Sid, m: Sem)
    requires Shaped(st) && c < NCPU && s in st.sem && m.waiters == st.sem[s].waiters
    requires HartShaped(st, h)
    ensures Shaped(st.(cpu := st.cpu[c := h], sem := st.sem[s := m]))
  {
    assert SemShaped(st, st.sem[s]);
  }

  lemma WaitQueuesSame(sem: map<Sid, Sem>, thr: map<Tid, Thread>, s: Sid, m: Sem)
    requires WaitQueues(sem, thr) && s in sem && m.waiters == sem[s].waiters
    ensures WaitQueues(sem[s := m], thr)
  {
  }

  lemma OwedSame(sem: map<Sid, Sem>, thr: map<Tid, Thread>, s: Sid, m: Sem)
    requires Owed(sem, thr) && s in sem && m.owed == sem[s].owed
    ensures Owed(sem[s := m], thr)
  {
  }

  /** What a hart step on a semaphore must satisfy on its own. */
  predicate SemCore(c: Cpu, h: Hart, h': Hart, s: Sid, m': Sem) {
    && h'.thread == h.thread && Holds(c, h'.pc) == Holds(c, h.pc) && SubjOf(h'.pc) == SubjOf(h.pc) && CurMove(h, h')
    && HartOk(h') && DstOk(h'.pc) && PcTids(h'.pc) <= PcTids(h.pc) && PcSids(h'.pc) <= {s}
    && !h'.pc.Picked? && !h'.pc.Unlink?
    && MidOnly(h, s) && MidOnly(h', s) && SemRel(c, h', s, m')
  }

  /** One semaphore changes, its lists and owed set do not; the hart stays in its thread. */
  lemma SemInv(st: State, c: Cpu, h: Hart, s: Sid, m: Sem)
    requires Inv(st) && c < NCPU && s in st.sem && SemCore(c, st.cpu[c], h, s, m)
    requires m.waiters == st.sem[s].waiters && m.owed == st.sem[s].owed && CountsOk(m) && MutexOk(m)
    requires SemBystanders(st.cpu, c, s, m)
    ensures Inv(st.(cpu := st.cpu[c := h], sem := st.sem[s := m]))
  {
    LocksKept(st.cpu, st.lock, c, h);
    HartsKept(st.cpu, c, h);
    TailsKept(st.cpu, st.run, c, h);
    PairsQuiet(st.cpu, st.thr, c, h);
    SemPairsChanged(st.cpu, st.sem, c, h, s, m);
    assert HartShaped(st, st.cpu[c]);
    ShapedSem(st, c, h, s, m);
    WaitQueuesSame(st.sem, st.thr, s, m);
    OwedSame(st.sem, st.thr, s, m);
    SemsChanged(st.sem, s, m);
  }

  lemma SemFacts(st: State, c: Cpu, s: Sid)
    requires Inv(st) && c < NCPU && s in st.sem
    ensures |st.cpu| == NCPU && HartOk(st.cpu[c]) && SemRel(c, st.cpu[c], s, st.sem[s]) && CountsOk(st.sem[s]) && MutexOk(st.sem[s])
  {
  }

  lemma DecrementCore(c: Cpu, h: Hart, s: Sid, t: Tid, m: Sem)
    requires c < NCPU && HartOk(h) && h.pc == WaitHave(s, t) && m.pending.None? && CountsOk(m) && MutexOk(m)
    ensures var m' := Decremented(m, c, t);
            SemCore(c, h, h.(pc := if m'.value < 0 then WaitSelf(s, t) else WaitFast(s)), s, m') && CountsOk(m') && MutexOk(m')
  {
  }

  lemma DecrementBystander(c: Cpu, d: Cpu, h: Hart, s: Sid, t: Tid, m: Sem)
    requires c != d && SemRel(d, h, s, m) && m.pending.None? && MutexOk(m)
    ensures SemRel(d, h, s, Decremented(m, c, t))
  {
  }

  lemma DecrementInv(st: State, c: Cpu, s: Sid, t: Tid)
    requires Inv(st) && c < NCPU && s in st.sem && st.cpu[c].pc == WaitHave(s, t)
    ensures Inv(DecrementStep(st, c, s, t))
  {
    hide Locks, Harts, Tails, Pairs, Threads, RunQueues, OutLists, WaitQueues, Sems, SemPairs, Owed, HartRel, SemRel, CountsOk, MutexOk, HartOk, ThreadOk;
    var m := Decremented(st.sem[s], c, t);
    NotPending(st, c, s);
    SemFacts(st, c, s);
    DecrementCore(c, st.cpu[c], s, t, st.sem[s]);
    forall d: Cpu | d < NCPU && d != c ensures SemRel(d, st.cpu[d], s, m) {
      SemFacts(st, d, s);
      DecrementBystander(c, d, st.cpu[d], s, t, st.sem[s]);
    }
    SemInv(st, c, DecrementStep(st, c, s, t).cpu[c], s, m);
  }

  // ---- steps that change a thread and a semaphore ----

  lemma ShapedThreadSem(st: State, c: Cpu, h: Hart, t: Tid, r: Thread, s: Sid, m: Sem)
    requires Shaped(st) && c < NCPU && t in st.thr && Core(c, st.cpu[c], h, t, st.thr[t], r) && s in st.sem
    requires r.granted.None? || r.granted == st.thr[t].granted
    requires forall i :: 0 <= i < |m.waiters| ==> m.waiters[i] in st.thr
    ensures Shaped(Changed(st, c, h, t, r).(sem := st.sem[s := m]))
  {
    ShapedChanged(st, c, h, t, r);
    var st1 := Changed(st, c, h, t, r);
    assert forall x :: x in st.sem ==> SemShaped(st1, st1.sem[x]);
  }

  lemma ThreadSemInv(st: State, st': State, c: Cpu, h: Hart, t: Tid, r: Thread, s: Sid, m: Sem)
    requires Inv(st) && c < NCPU && t in st.thr && s in st.sem && Core(c, st.cpu[c], h, t, st.thr[t], r)
    requires st' == Changed(st, c, h, t, r).(sem := st.sem[s := m])
    requires MidOnly(st.cpu[c], s) && MidOnly(h, s) && SemRel(c, h, s, m) && SemBystanders(st.cpu, c, s, m)
    requires CountsOk(m) && MutexOk(m) && (r.granted.None? || r.granted == st.thr[t].granted)
    requires forall i :: 0 <= i < |m.waiters| ==> m.waiters[i] in st.thr
    requires RunQueues(st.run, st'.thr) && OutLists(st.out, st'.thr) && WaitQueues(st'.sem, st'.thr) && Owed(st'.sem, st'.thr)
    ensures Inv(st')
  {
    hide Locks, Harts, Tails, Pairs, Threads, RunQueues, OutLists, WaitQueues, Sems, SemPairs, Owed, HartRel, SemRel, CountsOk, MutexOk, HartOk, Holds, ThreadOk;
    ThreadCore(st, c, h, t, r);
    ShapedThreadSem(st, c, h, t, r, s, m);
    TailsKept(st.cpu, st.run, c, h);
    SemPairsChanged(st.cpu, st.sem, c, h, s, m);
    SemsChanged(st.sem, s, m);
  }

  lemma PushCore(c: Cpu, h: Hart, s: Sid, t: Tid, r: Thread, m: Sem)
    requires c < NCPU && HartOk(h) && HartRel(c, h, t, r) && ThreadOk(r) && h.pc == WaitPush(s, t)
    requires SemRel(c, h, s, m) && CountsOk(m) && MutexOk(m)
    ensures r.place == OnCpu(c) && Core(c, h, h.(pc := WaitPushed(s, t)), t, r, r.(place := Asleep(s)))
    ensures MidOnly(h, s) && MidOnly(h.(pc := WaitPushed(s, t)), s) && SemRel(c, h.(pc := WaitPushed(s, t)), s, Pushed(m, t))
    ensures m.pending == Some(c) && CountsOk(Pushed(m, t)) && MutexOk(Pushed(m, t))
  {
    assert m.popLog + (m.waiters + [t]) == m.popLog + m.waiters + [t];
  }

  lemma PushLists(st: State, s: Sid, t: Tid, r: Thread)
    requires |st.run| == |st.out| == NCPU && t in st.thr && s in st.sem && st.thr[t].place.OnCpu?
    requires r == st.thr[t].(place := Asleep(s)) && Owed(st.sem, st.thr)
    requires RunQueues(st.run, st.thr) && OutLists(st.out, st.thr) && WaitQueues(st.sem, st.thr)
    ensures RunQueues(st.run, st.thr[t := r]) && OutLists(st.out, st.thr[t := r])
    ensures WaitQueues(st.sem[s := Pushed(st.sem[s], t)], st.thr[t := r]) && Owed(st.sem[s := Pushed(st.sem[s], t)], st.thr[t := r])
  {
    hide NoDup;
    PushQueue(s, st.sem[s].waiters, st.thr, t, r);
  }

  lemma PushQueue(s: Sid, q: seq<Tid>, thr: map<Tid, Thread>, t: Tid, r: Thread)
    requires WaitQueue(s, q, thr) && t in thr && thr[t].place.OnCpu? && r.place == Asleep(s)
    ensures WaitQueue(s, q + [t], thr[t := r])
  {
    assert t !in q;
  }

  lemma PushBystander(c: Cpu, d: Cpu, h: Hart, s: Sid, t: Tid, m: Sem)
    requires c != d && SemRel(d, h, s, m) && m.pending == Some(c)
    ensures SemRel(d, h, s, Pushed(m, t))
  {
  }

  lemma PushInv(st: State, c: Cpu, s: Sid, t: Tid)
    requires Inv(st) && c < NCPU && s in st.sem && t in st.thr && st.cpu[c].pc == WaitPush(s, t)
    ensures Inv(PushStep(st, c, s, t))
  {
    hide Locks, Harts, Tails, Pairs, Threads, RunQueues, OutLists, WaitQueues, Sems, SemPairs, Owed, HartRel, SemRel, CountsOk, MutexOk, HartOk, Holds, ThreadOk, Core, MidOnly;
    var h, r, m := st.cpu[c].(pc := WaitPushed(s, t)), st.thr[t].(place := Asleep(s)), Pushed(st.sem[s], t);
    PairInv(st, c, t);
    SemFacts(st, c, s);
    PushCore(c, st.cpu[c], s, t, st.thr[t], st.sem[s]);
    forall d: Cpu | d < NCPU && d != c ensures SemRel(d, st.cpu[d], s, m) {
      SemFacts(st, d, s);
      PushBystander(c, d, st.cpu[d], s, t, st.sem[s]);
    }
    PushLists(st, s, t, r);
    assert SemShaped(st, st.sem[s]);
    ThreadSemInv(st, PushStep(st, c, s, t), c, h, t, r, s, m);
  }

  lemma SwitchInCore(c: Cpu, h: Hart, t: Tid, r: Thread)
    requires c < NCPU && HartOk(h) && HartRel(c, h, t, r) && ThreadOk(r) && h.pc == SwitchIn(t)
    ensures Core(c, h, h.(pc := Resume(t)), t, r, r.(live := Some(c), granted := None))
    ensures r.place == OnCpu(c) && SemSame(h, h.(pc := Resume(t)))
  {
  }

  lemma FinishedOk(m: Sem, t: Tid)
    requires CountsOk(m) && MutexOk(m) && t in m.owed
    ensures CountsOk(Finished(m, t)) && MutexOk(Finished(m, t))
  {
  }

  lemma FinishedOwed(sem: map<Sid, Sem>, thr: map<Tid, Thread>, s: Sid, t: Tid, r: Thread)
    requires Owed(sem, thr) && s in sem && t in thr && thr[t].granted == Some(s) && r.granted.None?
    ensures Owed(sem[s := Finished(sem[s], t)], thr[t := r])
  {
  }

  /** A hart that is unlocking runs its thread, so no other hart does. */
  lemma SwitchInBystander(st: State, c: Cpu, d: Cpu, s: Sid, t: Tid)
    requires Inv(st) && c < NCPU && d < NCPU && c != d && s in st.sem && t in st.thr && st.thr[t].place == OnCpu(c)
    ensures SemRel(d, st.cpu[d], s, Finished(st.sem[s], t))
  {
    SemFacts(st, d, s);
    PairInv(st, d, t);
  }

  lemma SwitchInInv(st: State, c: Cpu, t: Tid)
    requires Inv(st) && c < NCPU && t in st.thr && st.cpu[c].pc == SwitchIn(t)
    ensures Inv(SwitchInStep(st, c, t))
  {
    var h, r := st.cpu[c].(pc := Resume(t)), st.thr[t].(live := Some(c), granted := None);
    PairInv(st, c, t);
    SwitchInCore(c, st.cpu[c], t, st.thr[t]);
    if st.thr[t].granted.None? {
      ChangedInv(st, c, h, t, r);
    } else {
      SwitchInGranted(st, c, t, st.thr[t].granted.value, h, r);
    }
  }

  lemma ResumeMid(c: Cpu, h: Hart, t: Tid, s: Sid, m: Sem)
    requires ThreadLock(t) in Holds(c, h.pc) && SemSame(h, h.(pc := Resume(t))) && SemRel(c, h, s, m)
    ensures MidOnly(h, s) && MidOnly(h.(pc := Resume(t)), s) && SemRel(c, h.(pc := Resume(t)), s, Finished(m, t))
  {
  }

  lemma SwitchInGranted(st: State, c: Cpu, t: Tid, s: Sid, h: Hart, r: Thread)
    requires Inv(st) && c < NCPU && t in st.thr && s in st.sem && st.thr[t].granted == Some(s) && st.thr[t].place == OnCpu(c)
    requires h == st.cpu[c].(pc := Resume(t)) && r == st.thr[t].(live := Some(c), granted := None)
    requires Core(c, st.cpu[c], h, t, st.thr[t], r) && SemSame(st.cpu[c], h)
    ensures Inv(Changed(st, c, h, t, r).(sem := st.sem[s := Finished(st.sem[s], t)]))
  {
    hide Locks, Harts, Tails, Pairs, Threads, RunQueues, OutLists, WaitQueues, Sems, SemPairs, HartRel, CountsOk, MutexOk, ThreadOk, Holds, SemRel;
    var m := Finished(st.sem[s], t);
    SemFacts(st, c, s);
    ResumeMid(c, st.cpu[c], t, s, st.sem[s]);
    FinishedOk(st.sem[s], t);
    FinishedOwed(st.sem, st.thr, s, t, r);
    ListsKept(st, st.thr[t := r], t, r);
    WaitQueuesSame(st.sem, st.thr[t := r], s, m);
    forall d: Cpu | d < NCPU && d != c ensures SemRel(d, st.cpu[d], s, m) {
      SwitchInBystander(st, c, d, s, t);
    }
    assert SemShaped(st, st.sem[s]);
    ThreadSemInv(st, Changed(st, c, h, t, r).(sem := st.sem[s := m]), c, h, t, r, s, m);
  }

  // ---- sem_signal ----

  /** A thread that is unlocking a mutex is not itself waiting to be resumed. */
  lemma UnlockerNotOwed(st: State, c: Cpu, s: Sid)
    requires Inv(st) && c < NCPU && s in st.sem && st.cpu[c].pc == SigHave(s) && st.cpu[c].thread.Some?
    ensures st.cpu[c].thread.value !in st.sem[s].owed
  {
    hide Locks, Harts, Tails, Pairs, Threads, RunQueues, OutLists, WaitQueues, Sems, SemPairs, MutexOk, HartOk, Holds, CountsOk, ThreadOk;
    var t := st.cpu[c].thread.value;
    assert HartShaped(st, st.cpu[c]);
    PairInv(st, c, t);
  }

  /** Two harts cannot be unlocking the same mutex. */
  lemma OneUnlocker(st: State, c: Cpu, d: Cpu, s: Sid)
    requires Inv(st) && c < NCPU && d < NCPU && c != d && s in st.sem && st.sem[s].mutex && st.cpu[c].pc == SigHave(s)
    ensures st.cpu[d].pc != SigWant(s) && st.cpu[d].pc != SigHave(s)
  {
    SemFacts(st, c, s);
    SemFacts(st, d, s);
    var t := st.cpu[c].thread.value;
    assert HartShaped(st, st.cpu[c]);
    PairInv(st, c, t);
    PairInv(st, d, t);
  }

  lemma IncrementSemOk(c: Cpu, h: Hart, s: Sid, m: Sem)
    requires HartOk(h) && h.pc == SigHave(s) && SemRel(c, h, s, m) && CountsOk(m) && MutexOk(m) && m.pending.None?
    requires h.thread.Some? ==> h.thread.value !in m.owed
    requires m.waiters != [] ==> m.waiters[0] !in m.owed
    ensures m.value < 0 ==> m.waiters != []
    ensures CountsOk(Incremented(m)) && MutexOk(Incremented(m)) && Incremented(m).pending.None?
    ensures m.value >= 0 ==> Incremented(m).waiters == m.waiters && Incremented(m).owed == m.owed
  {
    if m.value < 0 {
      assert m.popLog + m.waiters == (m.popLog + [m.waiters[0]]) + m.waiters[1..];
    }
  }

  lemma IncrementBystander(c: Cpu, d: Cpu, h: Hart, s: Sid, m: Sem)
    requires c != d && SemRel(d, h, s, m) && m.pending.None?
    requires m.mutex ==> h.pc != SigWant(s) && h.pc != SigHave(s)
    ensures SemRel(d, h, s, Incremented(m))
  {
  }

  lemma IncrementFacts(st: State, c: Cpu, s: Sid)
    requires Inv(st) && c < NCPU && s in st.sem && st.cpu[c].pc == SigHave(s)
    ensures var m := st.sem[s]; m.pending.None? && (m.value < 0 ==> m.waiters != [])
    ensures var m := Incremented(st.sem[s]); CountsOk(m) && MutexOk(m) && m.pending.None? && SemBystanders(st.cpu, c, s, m)
    ensures st.sem[s].value >= 0 ==> Incremented(st.sem[s]).waiters == st.sem[s].waiters && Incremented(st.sem[s]).owed == st.sem[s].owed
  {
    var m := Incremented(st.sem[s]);
    NotPending(st, c, s);
    SemFacts(st, c, s);
    if st.cpu[c].thread.Some? { UnlockerNotOwed(st, c, s); }
    if st.sem[s].waiters != [] { WaiterFacts(st, s); }
    IncrementSemOk(c, st.cpu[c], s, st.sem[s]);
    forall d: Cpu | d < NCPU && d != c ensures SemRel(d, st.cpu[d], s, m) {
      SemFacts(st, d, s);
      if st.sem[s].mutex { OneUnlocker(st, c, d, s); }
      IncrementBystander(c, d, st.cpu[d], s, st.sem[s]);
    }
  }

  /** The thread at the head of a wait queue. */
  lemma WaiterFacts(st: State, s: Sid)
    requires Inv(st) && s in st.sem && st.sem[s].waiters != []
    ensures var u := st.sem[s].waiters[0];
            u in st.thr && st.thr[u].place == Asleep(s) && st.thr[u].granted.None? && u !in st.sem[s].owed
  {
    var u := st.sem[s].waiters[0];
    assert u in st.sem[s].waiters && WaitQueue(s, st.sem[s].waiters, st.thr);
    assert ThreadOk(st.thr[u]);
  }

  lemma SigDoneCore(c: Cpu, h: Hart, s: Sid, m: Sem)
    requires HartOk(h) && h.pc == SigHave(s) && m.pending.None?
    ensures SemCore(c, h, h.(pc := SigDone(s)), s, m)
  {
  }

  lemma PoppedMine(c: Cpu, h: Hart, s: Sid, u: Tid, r: Thread)
    requires HartOk(h) && h.pc == SigHave(s) && HartRel(c, h, u, r) && r.place == Asleep(s)
    ensures var h' := h.(pc := SigThread(s, u));
            && HartOk(h') && HartRel(c, h', u, r.(granted := Some(s), place := Waking(c))) && OtherSame(h, h', u)
            && Holds(c, h'.pc) == Holds(c, h.pc) && MidOnly(h, s) && MidOnly(h', s)
  {
  }

  lemma PopPairs(st: State, c: Cpu, s: Sid, u: Tid)
    requires Inv(st) && c < NCPU && st.cpu[c].pc == SigHave(s) && u in st.thr && st.thr[u].place == Asleep(s)
    ensures Pairs(st.cpu[c := st.cpu[c].(pc := SigThread(s, u))], st.thr[u := st.thr[u].(granted := Some(s), place := Waking(c))])
  {
    hide Locks, Harts, Tails, Threads, RunQueues, OutLists, WaitQueues, Sems, SemPairs, Owed, HartRel, HartOk, Holds, ThreadOk;
    var h, r := st.cpu[c].(pc := SigThread(s, u)), st.thr[u].(granted := Some(s), place := Waking(c));
    var cpu', thr' := st.cpu[c := h], st.thr[u := r];
    PairInv(st, c, u);
    PoppedMine(c, st.cpu[c], s, u, st.thr[u]);
    forall d: Cpu, t | d < |cpu'| && t in thr' ensures HartRel(d, cpu'[d], t, thr'[t]) {
      PairInv(st, d, t);
      if d == c && t != u { OtherRel(c, st.cpu[c], h, u, t, st.thr[t]); }
      if d != c && t == u { PoppedRel(c, d, st.cpu[d], u, st.thr[u], s); }
    }
  }

  lemma PopLists(st: State, s: Sid, u: Tid, r: Thread)
    requires |st.run| == |st.out| == NCPU && s in st.sem && st.sem[s].waiters != [] && u == st.sem[s].waiters[0]
    requires st.sem[s].value < 0 && r.place.Waking? && u in st.thr && st.thr[u].place == Asleep(s)
    requires RunQueues(st.run, st.thr) && OutLists(st.out, st.thr) && WaitQueues(st.sem, st.thr)
    ensures RunQueues(st.run, st.thr[u := r]) && OutLists(st.out, st.thr[u := r])
    ensures WaitQueues(st.sem[s := Incremented(st.sem[s])], st.thr[u := r])
  {
    var q := st.sem[s].waiters;
    assert WaitQueue(s, q, st.thr);
    assert q == [u] + q[1..];
    assert WaitQueue(s, q[1..], st.thr[u := r]);
  }

  lemma PopOwed(sem: map<Sid, Sem>, thr: map<Tid, Thread>, s: Sid, u: Tid, r: Thread)
    requires Owed(sem, thr) && s in sem && sem[s].waiters != [] && u == sem[s].waiters[0] && sem[s].value < 0
    requires u in thr && thr[u].granted.None? && r.granted == Some(s)
    ensures Owed(sem[s := Incremented(sem[s])], thr[u := r])
  {
  }

  lemma PopShaped(st: State, c: Cpu, s: Sid)
    requires Shaped(st) && c < NCPU && s in st.sem && st.cpu[c].pc == SigHave(s) && st.sem[s].waiters != [] && st.sem[s].value < 0
    ensures Shaped(IncrementStep(st, c, s))
  {
    assert HartShaped(st, st.cpu[c]) && SemShaped(st, st.sem[s]) && ThreadShaped(st, st.thr[st.sem[s].waiters[0]]);
    var st' := IncrementStep(st, c, s);
    assert forall x :: x in st.sem ==> SemShaped(st, st.sem[x]);
    assert forall x :: x in st'.sem ==> SemShaped(st', st'.sem[x]);
    assert forall t :: t in st'.thr ==> ThreadShaped(st', st'.thr[t]);
  }

  lemma PopInv(st: State, c: Cpu, s: Sid, u: Tid)
    requires Inv(st) && c < NCPU && s in st.sem && st.cpu[c].pc == SigHave(s) && st.sem[s].value < 0
    requires st.sem[s].waiters != [] && u == st.sem[s].waiters[0]
    ensures Inv(IncrementStep(st, c, s))
  {
    var m := Incremented(st.sem[s]);
    WaiterFacts(st, s);
    IncrementFacts(st, c, s);
    PairInv(st, c, u);
    PoppedMine(c, st.cpu[c], s, u, st.thr[u]);
    PopAssemble(st, c, s, u, st.cpu[c].(pc := SigThread(s, u)), st.thr[u].(granted := Some(s), place := Waking(c)), m);
  }

  lemma PopAssemble(st: State, c: Cpu, s: Sid, u: Tid, h: Hart, r: Thread, m: Sem)
    requires Inv(st) && c < NCPU && s in st.sem && st.cpu[c].pc == SigHave(s) && st.sem[s].value < 0
    requires st.sem[s].waiters != [] && u == st.sem[s].waiters[0] && u in st.thr && st.thr[u].place == Asleep(s) && st.thr[u].granted.None?
    requires h == st.cpu[c].(pc := SigThread(s, u)) && r == st.thr[u].(granted := Some(s), place := Waking(c)) && m == Incremented(st.sem[s])
    requires HartOk(h) && Holds(c, h.pc) == Holds(c, st.cpu[c].pc) && MidOnly(st.cpu[c], s) && MidOnly(h, s)
    requires CountsOk(m) && MutexOk(m) && m.pending.None? && SemBystanders(st.cpu, c, s, m)
    ensures Inv(st.(cpu := st.cpu[c := h], thr := st.thr[u := r], sem := st.sem[s := m]))
  {
    PopShaped(st, c, s);
    LocksKept(st.cpu, st.lock, c, h);
    HartsKept(st.cpu, c, h);
    TailsKept(st.cpu, st.run, c, h);
    PopPairs(st, c, s, u);
    assert ThreadOk(st.thr[u]);
    ThreadsKept(st.thr, u, r);
    PopLists(st, s, u, r);
    SemPairsChanged(st.cpu, st.sem, c, h, s, m);
    SemsChanged(st.sem, s, m);
    PopOwed(st.sem, st.thr, s, u, r);
  }

  lemma IncrementInv(st: State, c: Cpu, s: Sid)
    requires Inv(st) && c < NCPU && s in st.sem && st.cpu[c].pc == SigHave(s)
    ensures Inv(IncrementStep(st, c, s))
  {
    IncrementFacts(st, c, s);
    if st.sem[s].value >= 0 {
      HartInv(st, c);
      SigDoneCore(c, st.cpu[c], s, Incremented(st.sem[s]));
      SemInv(st, c, st.cpu[c].(pc := SigDone(s)), s, Incremented(st.sem[s]));
    } else {
      PopInv(st, c, s, st.sem[s].waiters[0]);
    }
  }

  // ---- starting an operation ----

  lemma StartQuiet(h: Hart, pc: Pc)
    requires HartOk(h) && h.pc.Run?
    requires var t := h.thread.value; pc == YieldWant(t) || pc == QuitWant(t) || (pc.WaitWant? && pc.t == t)
    ensures Quiet(h, h.(pc := pc)) && Holds(0, pc) == {} == Holds(0, h.pc)
  {
  }

  lemma StartQuietInv(st: State, c: Cpu, pc: Pc)
    requires Inv(st) && c < NCPU && st.cpu[c].pc.Run? && st.cpu[c].thread.Some?
    requires var t := st.cpu[c].thread.value; pc == YieldWant(t) || pc == QuitWant(t) || (pc.WaitWant? && pc.t == t && pc.s in st.sem)
    ensures Inv(Goto(st, c, pc))
  {
    hide Locks, Harts, Tails, Pairs, Threads, RunQueues, OutLists, WaitQueues, Sems, SemPairs, Owed, HartRel, SemRel, CountsOk, MutexOk, HartOk, ThreadOk;
    HartInv(st, c);
    StartQuiet(st.cpu[c], pc);
    LocksKept(st.cpu, st.lock, c, st.cpu[c].(pc := pc));
    QuietInv(st, Goto(st, c, pc), c, st.cpu[c].(pc := pc));
  }

  lemma StartSignalCore(c: Cpu, h: Hart, s: Sid, m: Sem)
    requires HartOk(h) && (h.pc.Run? || h.pc.Loop?) && SemRel(c, h, s, m) && CountsOk(m) && MutexOk(m)
    requires m.mutex ==> h.thread.Some? && h.thread.value in m.held
    ensures var m' := Unlocking(m, h);
            SemCore(c, h, h.(pc := SigWant(s)), s, m') && CountsOk(m') && MutexOk(m') && m'.waiters == m.waiters && m'.owed == m.owed
  {
  }

  lemma StartSignalBystander(c: Cpu, d: Cpu, h: Hart, g: Hart, s: Sid, m: Sem)
    requires SemRel(d, h, s, m)
    ensures SemRel(d, h, s, Unlocking(m, g))
  {
  }

  lemma StartSignalInv(st: State, c: Cpu, s: Sid)
    requires Inv(st) && c < NCPU && MayStart(st, c, Signal(s))
    ensures Inv(Start(st, c, Signal(s)))
  {
    var m := Unlocking(st.sem[s], st.cpu[c]);
    SemFacts(st, c, s);
    StartSignalCore(c, st.cpu[c], s, st.sem[s]);
    forall d: Cpu | d < NCPU && d != c ensures SemRel(d, st.cpu[d], s, m) {
      SemFacts(st, d, s);
      StartSignalBystander(c, d, st.cpu[d], st.cpu[c], s, st.sem[s]);
    }
    SemInv(st, c, st.cpu[c].(pc := SigWant(s)), s, m);
  }

  lemma NewRel(c: Cpu, d: Cpu, h: Hart, t: Tid, r: Thread)
    requires t !in PcTids(h.pc) && h.thread != Some(t) && r.place == Moving(c) && r.live.None? && c != d
    ensures HartRel(d, h, t, r)
  {
  }

  lemma SpawnMine(c: Cpu, h: Hart, t: Tid, r: Thread)
    requires HartOk(h) && (h.pc.Run? || h.pc.Loop?) && h.thread != Some(t) && r.place == Moving(c) && r.live.None?
    ensures var h' := h.(pc := SpawnWant(t));
            HartOk(h') && HartRel(c, h', t, r) && OtherSame(h, h', t) && Holds(c, h'.pc) == Holds(c, h.pc) && SemSame(h, h')
  {
  }

  lemma CreatePairs(st: State, c: Cpu, t: Tid, h: Hart, r: Thread)
    requires Inv(st) && c < NCPU && t !in st.thr && r.place == Moving(c) && r.live.None?
    requires HartRel(c, h, t, r) && OtherSame(st.cpu[c], h, t)
    ensures Pairs(st.cpu[c := h], st.thr[t := r])
  {
    var cpu', thr' := st.cpu[c := h], st.thr[t := r];
    forall d: Cpu, u | d < |cpu'| && u in thr' ensures HartRel(d, cpu'[d], u, thr'[u]) {
      if u == t {
        assert HartShaped(st, st.cpu[d]);
        if d != c { NewRel(c, d, st.cpu[d], t, r); }
      } else {
        PairInv(st, d, u);
        if d == c { OtherRel(c, st.cpu[c], h, t, u, st.thr[u]); }
      }
    }
  }

  lemma CreateLists(st: State, t: Tid, r: Thread)
    requires |st.run| == |st.out| == NCPU && t !in st.thr && r.place.Moving? && r.granted.None? && Owed(st.sem, st.thr)
    requires RunQueues(st.run, st.thr) && OutLists(st.out, st.thr) && WaitQueues(st.sem, st.thr)
    ensures RunQueues(st.run, st.thr[t := r]) && OutLists(st.out, st.thr[t := r])
    ensures WaitQueues(st.sem, st.thr[t := r]) && Owed(st.sem, st.thr[t := r])
  {
    assert forall s :: s in st.sem ==> WaitQueue(s, st.sem[s].waiters, st.thr);
  }

  lemma CreateShaped(st: State, c: Cpu, t: Tid, aff: int)
    requires Shaped(st) && c < NCPU && MayStart(st, c, Create(t, aff))
    ensures Shaped(Start(st, c, Create(t, aff)))
  {
    assert HartShaped(st, st.cpu[c]);
    var st' := Start(st, c, Create(t, aff));
    assert forall d :: 0 <= d < NCPU ==> HartShaped(st, st.cpu[d]);
    assert forall x :: x in st.sem ==> SemShaped(st, st.sem[x]);
    assert forall x :: x in st'.sem ==> SemShaped(st', st'.sem[x]);
  }

  lemma CreateInv(st: State, c: Cpu, t: Tid, aff: int)
    requires Inv(st) && c < NCPU && MayStart(st, c, Create(t, aff))
    ensures Inv(Start(st, c, Create(t, aff)))
  {
    var h, r := st.cpu[c].(pc := SpawnWant(t)), Thread(Used, aff, None, Moving(c), None);
    HartInv(st, c);
    assert HartShaped(st, st.cpu[c]);
    SpawnMine(c, st.cpu[c], t, r);
    CreateShaped(st, c, t, aff);
    CreatePairs(st, c, t, h, r);
    CreateLists(st, t, r);
    ThreadsKept(st.thr, t, r);
    LocksKept(st.cpu, st.lock, c, h);
    HartsKept(st.cpu, c, h);
    TailsKept(st.cpu, st.run, c, h);
    SemPairsKept(st.cpu, st.sem, c, h);
  }

  lemma NewSemRel(st: State, d: Cpu, s: Sid, v: nat, mutex: bool)
    requires Shaped(st) && d < NCPU && s !in st.sem
    ensures SemRel(d, st.cpu[d], s, InitSem(v, mutex))
  {
    assert HartShaped(st, st.cpu[d]);
  }

  lemma NewSemLists(st: State, s: Sid, m: Sem)
    requires Shaped(st) && s !in st.sem && m.waiters == [] && m.owed == {}
    requires WaitQueues(st.sem, st.thr) && Owed(st.sem, st.thr)
    ensures WaitQueues(st.sem[s := m], st.thr) && Owed(st.sem[s := m], st.thr)
  {
    assert forall t :: t in st.thr ==> ThreadShaped(st, st.thr[t]);
    assert WaitQueue(s, [], st.thr);
  }

  lemma NewSemShaped(st: State, s: Sid, m: Sem)
    requires Shaped(st) && s !in st.sem && m.waiters == []
    ensures Shaped(SetSem(st, s, m))
  {
    var st' := SetSem(st, s, m);
    assert forall d :: 0 <= d < NCPU ==> HartShaped(st, st.cpu[d]);
    assert forall t :: t in st.thr ==> ThreadShaped(st, st.thr[t]);
    assert forall x :: x in st.sem ==> SemShaped(st, st.sem[x]);
    assert forall x :: x in st'.sem ==> SemShaped(st', st'.sem[x]);
  }

  lemma NewSemPairs(cpu: seq<Hart>, sem: map<Sid, Sem>, s: Sid, m: Sem)
    requires SemPairs(cpu, sem)
    requires forall d: Cpu :: d < |cpu| ==> SemRel(d, cpu[d], s, m)
    ensures SemPairs(cpu, sem[s := m])
  {
  }

  lemma NewSemInv(st: State, c: Cpu, s: Sid, v: nat, mutex: bool)
    requires Inv(st) && c < NCPU && MayStart(st, c, NewSem(s, v, mutex))
    ensures Inv(Start(st, c, NewSem(s, v, mutex)))
  {
    var m := InitSem(v, mutex);
    NewSemShaped(st, s, m);
    NewSemLists(st, s, m);
    SemsChanged(st.sem, s, m);
    forall d: Cpu | d < NCPU ensures SemRel(d, st.cpu[d], s, m) {
      NewSemRel(st, d, s, v, mutex);
    }
    NewSemPairs(st.cpu, st.sem, s, m);
  }

  // ---- all steps ----

  lemma DataStepInv(st: State, c: Cpu)
    requires Inv(st) && Can(st, c, Step) && LockMove(c, st.cpu[c]).NoMove?
    ensures Inv(DataStep(st, c))
  {
    hide Inv, PickStep, UnlinkStep, DispatchStep, SwitchInStep, ClearStep, SwitchOutStep, QuitStep, WakeStep, LoadStep, EnqueueStep, DecrementStep, PushStep, SleepStep, IncrementStep, LockMove;
    assert HartShaped(st, st.cpu[c]);
    match st.cpu[c].pc
    case Pick => PickInv(st, c);
    case Unlink(t) => UnlinkInv(st, c, t);
    case Dispatch(t) => DispatchInv(st, c, t);
    case SwitchIn(t) => SwitchInInv(st, c, t);
    case Clear => ClearInv(st, c);
    case SwitchOut(t) => SwitchOutInv(st, c, t);
    case QuitHave(t) => QuitInv(st, c, t);
    case WakeHave(t, g) => WakeInv(st, c, t, g);
    case LoadHave(t, g) => LoadInv(st, c, t, g);
    case QueueHave(t, g, d) => EnqueueInv(st, c, t, g, d);
    case WaitHave(s, t) => DecrementInv(st, c, s, t);
    case WaitPush(s, t) => PushInv(st, c, s, t);
    case Sleep(t) => SleepInv(st, c, t);
    case SigHave(s) => IncrementInv(st, c, s);
    case _ =>
  }

  lemma StartInv(st: State, c: Cpu, a: Act)
    requires Inv(st) && c < NCPU && MayStart(st, c, a)
    ensures Inv(Start(st, c, a))
  {
    match a
    case Yield => StartQuietInv(st, c, YieldWant(st.cpu[c].thread.value));
    case Quit => StartQuietInv(st, c, QuitWant(st.cpu[c].thread.value));
    case Wait(s) => StartQuietInv(st, c, WaitWant(s, st.cpu[c].thread.value));
    case Signal(s) => StartSignalInv(st, c, s);
    case Create(t, aff) => CreateInv(st, c, t, aff);
    case NewSem(s, v, mutex) => NewSemInv(st, c, s, v, mutex);
  }

  /** The invariant is inductive. */
  lemma StepInv(st: State, c: Cpu, a: Act)
    requires Inv(st) && Can(st, c, a)
    ensures Inv(Next(st, c, a))
  {
    if !a.Step? {
      StartInv(st, c, a);
    } else if LockMove(c, st.cpu[c]).NoMove? {
      DataStepInv(st, c);
    } else {
      LockStepInv(st, c);
    }
  }

  /** It holds in every state of every run. */
  lemma {:induction false} RunInv(sts: seq<State>, i: nat)
    requires IsRun(sts) && i < |sts|
    ensures Inv(sts[i])
  {
    if i == 0 {
      InitInv();
    } else {
      RunInv(sts, i - 1);
      assert OneStep(sts[i - 1], sts[i - 1 + 1]);
      var c, a :| Can(sts[i - 1], c, a) && sts[i] == Next(sts[i - 1], c, a);
      StepInv(sts[i - 1], c, a);
    }
  }
}
