/** What the scheduler protocol guarantees, over every run of any number of threads,
    semaphores and interrupt handlers on NCPU harts. */
module SchedulerTheorems {
  import opened Basics
  import opened Scheduler
  import opened SchedulerInvariant
  import opened SchedulerFrames
  import opened SchedulerProofs

  // ---- deadlock freedom ----

  /** Hart `c` spins on a lock that hart `o` holds. */
  predicate WaitsFor(st: State, c: Cpu, o: Cpu) {
    && c < |st.cpu|
    && var w := Wants(c, st.cpu[c]);
       w.Some? && w.value in st.lock && st.lock[w.value] == o
  }

  /** Semaphore locks come before queue locks, and both before thread and load locks. */
  function Rank(w: Option<Lock>): nat {
    match w
    case None => 0
    case Some(ThreadLock(_)) => 1
    case Some(LoadLock) => 1
    case Some(QueueLock(_)) => 2
    case Some(SemLock(_)) => 3
  }

  /** Except for thread locks, the holder of a lock wants only later locks. */
  lemma HolderWantsLater(o: Cpu, h: Hart, l: Lock)
    requires l in Holds(o, h.pc) && !l.ThreadLock?
    ensures Rank(Wants(o, h)) < Rank(Some(l))
  {
  }

  /** The holder of a thread lock wants another lock only while it enqueues the thread. */
  lemma ThreadHolderWants(o: Cpu, h: Hart, t: Tid, r: Thread)
    requires HartOk(h) && HartRel(o, h, t, r) && ThreadLock(t) in Holds(o, h.pc) && Wants(o, h).Some?
    ensures r.place == OnCpu(o) || r.place == Moving(o)
    ensures h.pc.LoadWant? || h.pc.QueueWant?
  {
  }

  /** Whoever spins on a thread lock knows where the thread is. */
  lemma ThreadWanterKnows(c: Cpu, h: Hart, t: Tid, r: Thread)
    requires HartOk(h) && HartRel(c, h, t, r) && Wants(c, h) == Some(ThreadLock(t))
    ensures r.place == Ready(c) || r.place == Waking(c) || r.place == OnCpu(c) || r.place == Moving(c)
    ensures !h.pc.LoadWant? && !h.pc.QueueWant?
  {
  }

  lemma WantedThreadExists(st: State, c: Cpu, t: Tid)
    requires Inv(st) && c < NCPU && Wants(c, st.cpu[c]) == Some(ThreadLock(t))
    ensures t in st.thr
  {
    assert HartShaped(st, st.cpu[c]);
  }

  /** The wait-for graph descends: acquisition orders are inverted between scheduler()
      (queue, then thread) and yield()/wakeup_process() (thread, then queue), but the
      lock of a thread that is already enqueued is never held by a hart that wants
      another lock. */
  lemma WaitDescends(st: State, c: Cpu, o: Cpu)
    requires Inv(st) && c < NCPU && WaitsFor(st, c, o)
    ensures o < NCPU && o != c && Rank(Wants(o, st.cpu[o])) < Rank(Wants(c, st.cpu[c]))
  {
    var l := Wants(c, st.cpu[c]).value;
    assert l in Holds(o, st.cpu[o].pc);
    if l.ThreadLock? {
      WantedThreadExists(st, c, l.tid);
      PairInv(st, c, l.tid);
      PairInv(st, o, l.tid);
      ThreadWanterKnows(c, st.cpu[c], l.tid, st.thr[l.tid]);
      if Wants(o, st.cpu[o]).Some? {
        ThreadHolderWants(o, st.cpu[o], l.tid, st.thr[l.tid]);
      }
    } else {
      HolderWantsLater(o, st.cpu[o], l);
    }
  }

  predicate WaitChain(st: State, path: seq<Cpu>) {
    forall i :: 0 <= i < |path| - 1 ==> WaitsFor(st, path[i], path[i + 1])
  }

  function RankOf(st: State, c: Cpu): nat {
    if c < |st.cpu| then Rank(Wants(c, st.cpu[c])) else 0
  }

  lemma {:induction false} ChainInRange(st: State, path: seq<Cpu>, i: nat)
    requires Inv(st) && i < |path| && WaitChain(st, path) && path[0] < NCPU
    ensures path[i] < NCPU
    ensures i + 1 < |path| ==> RankOf(st, path[i + 1]) < RankOf(st, path[i])
  {
    if i > 0 {
      ChainInRange(st, path, i - 1);
      assert WaitsFor(st, path[i - 1], path[i - 1 + 1]);
      WaitDescends(st, path[i - 1], path[i]);
    }
    if i + 1 < |path| { WaitDescends(st, path[i], path[i + 1]); }
  }

  /** A chain of strictly falling ranks is no longer than its first rank allows. */
  lemma {:induction false} FallingRanks(st: State, path: seq<Cpu>, j: nat)
    requires j < |path| && forall i :: 0 <= i < |path| - 1 ==> RankOf(st, path[i + 1]) < RankOf(st, path[i])
    ensures RankOf(st, path[j]) + j <= RankOf(st, path[0])
  {
    if j > 0 {
      FallingRanks(st, path, j - 1);
      assert RankOf(st, path[j - 1 + 1]) < RankOf(st, path[j - 1]);
    }
  }

  /** No set of harts waits in a circle, and no chain of waiting harts is longer than four. */
  lemma NoDeadlock(sts: seq<State>, i: nat, path: seq<Cpu>)
    requires IsRun(sts) && i < |sts| && |path| > 1 && path[0] < NCPU && WaitChain(sts[i], path)
    ensures path[0] != path[|path| - 1] && |path| <= 4
  {
    RunInv(sts, i);
    forall j | 0 <= j < |path| - 1 ensures RankOf(sts[i], path[j + 1]) < RankOf(sts[i], path[j]) {
      ChainInRange(sts[i], path, j);
    }
    FallingRanks(sts[i], path, |path| - 1);
  }

  /** Behind every hart that spins there is one that can take a step. */
  lemma {:induction false} Unblocker(st: State, c: Cpu) returns (path: seq<Cpu>)
    requires Inv(st) && c < NCPU
    ensures |path| > 0 && path[0] == c && WaitChain(st, path) && path[|path| - 1] < NCPU
    ensures Unblocked(st, path[|path| - 1])
    decreases Rank(Wants(c, st.cpu[c]))
  {
    hide Locks, Harts, Tails, Pairs, Threads, RunQueues, OutLists, WaitQueues, Sems, SemPairs, Owed, HartOk, Holds;
    if Unblocked(st, c) {
      path := [c];
    } else {
      var o := st.lock[Wants(c, st.cpu[c]).value];
      WaitDescends(st, c, o);
      var rest := Unblocker(st, o);
      path := [c] + rest;
    }
  }

  /** In every reachable state and for every hart, the hart at the end of its wait chain
      runs thread code or can execute the next step of the kernel code it is in. */
  lemma Progress(sts: seq<State>, i: nat, c: Cpu) returns (path: seq<Cpu>)
    requires IsRun(sts) && i < |sts| && c < NCPU
    ensures |path| > 0 && path[0] == c && WaitChain(sts[i], path)
    ensures var d := path[|path| - 1]; d < NCPU == |sts[i].cpu| && (sts[i].cpu[d].pc.Run? || Can(sts[i], d, Step))
  {
    RunInv(sts, i);
    path := Unblocker(sts[i], c);
    assert HartOk(sts[i].cpu[path[|path| - 1]]);
  }

  // ---- every thread is in one place ----

  datatype Site = RunQueueOf(c: Cpu) | WaitQueueOf(s: Sid) | OutListOf(c: Cpu) | Executing(c: Cpu) | InHand(c: Cpu)

  /** The hart has re-filed its thread and is switching away from it. */
  predicate SwitchingAway(pc: Pc) {
    CurOf(pc).Leaving? || CurOf(pc).Left? || CurOf(pc).Stale?
  }

  predicate IsAt(st: State, t: Tid, site: Site) {
    match site
    case RunQueueOf(c) => c < |st.run| && t in st.run[c]
    case WaitQueueOf(s) => s in st.sem && t in st.sem[s].waiters
    case OutListOf(c) => c < |st.out| && t in st.out[c]
    case Executing(c) => c < |st.cpu| && st.cpu[c].thread == Some(t) && !SwitchingAway(st.cpu[c].pc)
    case InHand(c) => c < |st.cpu| && var x := SubjOf(st.cpu[c].pc); x == Fresh(t) || x == Carry(t) || (x.Woken? && x.t == t)
  }

  function SiteOf(p: Place): Site {
    match p
    case Ready(c) => RunQueueOf(c)
    case Asleep(s) => WaitQueueOf(s)
    case Gone(c) => OutListOf(c)
    case OnCpu(c) => Executing(c)
    case Moving(c) => InHand(c)
    case Waking(c) => InHand(c)
  }

  lemma SiteSound(st: State, t: Tid)
    requires Inv(st) && t in st.thr
    ensures IsAt(st, t, SiteOf(st.thr[t].place))
  {
    assert ThreadOk(st.thr[t]);
    var p := st.thr[t].place;
    if p.OnCpu? || p.Moving? || p.Waking? { PairInv(st, p.hart, t); }
    if p.Asleep? { assert WaitQueue(p.sem, st.sem[p.sem].waiters, st.thr); }
  }

  lemma SiteUnique(st: State, t: Tid, site: Site)
    requires Inv(st) && t in st.thr && IsAt(st, t, site)
    ensures site == SiteOf(st.thr[t].place)
  {
    match site
    case WaitQueueOf(s) => assert WaitQueue(s, st.sem[s].waiters, st.thr);
    case Executing(c) => PairInv(st, c, t); ExecutingPlace(c, st.cpu[c], t, st.thr[t]);
    case InHand(c) => PairInv(st, c, t); InHandPlace(c, st.cpu[c], t, st.thr[t]);
    case RunQueueOf(c) => ReadyPlace(st.run, st.thr, c, t);
    case OutListOf(c) => GonePlace(st.out, st.thr, c, t);
  }

  lemma InHandPlace(c: Cpu, h: Hart, t: Tid, r: Thread)
    requires HartRel(c, h, t, r)
    requires var x := SubjOf(h.pc); x == Fresh(t) || x == Carry(t) || (x.Woken? && x.t == t)
    ensures r.place == Moving(c) || r.place == Waking(c)
  {
  }

  lemma ReadyPlace(run: seq<seq<Tid>>, thr: map<Tid, Thread>, c: Cpu, t: Tid)
    requires |run| == NCPU && RunQueues(run, thr) && c < NCPU && t in run[c]
    ensures t in thr && thr[t].place == Ready(c)
  {
  }

  lemma GonePlace(out: seq<seq<Tid>>, thr: map<Tid, Thread>, c: Cpu, t: Tid)
    requires |out| == NCPU && OutLists(out, thr) && c < NCPU && t in out[c]
    ensures t in thr && thr[t].place == Gone(c)
  {
  }

  lemma ExecutingPlace(c: Cpu, h: Hart, t: Tid, r: Thread)
    requires HartOk(h) && HartRel(c, h, t, r) && h.thread == Some(t) && !SwitchingAway(h.pc)
    ensures r.place == OnCpu(c)
  {
  }

  /** In every run a thread that was created is at exactly one site, and no list names
      it twice. */
  lemma OnePlace(sts: seq<State>, i: nat, t: Tid)
    requires IsRun(sts) && i < |sts| && t in sts[i].thr
    ensures exists site :: IsAt(sts[i], t, site)
    ensures forall a, b :: IsAt(sts[i], t, a) && IsAt(sts[i], t, b) ==> a == b
    ensures forall c :: 0 <= c < |sts[i].run| ==> NoDup(sts[i].run[c])
    ensures forall c :: 0 <= c < |sts[i].out| ==> NoDup(sts[i].out[c])
    ensures forall s :: s in sts[i].sem ==> NoDup(sts[i].sem[s].waiters)
  {
    var st := sts[i];
    RunInv(sts, i);
    SiteSound(st, t);
    forall a, b | IsAt(st, t, a) && IsAt(st, t, b) ensures a == b {
      SiteUnique(st, t, a);
      SiteUnique(st, t, b);
    }
    forall s | s in st.sem ensures NoDup(st.sem[s].waiters) {
      assert WaitQueue(s, st.sem[s].waiters, st.thr);
    }
  }

  /** During the switch-out window the leaving hart still has the thread's lock, so the
      thread cannot be started elsewhere. */
  lemma WindowLocked(sts: seq<State>, i: nat, c: Cpu, t: Tid)
    requires IsRun(sts) && i < |sts| && c < NCPU && |sts[i].cpu| == NCPU && sts[i].cpu[c].thread == Some(t)
    requires SwitchingAway(sts[i].cpu[c].pc) && !sts[i].cpu[c].pc.Clear?
    ensures ThreadLock(t) in sts[i].lock && sts[i].lock[ThreadLock(t)] == c
  {
    RunInv(sts, i);
    HartInv(sts[i], c);
    AwayHolds(c, sts[i].cpu[c], t);
    HeldOwner(sts[i].cpu, sts[i].lock, c, ThreadLock(t));
  }

  lemma HeldOwner(cpu: seq<Hart>, lock: map<Lock, Cpu>, c: Cpu, l: Lock)
    requires |cpu| == NCPU && c < NCPU && Locks(cpu, lock) && l in Holds(c, cpu[c].pc)
    ensures l in lock && lock[l] == c
  {
  }

  lemma AwayHolds(c: Cpu, h: Hart, t: Tid)
    requires HartOk(h) && h.thread == Some(t) && SwitchingAway(h.pc) && !h.pc.Clear?
    ensures ThreadLock(t) in Holds(c, h.pc)
  {
  }

  // ---- contexts ----

  /** The registers of hart `c` hold the context of thread `t`: the hart has loaded it
      and not yet saved it. */
  predicate InRegisters(st: State, c: Cpu, t: Tid) {
    && c < |st.cpu| && st.cpu[c].thread == Some(t)
    && (CurOf(st.cpu[c].pc).Exec? || CurOf(st.cpu[c].pc).Leaving?)
  }

  lemma RegistersLive(st: State, c: Cpu, t: Tid)
    requires Inv(st) && c < NCPU && InRegisters(st, c, t)
    ensures t in st.thr && st.thr[t].live == Some(c)
  {
    assert HartShaped(st, st.cpu[c]);
    PairInv(st, c, t);
  }

  /** A context is in at most one hart, and a hart about to load it finds it saved. */
  lemma ContextSaved(sts: seq<State>, i: nat, c: Cpu, d: Cpu, t: Tid)
    requires IsRun(sts) && i < |sts| && c < NCPU && d < NCPU && |sts[i].cpu| == NCPU && InRegisters(sts[i], d, t)
    ensures InRegisters(sts[i], c, t) ==> c == d
    ensures sts[i].cpu[c].pc != SwitchIn(t)
  {
    var st := sts[i];
    RunInv(sts, i);
    RegistersLive(st, d, t);
    PairInv(st, c, t);
    if InRegisters(st, c, t) { RegistersLive(st, c, t); }
  }

  // ---- the kernel's own assertions ----

  /** No run reaches a panic: sem_signal finds a waiter whenever the value says so,
      spin_unlock is called by the holder, spin_lock never by the holder, and sched()
      is entered with the thread lock held and the state not RUNNING. */
  lemma NoPanic(sts: seq<State>, i: nat, c: Cpu)
    requires IsRun(sts) && i < |sts| && c < NCPU
    ensures |sts[i].cpu| == NCPU
    ensures var st := sts[i]; var h := st.cpu[c];
            && !h.pc.Panic?
            && (LockMove(c, h).Give? ==> LockMove(c, h).l in st.lock && st.lock[LockMove(c, h).l] == c)
            && (LockMove(c, h).Take? && LockMove(c, h).l in st.lock ==> st.lock[LockMove(c, h).l] != c)
            && (h.pc.SwitchOut? ==> ThreadLock(h.pc.t) in st.lock && st.lock[ThreadLock(h.pc.t)] == c
                                    && h.pc.t in st.thr && !st.thr[h.pc.t].state.Running?)
  {
    var st := sts[i];
    RunInv(sts, i);
    HartInv(st, c);
    var h := st.cpu[c];
    if LockMove(c, h).Give? { GiveQuiet(c, h); }
    if LockMove(c, h).Take? && LockMove(c, h).l in st.lock { WaitDescends(st, c, st.lock[LockMove(c, h).l]); }
    if h.pc.SwitchOut? {
      assert HartShaped(st, h);
      PairInv(st, c, h.pc.t);
      assert ThreadLock(h.pc.t) in Holds(c, h.pc);
    }
  }

  /** Every queued thread is RUNNABLE, so pick_next_task returns the oldest entry. */
  lemma PickIsOldest(sts: seq<State>, i: nat, c: Cpu)
    requires IsRun(sts) && i < |sts| && c < NCPU
    ensures |sts[i].run| == NCPU
    ensures forall t :: t in sts[i].run[c] ==> t in sts[i].thr && sts[i].thr[t].state.Runnable?
    ensures PickNext(sts[i].run[c], sts[i].thr) ==
            if sts[i].run[c] == [] then None else Some(sts[i].run[c][|sts[i].run[c]| - 1])
  {
    RunInv(sts, i);
    AllRunnable(sts[i], c);
    PickLast(sts[i].run[c], sts[i].thr);
  }

  // ---- semaphores and mutexes ----

  /** The wait queue is as long as the value is negative, up to a waiter between its
      decrement and its push; no more waits return than there were permits; waiters
      leave in the order they came. */
  lemma SemaphoreLaws(sts: seq<State>, i: nat, s: Sid)
    requires IsRun(sts) && i < |sts| && s in sts[i].sem
    ensures var m := sts[i].sem[s];
            && |m.waiters| + (if m.pending.Some? then 1 else 0) == Max(0, -m.value)
            && (SemLock(s) !in sts[i].lock ==> |m.waiters| == Max(0, -m.value))
            && m.finished <= m.start + m.signals
            && m.pushLog == m.popLog + m.waiters
  {
    hide Harts, Tails, Pairs, Threads, RunQueues, OutLists, WaitQueues, Sems, SemPairs, Owed, MutexOk, HartOk, Holds, Locks, Shaped, IsRun;
    var st := sts[i];
    RunInv(sts, i);
    SemFacts(st, 0, s);
    if st.sem[s].pending.Some? {
      var d := st.sem[s].pending.value;
      SemFacts(st, d, s);
      MidHolds(d, st.cpu[d].pc, s);
      HeldTwice(st.cpu, st.lock, d, d, SemLock(s));
    }
  }

  /** The counters and logs of a semaphore only grow, and what it was made with stays. */
  predicate LogsExtend(m: Sem, m': Sem) {
    && m.pushLog <= m'.pushLog && m.popLog <= m'.popLog
    && m.signals <= m'.signals && m.finished <= m'.finished && m'.start == m.start && m'.mutex == m.mutex
  }

  lemma LogsGrowData(st: State, c: Cpu, s: Sid)
    requires Shaped(st) && c < NCPU && s in st.sem
    ensures s in DataStep(st, c).sem && LogsExtend(st.sem[s], DataStep(st, c).sem[s]) && st.sem[s].held <= DataStep(st, c).sem[s].held
  {
    hide Shaped, DataStep, LogsExtend;
    Named(st, c);
    match st.cpu[c].pc
    case WaitHave(x, t) => DecrementLogs(st, c, x, t, s);
    case WaitPush(x, t) => PushLogs(st, c, x, t, s);
    case SigHave(x) => IncrementLogs(st, c, x, s);
    case SwitchIn(t) => SwitchInLogs(st, c, t, s);
    case _ => SameSem(st, c, s);
  }

  lemma Named(st: State, c: Cpu)
    requires Shaped(st) && c < NCPU
    ensures |st.cpu| == NCPU && HartShaped(st, st.cpu[c])
  {
  }

  lemma DecrementLogs(st: State, c: Cpu, x: Sid, t: Tid, s: Sid)
    requires Shaped(st) && c < NCPU && x in st.sem && s in st.sem && st.cpu[c].pc == WaitHave(x, t)
    ensures s in DataStep(st, c).sem && LogsExtend(st.sem[s], DataStep(st, c).sem[s]) && st.sem[s].held <= DataStep(st, c).sem[s].held
  {
    hide Shaped;
    assert DataStep(st, c).sem == st.sem[x := Decremented(st.sem[x], c, t)];
  }

  lemma PushLogs(st: State, c: Cpu, x: Sid, t: Tid, s: Sid)
    requires Shaped(st) && c < NCPU && x in st.sem && t in st.thr && s in st.sem && st.cpu[c].pc == WaitPush(x, t)
    ensures s in DataStep(st, c).sem && LogsExtend(st.sem[s], DataStep(st, c).sem[s]) && st.sem[s].held <= DataStep(st, c).sem[s].held
  {
    hide Shaped;
    assert DataStep(st, c).sem == st.sem[x := Pushed(st.sem[x], t)];
  }

  lemma IncrementLogs(st: State, c: Cpu, x: Sid, s: Sid)
    requires Shaped(st) && c < NCPU && x in st.sem && s in st.sem && st.cpu[c].pc == SigHave(x)
    ensures s in DataStep(st, c).sem && LogsExtend(st.sem[s], DataStep(st, c).sem[s]) && st.sem[s].held <= DataStep(st, c).sem[s].held
  {
    hide Shaped;
    assert DataStep(st, c).sem == st.sem[x := Incremented(st.sem[x])];
  }

  lemma SwitchInLogs(st: State, c: Cpu, t: Tid, s: Sid)
    requires Shaped(st) && c < NCPU && t in st.thr && s in st.sem && st.cpu[c].pc == SwitchIn(t)
    ensures s in DataStep(st, c).sem && LogsExtend(st.sem[s], DataStep(st, c).sem[s]) && st.sem[s].held <= DataStep(st, c).sem[s].held
  {
    hide Shaped;
    assert DataStep(st, c) == SwitchInStep(st, c, t);
  }

  lemma SameSem(st: State, c: Cpu, s: Sid)
    requires Shaped(st) && c < NCPU && s in st.sem
    requires !st.cpu[c].pc.WaitHave? && !st.cpu[c].pc.WaitPush? && !st.cpu[c].pc.SigHave? && !st.cpu[c].pc.SwitchIn?
    ensures s in DataStep(st, c).sem && LogsExtend(st.sem[s], DataStep(st, c).sem[s]) && st.sem[s].held <= DataStep(st, c).sem[s].held
  {
    hide HartShaped, ThreadShaped, SemShaped;
    assert DataStep(st, c).sem == st.sem;
  }

  /** The logs only grow, so the order they record is the order of the run, and a thread stops
      holding only by its own signal. */
  lemma LogsGrow(st: State, c: Cpu, a: Act, s: Sid)
    requires Can(st, c, a) && s in st.sem
    ensures s in Next(st, c, a).sem && LogsExtend(st.sem[s], Next(st, c, a).sem[s])
    ensures forall t :: t in st.sem[s].held && t !in Next(st, c, a).sem[s].held ==> a == Signal(s) && st.cpu[c].thread == Some(t)
  {
    if !a.Step? {
      assert Next(st, c, a) == Start(st, c, a);
    } else if LockMove(c, st.cpu[c]).NoMove? {
      LogsGrowData(st, c, s);
    } else {
      assert LockStep(st, c).sem == st.sem;
    }
  }

  /** Mutual exclusion: two threads never hold the same mutex. */
  lemma MutualExclusion(sts: seq<State>, i: nat, s: Sid, t: Tid, u: Tid)
    requires IsRun(sts) && i < |sts| && s in sts[i].sem && sts[i].sem[s].mutex
    requires t in sts[i].sem[s].held && u in sts[i].sem[s].held
    ensures t == u && sts[i].sem[s].value <= 0
  {
    RunInv(sts, i);
    SemFacts(sts[i], 0, s);
  }
}
