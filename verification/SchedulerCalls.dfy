/** What the operations of the scheduler promise their callers: when sem_wait returns it has
    a permit, a yielding, new or woken thread goes through a run queue, a thread that quits
    never runs again. */
module SchedulerCalls {
  import opened Basics
  import opened Scheduler
  import opened SchedulerInvariant
  import opened SchedulerFrames
  import opened SchedulerProofs
  import opened SchedulerTheorems
  import opened SchedulerService

  // ---- sem_wait ----

  /** Thread `t` is back in its own code. */
  predicate InCode(st: State, t: Tid) {
    exists c :: 0 <= c < |st.cpu| && st.cpu[c] == Hart(Run, Some(t))
  }

  /** The code of sem_wait up to the push. */
  predicate WaitCode(pc: Pc, s: Sid, t: Tid) {
    pc == WaitWant(s, t) || pc == WaitHave(s, t) || pc == WaitSelf(s, t) || pc == WaitPush(s, t)
  }

  /** Thread `t` is in sem_wait(s) and has not got its permit. */
  predicate Waiting(st: State, s: Sid, t: Tid) {
    || (exists c :: 0 <= c < |st.cpu| && WaitCode(st.cpu[c].pc, s, t))
    || (t in st.thr && (st.thr[t].place == Asleep(s) || st.thr[t].granted == Some(s)))
  }

  /** One wait ended, with thread `t` among the holders. */
  predicate Granted(m: Sem, m': Sem, t: Tid) { m'.finished == m.finished + 1 && t in m'.held }

  lemma WaitCodeStep(st: State, c: Cpu, a: Act, s: Sid, t: Tid)
    requires Inv(st) && Can(st, c, a) && s in st.sem && t in st.thr && WaitCode(st.cpu[c].pc, s, t)
    ensures var st' := Next(st, c, a); s in st'.sem && (Waiting(st', s, t) || Granted(st.sem[s], st'.sem[s], t))
  {
    hide Inv, Shaped, PickNext, Remove, Pushed, Incremented, Finished, Unblocked;
    InvShaped(st);
    Named(st, c);
    var st' := Next(st, c, a);
    if st.cpu[c].pc.WaitHave? {
      assert st' == DecrementStep(st, c, s, t);
      assert st'.sem[s] == Decremented(st.sem[s], c, t);
      if st'.sem[s].value < 0 { assert WaitCode(st'.cpu[c].pc, s, t); }
    } else if st.cpu[c].pc.WaitPush? {
      assert st' == PushStep(st, c, s, t);
    } else {
      assert st' == LockStep(st, c);
      assert WaitCode(st'.cpu[c].pc, s, t);
    }
  }

  lemma WaitingStep(st: State, c: Cpu, a: Act, s: Sid, t: Tid)
    requires Inv(st) && Can(st, c, a) && s in st.sem && t in st.thr && Waiting(st, s, t)
    ensures var st' := Next(st, c, a); s in st'.sem && (Waiting(st', s, t) || Granted(st.sem[s], st'.sem[s], t))
  {
    hide Inv, Shaped, Can, Next, WaitCode;
    LogsGrow(st, c, a, s);
    if st.thr[t].place == Asleep(s) || st.thr[t].granted == Some(s) {
      PatientStep(st, c, a, t);
    } else {
      var d :| 0 <= d < |st.cpu| && WaitCode(st.cpu[d].pc, s, t);
      if d == c { WaitCodeStep(st, c, a, s, t); } else { InvHarts(st); OthersStay(st, c, a, d); }
    }
  }

  /** A thread in its own code is in no sem_wait. */
  lemma InCodeNotWaiting(st: State, s: Sid, t: Tid)
    requires Inv(st) && InCode(st, t)
    ensures !Waiting(st, s, t) && t in st.thr
  {
    hide Inv, Shaped;
    InvHarts(st);
    InvShaped(st);
    var c :| 0 <= c < |st.cpu| && st.cpu[c] == Hart(Run, Some(t));
    Named(st, c);
    PairInv(st, c, t);
    forall d | 0 <= d < |st.cpu| ensures !WaitCode(st.cpu[d].pc, s, t) { PairInv(st, d, t); }
  }

  /** The wait that began at step `i` is still going on, or has ended. */
  ghost predicate WaitStage(sts: seq<State>, i: nat, k: nat, s: Sid, t: Tid)
    requires i < k < |sts|
  {
    && s in sts[i].sem && s in sts[k].sem && t in sts[k].thr
    && sts[k].sem[s].mutex == sts[i].sem[s].mutex && sts[i].sem[s].finished <= sts[k].sem[s].finished
    && (!Waiting(sts[k], s, t) ==> sts[i].sem[s].finished < sts[k].sem[s].finished && (sts[i].sem[s].mutex ==> t in sts[k].sem[s].held))
  }

  /** Whoever calls from thread code runs the calling thread. */
  lemma CallerInCode(st: State, c: Cpu, a: Act, t: Tid)
    requires Inv(st) && Can(st, c, a) && !a.Step? && st.cpu[c].thread == Some(t)
    ensures InCode(st, t)
  {
    HartInv(st, c);
    assert st.cpu[c] == Hart(Run, Some(t));
  }

  lemma {:induction false} WaitStages(sts: seq<State>, i: nat, k: nat, c: Cpu, s: Sid, t: Tid)
    requires IsRun(sts) && i < k < |sts| && Can(sts[i], c, Wait(s)) && sts[i].cpu[c].thread == Some(t) && sts[i + 1] == Next(sts[i], c, Wait(s))
    requires forall m :: i < m < k ==> !InCode(sts[m], t)
    ensures WaitStage(sts, i, k, s, t)
  {
    hide Inv, Next, Can, Waiting, InCode, Shaped, HartShaped;
    if k == i + 1 {
      RunInv(sts, i);
      WaitStarts(sts[i], c, s, t);
    } else {
      WaitStages(sts, i, k - 1, c, s, t);
      var d, a := StepOf(sts, k - 1);
      LogsGrow(sts[k - 1], d, a, s);
      PatientStep(sts[k - 1], d, a, t);
      if Waiting(sts[k - 1], s, t) { WaitingStep(sts[k - 1], d, a, s, t); }
      if a == Signal(s) && sts[k - 1].cpu[d].thread == Some(t) { CallerInCode(sts[k - 1], d, a, t); }
    }
  }

  lemma WaitStarts(st: State, c: Cpu, s: Sid, t: Tid)
    requires Inv(st) && Can(st, c, Wait(s)) && st.cpu[c].thread == Some(t)
    ensures var st' := Next(st, c, Wait(s)); s in st.sem && st'.sem == st.sem && t in st'.thr && Waiting(st', s, t)
  {
    hide Inv, Shaped, HartShaped;
    InvShaped(st);
    Named(st, c);
    NamedThread(st, c);
    assert WaitCode(Next(st, c, Wait(s)).cpu[c].pc, s, t);
  }

  /** When sem_wait returns to its caller a wait has ended that had not ended at the call, and
      the caller of a mutex_lock holds the mutex. */
  lemma WaitReturns(sts: seq<State>, i: nat, j: nat, c: Cpu, s: Sid, t: Tid)
    requires IsRun(sts) && i < j < |sts| && Can(sts[i], c, Wait(s)) && sts[i].cpu[c].thread == Some(t) && sts[i + 1] == Next(sts[i], c, Wait(s))
    requires InCode(sts[j], t) && forall k :: i < k < j ==> !InCode(sts[k], t)
    ensures s in sts[i].sem && s in sts[j].sem && sts[i].sem[s].finished < sts[j].sem[s].finished
    ensures sts[i].sem[s].mutex ==> sts[j].sem[s].mutex && t in sts[j].sem[s].held
  {
    hide Inv, Next, Can, Waiting, InCode;
    WaitStages(sts, i, j, c, s, t);
    RunInv(sts, j);
    InCodeNotWaiting(sts[j], s, t);
  }

  // ---- mutual exclusion, from call to call ----

  /** Thread `t` called mutex_lock(s) at some step and its call returned at step `j`. */
  ghost predicate Locked(sts: seq<State>, j: nat, s: Sid, t: Tid) {
    exists i: nat, c: Cpu :: LockCall(sts, i, j, c, s, t)
  }

  ghost predicate LockCall(sts: seq<State>, i: nat, j: nat, c: Cpu, s: Sid, t: Tid) {
    && i < j < |sts| && Can(sts[i], c, Wait(s)) && sts[i].sem[s].mutex && sts[i].cpu[c].thread == Some(t) && sts[i + 1] == Next(sts[i], c, Wait(s))
    && InCode(sts[j], t) && forall k :: i < k < j ==> !InCode(sts[k], t)
  }

  /** Step `k` is a call of mutex_unlock(s) by thread `t`. */
  ghost predicate Unlocks(sts: seq<State>, k: nat, s: Sid, t: Tid) {
    && k + 1 < |sts|
    && exists c: Cpu :: Can(sts[k], c, Signal(s)) && sts[k].cpu[c].thread == Some(t) && sts[k + 1] == Next(sts[k], c, Signal(s))
  }

  lemma {:induction false} HeldUntilUnlock(sts: seq<State>, j: nat, k: nat, s: Sid, t: Tid)
    requires IsRun(sts) && j <= k < |sts| && s in sts[j].sem && sts[j].sem[s].mutex && t in sts[j].sem[s].held
    requires forall m :: j <= m < k ==> !Unlocks(sts, m, s, t)
    ensures s in sts[k].sem && sts[k].sem[s].mutex && t in sts[k].sem[s].held
  {
    hide Inv, Next, Can;
    if j < k {
      HeldUntilUnlock(sts, j, k - 1, s, t);
      var m: nat := k - 1;
      var c, a := StepOf(sts, m);
      LogsGrow(sts[m], c, a, s);
      assert a == Signal(s) && sts[m].cpu[c].thread == Some(t) ==> Unlocks(sts, m, s, t);
    }
  }

  /** Between the return of its mutex_lock and its mutex_unlock a thread is alone: two threads
      that both have locked and not unlocked are the same thread. */
  lemma CriticalSection(sts: seq<State>, k: nat, s: Sid, t: Tid, i: nat, u: Tid, j: nat)
    requires IsRun(sts) && i <= k < |sts| && j <= k
    requires Locked(sts, i, s, t) && forall m :: i <= m < k ==> !Unlocks(sts, m, s, t)
    requires Locked(sts, j, s, u) && forall m :: j <= m < k ==> !Unlocks(sts, m, s, u)
    ensures t == u
  {
    hide Inv, Next, Can, InCode, Unlocks;
    LockedHolds(sts, i, s, t);
    LockedHolds(sts, j, s, u);
    HeldUntilUnlock(sts, i, k, s, t);
    HeldUntilUnlock(sts, j, k, s, u);
    MutualExclusion(sts, k, s, t, u);
  }

  lemma LockedHolds(sts: seq<State>, j: nat, s: Sid, t: Tid)
    requires IsRun(sts) && Locked(sts, j, s, t)
    ensures j < |sts| && s in sts[j].sem && sts[j].sem[s].mutex && t in sts[j].sem[s].held
  {
    hide Inv, Next, InCode;
    var i, c :| LockCall(sts, i, j, c, s, t);
    WaitReturns(sts, i, j, c, s, t);
  }

  // ---- sem_signal and sem_init ----

  lemma SignalStep(st: State, c: Cpu, a: Act, s: Sid)
    requires Inv(st) && Can(st, c, a) && s in st.sem && (st.cpu[c].pc == SigWant(s) || st.cpu[c].pc == SigHave(s))
    ensures var st' := Next(st, c, a);
            c < |st'.cpu| && (st'.cpu[c].pc == SigHave(s) || (s in st'.sem && st'.sem[s].signals == st.sem[s].signals + 1))
  {
    hide Inv, Shaped, PickNext, Remove, Unblocked;
    InvShaped(st);
    Named(st, c);
    if st.cpu[c].pc.SigHave? { assert Next(st, c, a) == IncrementStep(st, c, s); }
  }

  lemma SignalStarts(st: State, c: Cpu, s: Sid)
    requires Inv(st) && Can(st, c, Signal(s))
    ensures var st' := Next(st, c, Signal(s));
            s in st.sem && s in st'.sem && st'.sem[s].signals == st.sem[s].signals && c < |st'.cpu| && st'.cpu[c].pc == SigWant(s)
  {
    hide Inv, Shaped, HartShaped;
    InvShaped(st);
    Named(st, c);
  }

  lemma {:induction false} SignalStages(sts: seq<State>, i: nat, k: nat, c: Cpu, s: Sid)
    requires IsRun(sts) && i < k < |sts| && Can(sts[i], c, Signal(s)) && sts[i + 1] == Next(sts[i], c, Signal(s))
    ensures s in sts[i].sem && s in sts[k].sem && c < |sts[k].cpu| && sts[i].sem[s].signals <= sts[k].sem[s].signals
    ensures sts[k].cpu[c].pc == SigWant(s) || sts[k].cpu[c].pc == SigHave(s) || sts[i].sem[s].signals < sts[k].sem[s].signals
  {
    hide Inv, Next, Can;
    if k == i + 1 {
      RunInv(sts, i);
      SignalStarts(sts[i], c, s);
    } else {
      SignalStages(sts, i, k - 1, c, s);
      var d, a := StepOf(sts, k - 1);
      LogsGrow(sts[k - 1], d, a, s);
      InvHarts(sts[k - 1]);
      if d != c {
        OthersStay(sts[k - 1], d, a, c);
      } else if sts[i].sem[s].signals == sts[k - 1].sem[s].signals {
        SignalStep(sts[k - 1], c, a, s);
      } else {
        RunInv(sts, k);
        InvHarts(sts[k]);
      }
    }
  }

  /** When the hart is out of sem_signal the signal has been counted. */
  lemma SignalReturns(sts: seq<State>, i: nat, j: nat, c: Cpu, s: Sid)
    requires IsRun(sts) && i < j < |sts| && Can(sts[i], c, Signal(s)) && sts[i + 1] == Next(sts[i], c, Signal(s))
    requires c < |sts[j].cpu| && AtRest(sts[j].cpu[c])
    ensures s in sts[i].sem && s in sts[j].sem && sts[i].sem[s].signals < sts[j].sem[s].signals
  {
    SignalStages(sts, i, j, c, s);
  }

  lemma {:induction false} SemFixed(sts: seq<State>, i: nat, j: nat, s: Sid)
    requires IsRun(sts) && i <= j < |sts| && s in sts[i].sem
    ensures s in sts[j].sem && sts[j].sem[s].start == sts[i].sem[s].start && sts[j].sem[s].mutex == sts[i].sem[s].mutex
  {
    hide Inv, Next, Can;
    if i < j {
      SemFixed(sts, i, j - 1, s);
      var c, a := StepOf(sts, j - 1);
      LogsGrow(sts[j - 1], c, a, s);
    }
  }

  /** A semaphore made with value `v` starts with that value and no waiters, and never lets more
      than `v` waits return beyond the signals. */
  lemma NewSemLaws(sts: seq<State>, i: nat, j: nat, c: Cpu, s: Sid, v: nat, mutex: bool)
    requires IsRun(sts) && i < j < |sts| && Can(sts[i], c, NewSem(s, v, mutex)) && sts[i + 1] == Next(sts[i], c, NewSem(s, v, mutex))
    ensures s in sts[i + 1].sem && sts[i + 1].sem[s].value == v && sts[i + 1].sem[s].waiters == []
    ensures s in sts[j].sem && sts[j].sem[s].mutex == mutex && sts[j].sem[s].finished <= v + sts[j].sem[s].signals
  {
    hide Inv, Shaped;
    assert s in sts[i + 1].sem && sts[i + 1].sem[s] == InitSem(v, mutex);
    SemFixed(sts, i + 1, j, s);
    SemaphoreLaws(sts, j, s);
  }

  // ---- yield, kthread_create, wakeup_process ----

  /** A hart on its way to put thread `t` on a run queue. */
  predicate Filing(pc: Pc, t: Tid) {
    match pc
    case YieldWant(u) => u == t
    case SpawnWant(u) => u == t
    case SigThread(_, u) => u == t
    case WakeHave(u, _) => u == t
    case LoadWant(u, _) => u == t
    case LoadHave(u, _) => u == t
    case QueueWant(u, _, _) => u == t
    case QueueHave(u, _, _) => u == t
    case _ => false
  }

  /** Thread `t` joins the run queue of hart `d`, where it may run, behind all others. */
  predicate Joins(st: State, st': State, t: Tid, d: Cpu) {
    t in st.thr && Fits(st.thr[t].affinity, d) && d < NCPU && t !in QueueAt(st, d) && QueueAt(st', d) == [t] + QueueAt(st, d)
  }

  ghost predicate JoinsAt(sts: seq<State>, k: nat, t: Tid, d: Cpu) { k + 1 < |sts| && Joins(sts[k], sts[k + 1], t, d) }

  /** Thread `t` joins a run queue at a step in [i, j). */
  ghost predicate JoinsBetween(sts: seq<State>, i: nat, j: nat, t: Tid) { exists k: nat, d: Cpu :: i <= k < j && JoinsAt(sts, k, t, d) }

  lemma FilingStep(st: State, c: Cpu, a: Act, t: Tid)
    requires Inv(st) && Can(st, c, a) && Filing(st.cpu[c].pc, t) && PinHart(c, st.cpu[c], st.thr)
    ensures var st' := Next(st, c, a); Filing(HartAt(st', c).pc, t) || exists d: Cpu :: Joins(st, st', t, d)
  {
    hide Inv, Shaped, Unblocked, PickNext, Remove, Incremented, Decremented, Pushed, Finished;
    InvShaped(st);
    Named(st, c);
    if st.cpu[c].pc.QueueHave? {
      var d := st.cpu[c].pc.dst;
      NotQueued(st, c, t, d);
      RunShaped(st);
      assert Next(st, c, a) == EnqueueStep(st, c, t, st.cpu[c].pc.goal, d);
      assert Joins(st, Next(st, c, a), t, d);
    }
  }

  lemma NotQueued(st: State, c: Cpu, t: Tid, d: Cpu)
    requires Inv(st) && c < NCPU && d < NCPU && st.cpu[c].pc.QueueHave? && st.cpu[c].pc.t == t
    ensures t in st.thr && t !in QueueAt(st, d)
  {
    hide Locks, Tails, Pairs, Threads, OutLists, WaitQueues, Sems, SemPairs, Owed, Holds;
    Named(st, c);
    PairInv(st, c, t);
  }

  /** A hart that has stopped filing a thread has put it on a run queue. */
  lemma {:induction false} FilingEnds(sts: seq<State>, i: nat, j: nat, c: Cpu, t: Tid)
    requires IsRun(sts) && i <= j < |sts| && c < NCPU && Filing(HartAt(sts[i], c).pc, t) && !Filing(HartAt(sts[j], c).pc, t)
    ensures JoinsBetween(sts, i, j, t)
    decreases j - i
  {
    hide Inv, Next, Can, Filing, Joins, PinHart;
    if i < j {
      var b, a := StepOf(sts, i);
      if b == c {
        RunPinned(sts, i);
        FilingStep(sts[i], c, a, t);
      } else {
        OthersStay(sts[i], b, a, c);
      }
      if Filing(HartAt(sts[i + 1], c).pc, t) {
        FilingEnds(sts, i + 1, j, c, t);
      } else {
        var d: Cpu :| Joins(sts[i], sts[i + 1], t, d);
        assert JoinsAt(sts, i, t, d);
      }
    }
  }

  lemma StartFiles(st: State, c: Cpu, a: Act, t: Tid)
    requires Inv(st) && Can(st, c, a) && ((a.Create? && a.t == t) || (a.Yield? && st.cpu[c].thread == Some(t)))
    ensures Filing(HartAt(Next(st, c, a), c).pc, t)
  {
    hide Inv, Shaped;
    InvShaped(st);
    Named(st, c);
  }

  /** A thread that yields runs again only after it has been at the end of a run queue. */
  lemma YieldQueues(sts: seq<State>, i: nat, j: nat, c: Cpu, t: Tid)
    requires IsRun(sts) && i < j < |sts| && Can(sts[i], c, Yield) && sts[i].cpu[c].thread == Some(t) && sts[i + 1] == Next(sts[i], c, Yield)
    requires InCode(sts[j], t)
    ensures JoinsBetween(sts, i + 1, j, t)
  {
    hide Inv, Next, Can, Filing, Joins, InCode;
    CanNamed(sts[i], c, Yield);
    RunInv(sts, i);
    StartFiles(sts[i], c, Yield, t);
    RunInv(sts, j);
    InCodeNotFiling(sts[j], c, t);
    FilingEnds(sts, i + 1, j, c, t);
  }

  lemma InCodeNotFiling(st: State, c: Cpu, t: Tid)
    requires Inv(st) && InCode(st, t) && c < NCPU
    ensures !Filing(HartAt(st, c).pc, t)
  {
    hide Inv, Shaped;
    InvHarts(st);
    InvShaped(st);
    var d :| 0 <= d < |st.cpu| && st.cpu[d] == Hart(Run, Some(t));
    Named(st, d);
    NamedThread(st, d);
    PairInv(st, d, t);
    PairInv(st, c, t);
  }

  /** A new thread is on a run queue when the hart is out of kthread_create. */
  lemma CreateQueues(sts: seq<State>, i: nat, j: nat, c: Cpu, t: Tid, affinity: int)
    requires IsRun(sts) && i < j < |sts| && Can(sts[i], c, Create(t, affinity)) && sts[i + 1] == Next(sts[i], c, Create(t, affinity))
    requires AtRest(HartAt(sts[j], c))
    ensures JoinsBetween(sts, i + 1, j, t)
  {
    hide Inv, Next, Can, Joins;
    CanNamed(sts[i], c, Create(t, affinity));
    RunInv(sts, i);
    StartFiles(sts[i], c, Create(t, affinity), t);
    FilingEnds(sts, i + 1, j, c, t);
  }

  /** A signal that takes a thread off the wait queue puts it on a run queue. */
  lemma SignalQueues(sts: seq<State>, i: nat, j: nat, c: Cpu, s: Sid, t: Tid)
    requires IsRun(sts) && i < j < |sts| && c < NCPU && HartAt(sts[i], c).pc == SigThread(s, t) && AtRest(HartAt(sts[j], c))
    ensures JoinsBetween(sts, i, j, t)
  {
    FilingEnds(sts, i, j, c, t);
  }

  // ---- quit ----

  predicate Quitting(st: State, c: Cpu, t: Tid) {
    HartAt(st, c).pc == QuitWant(t) || HartAt(st, c).pc == QuitHave(t) || (t in st.thr && st.thr[t].place.Gone?)
  }

  lemma QuitCodeStep(st: State, c: Cpu, a: Act, t: Tid)
    requires Inv(st) && Can(st, c, a) && (st.cpu[c].pc == QuitWant(t) || st.cpu[c].pc == QuitHave(t))
    ensures Quitting(Next(st, c, a), c, t)
  {
    hide Inv, Shaped, Unblocked, PickNext, Remove, Incremented, Decremented, Pushed, Finished;
    InvShaped(st);
    Named(st, c);
    if st.cpu[c].pc.QuitHave? { assert Next(st, c, a) == QuitStep(st, c, t); }
  }

  lemma {:induction false} StaysQuitting(sts: seq<State>, i: nat, j: nat, c: Cpu, t: Tid)
    requires IsRun(sts) && i <= j < |sts| && c < NCPU && Quitting(sts[i], c, t)
    ensures Quitting(sts[j], c, t)
  {
    hide Inv, Next, Can;
    if i < j {
      StaysQuitting(sts, i, j - 1, c, t);
      var st := sts[j - 1];
      var d, a := StepOf(sts, j - 1);
      if t in st.thr && st.thr[t].place.Gone? {
        PatientStep(st, d, a, t);
      } else if d == c {
        QuitCodeStep(st, c, a, t);
      } else {
        OthersStay(st, d, a, c);
      }
    }
  }

  lemma QuitStarts(st: State, c: Cpu, t: Tid)
    requires Inv(st) && Can(st, c, Quit) && st.cpu[c].thread == Some(t)
    ensures Quitting(Next(st, c, Quit), c, t) && c < NCPU
  {
    hide Inv, Shaped;
    InvShaped(st);
    Named(st, c);
  }

  /** A thread that quits never runs its own code again, and when its hart is back at the
      scheduler loop it is on an `out` list. */
  lemma QuitFinal(sts: seq<State>, i: nat, j: nat, c: Cpu, t: Tid)
    requires IsRun(sts) && i < j < |sts| && Can(sts[i], c, Quit) && sts[i].cpu[c].thread == Some(t) && sts[i + 1] == Next(sts[i], c, Quit)
    ensures !InCode(sts[j], t)
    ensures AtRest(HartAt(sts[j], c)) ==> exists d: Cpu :: IsAt(sts[j], t, OutListOf(d))
  {
    hide Inv, Next, Can, InCode, IsAt;
    RunInv(sts, i);
    QuitStarts(sts[i], c, t);
    StaysQuitting(sts, i + 1, j, c, t);
    RunInv(sts, j);
    QuittingOut(sts[j], c, t);
    if AtRest(HartAt(sts[j], c)) { SiteSound(sts[j], t); }
  }

  lemma QuittingOut(st: State, c: Cpu, t: Tid)
    requires Inv(st) && Quitting(st, c, t) && c < NCPU
    ensures !InCode(st, t)
  {
    hide Inv, Shaped;
    InvHarts(st);
    InvShaped(st);
    forall d | 0 <= d < |st.cpu| ensures st.cpu[d] != Hart(Run, Some(t)) {
      NamedThread(st, d);
      Named(st, c);
      if t in st.thr {
        PairInv(st, d, t);
        PairInv(st, c, t);
      }
    }
  }
}
