/** How the harts serve threads: every operation ends, run queues are first in first out, a
    pinned thread runs nowhere else, the others are dealt out in turn. */
module SchedulerService {
  import opened Basics
  import opened Scheduler
  import opened SchedulerInvariant
  import opened SchedulerFrames
  import opened SchedulerProofs
  import opened SchedulerTheorems

  /** The hart and the run queue with number `c`. */
  function HartAt(st: State, c: Cpu): Hart { if c < |st.cpu| then st.cpu[c] else Hart(Loop, None) }
  function QueueAt(st: State, c: Cpu): seq<Tid> { if c < |st.run| then st.run[c] else [] }

  // ---- what one step changes ----

  lemma OthersStay(st: State, c: Cpu, a: Act, d: Cpu)
    requires Can(st, c, a) && d < NCPU && d != c
    ensures |st.cpu| == |Next(st, c, a).cpu| == NCPU && Next(st, c, a).cpu[d] == st.cpu[d]
  {
    hide HartShaped, ThreadShaped, SemShaped, LockMove, PickNext, Remove, Finished, Decremented, Pushed, Incremented, Unlocking;
    Named(st, c);
  }

  /** A thread that sleeps on a semaphore sleeps until it is granted a permit, one that was
      granted a permit has it until its wait ends, and one on an `out` list stays there. */
  predicate Patient(st: State, st': State, t: Tid)
    requires t in st.thr
  {
    && t in st'.thr
    && var r, r' := st.thr[t], st'.thr[t];
       && r'.affinity == r.affinity
       && (r.place.Asleep? ==> r'.place == r.place || r'.granted == Some(r.place.sem))
       && (r.granted.Some? && r'.granted != r.granted ==>
             r.granted.value in st.sem && st'.sem == st.sem[r.granted.value := Finished(st.sem[r.granted.value], t)])
       && (r.place.Gone? ==> r'.place == r.place)
  }

  lemma PatientData(st: State, c: Cpu, t: Tid)
    requires Inv(st) && Can(st, c, Step) && LockMove(c, st.cpu[c]).NoMove? && t in st.thr
    ensures Patient(st, DataStep(st, c), t)
  {
    hide Inv, Shaped, LockMove, PickNext, Remove, Decremented, Pushed, Incremented, Finished, Unblocked;
    InvShaped(st);
    Named(st, c);
    PairInv(st, c, t);
    if st.cpu[c].pc.SigHave? {
      PatientSignal(st, c, st.cpu[c].pc.s, t);
    } else if st.cpu[c].pc.SwitchIn? {
      PatientSwitchIn(st, c, st.cpu[c].pc.t, t);
    }
  }

  lemma InvShaped(st: State)
    requires Inv(st)
    ensures Shaped(st)
  {
  }

  lemma PatientSignal(st: State, c: Cpu, s: Sid, t: Tid)
    requires Inv(st) && c < NCPU && st.cpu[c].pc == SigHave(s) && s in st.sem && t in st.thr
    ensures Patient(st, DataStep(st, c), t)
  {
    hide Inv, Shaped, Incremented, Finished;
    InvShaped(st);
    if st.sem[s].waiters != [] { WaiterFacts(st, s); }
  }

  lemma PatientSwitchIn(st: State, c: Cpu, u: Tid, t: Tid)
    requires Inv(st) && c < NCPU && st.cpu[c].pc == SwitchIn(u) && u in st.thr && t in st.thr
    ensures Patient(st, DataStep(st, c), t)
  {
    hide Inv, Shaped, Finished;
    InvShaped(st);
    PairInv(st, c, t);
    assert ThreadShaped(st, st.thr[u]) by { GrantedNamed(st, u); }
  }

  lemma GrantedNamed(st: State, t: Tid)
    requires Shaped(st) && t in st.thr
    ensures ThreadShaped(st, st.thr[t])
  {
  }

  lemma PatientStep(st: State, c: Cpu, a: Act, t: Tid)
    requires Inv(st) && Can(st, c, a) && t in st.thr
    ensures Patient(st, Next(st, c, a), t)
  {
    hide Inv, Shaped, DataStep, InitSem, Unlocking, Finished;
    InvShaped(st);
    if a.Step? && LockMove(c, st.cpu[c]).NoMove? {
      PatientData(st, c, t);
    }
  }

  lemma InvHarts(st: State)
    requires Inv(st)
    ensures |st.cpu| == NCPU
  {
  }

  lemma RunShaped(st: State)
    requires Shaped(st)
    ensures |st.run| == NCPU
  {
  }

  lemma CanNamed(st: State, c: Cpu, a: Act)
    requires Can(st, c, a)
    ensures c < NCPU == |st.run| == |st.cpu|
  {
  }

  lemma NamedThread(st: State, c: Cpu)
    requires Shaped(st) && c < NCPU
    ensures st.cpu[c].thread.Some? ==> st.cpu[c].thread.value in st.thr
  {
    assert HartShaped(st, st.cpu[c]);
  }

  lemma StepOf(sts: seq<State>, k: nat) returns (c: Cpu, a: Act)
    requires IsRun(sts) && k + 1 < |sts|
    ensures Can(sts[k], c, a) && sts[k + 1] == Next(sts[k], c, a) && Inv(sts[k]) && c < NCPU == |sts[k].cpu|
  {
    hide Inv, Next, Shaped, MayStart, Unblocked;
    RunInv(sts, k);
    InvHarts(sts[k]);
    assert OneStep(sts[k], sts[k + 1]);
    c, a :| Can(sts[k], c, a) && sts[k + 1] == Next(sts[k], c, a);
  }

  // ---- every operation ends ----

  /** In thread code or at the scheduler loop. */
  predicate AtRest(h: Hart) { h.pc.Run? || h.pc.Loop? }

  /** Steps a hart needs at most until it is back in thread code or at the scheduler loop. */
  function OpLeft(pc: Pc): nat {
    match pc
    case Loop => 0 case Run => 0 case Panic => 0
    case Clear => 1 case Idle => 1 case Resume(_) => 1 case WaitFast(_) => 1 case SigDone(_) => 1
    case Back(_) => 2 case SwitchIn(_) => 2 case WakeDone(_, _) => 2
    case SwitchOut(_) => 3 case Dispatch(_) => 3
    case Sleep(_) => 4 case Unlinked(_) => 4 case QuitHave(_) => 4 case QueueDone(_, _, _) => 4
    case WaitPushed(_, _) => 5 case Unlink(_) => 5 case QuitWant(_) => 5 case QueueHave(_, _, _) => 5
    case WaitPush(_, _) => 6 case Picked(_) => 6 case QueueWant(_, _, _) => 6
    case WaitSelf(_, _) => 7 case Pick => 7 case LoadHave(_, _) => 7
    case WaitHave(_, _) => 8 case LoadWant(_, _) => 8
    case WaitWant(_, _) => 9 case WakeHave(_, _) => 9
    case YieldWant(_) => 10 case SigThread(_, _) => 10 case SpawnWant(_) => 10
    case SigHave(_) => 11
    case SigWant(_) => 12
  }

  lemma OpLeftFalls(st: State, c: Cpu, a: Act)
    requires Inv(st) && Can(st, c, a) && !AtRest(st.cpu[c])
    ensures c < |Next(st, c, a).cpu| && OpLeft(Next(st, c, a).cpu[c].pc) < OpLeft(st.cpu[c].pc)
  {
    hide Inv, Shaped, Unblocked, OpLeft, DataStep;
    InvShaped(st);
    Named(st, c);
    if LockMove(c, st.cpu[c]).NoMove? { DataFalls(st, c); } else { LockFalls(c, st.cpu[c]); }
  }

  lemma LockFalls(c: Cpu, h: Hart)
    requires !AtRest(h) && !LockMove(c, h).NoMove?
    ensures OpLeft(LockMove(c, h).to) < OpLeft(h.pc)
  {
  }

  lemma DataFalls(st: State, c: Cpu)
    requires Inv(st) && c < NCPU && !AtRest(st.cpu[c]) && LockMove(c, st.cpu[c]).NoMove? && !st.cpu[c].pc.Panic?
    ensures Shaped(st) && c < |DataStep(st, c).cpu| && OpLeft(DataStep(st, c).cpu[c].pc) < OpLeft(st.cpu[c].pc)
  {
    hide Inv, Shaped, PickNext, Remove, Incremented, Pushed, Finished;
    InvShaped(st);
    Named(st, c);
  }

  /** The steps of hart `c` between two states of a run. */
  function Moves(sts: seq<State>, i: nat, j: nat, c: Cpu): nat
    requires i <= j < |sts|
  {
    if i == j then 0 else Moves(sts, i, j - 1, c) + (if HartAt(sts[j], c) != HartAt(sts[j - 1], c) then 1 else 0)
  }

  /** A hart that has entered an operation is out of it after at most twelve steps of its own,
      however the other harts interleave. */
  lemma {:induction false} OperationEnds(sts: seq<State>, i: nat, j: nat, c: Cpu)
    requires IsRun(sts) && i <= j < |sts| && c < NCPU && forall k :: i <= k < j ==> !AtRest(HartAt(sts[k], c))
    ensures Moves(sts, i, j, c) + OpLeft(HartAt(sts[j], c).pc) <= OpLeft(HartAt(sts[i], c).pc) <= 12
  {
    hide Inv, Next, Can, OpLeft;
    if i == j {
      OpLeftSmall(HartAt(sts[i], c).pc);
    } else {
      OperationEnds(sts, i, j - 1, c);
      var d, a := StepOf(sts, j - 1);
      if d == c { OpLeftFalls(sts[j - 1], c, a); } else { OthersStay(sts[j - 1], d, a, c); }
    }
  }

  lemma OpLeftSmall(pc: Pc)
    ensures OpLeft(pc) <= 12
  {
  }

  // ---- run queues are served in order ----

  /** What a step does to a run queue: nothing, a thread in at the head, the tail out. */
  predicate QueueStep(q: seq<Tid>, q': seq<Tid>) {
    q' == q || (|q'| > 0 && q' == [q'[0]] + q) || (q != [] && q' == q[..|q| - 1])
  }

  lemma QueueSteps(st: State, c: Cpu, a: Act, d: Cpu)
    requires Inv(st) && Can(st, c, a) && d < NCPU
    ensures |st.run| == |Next(st, c, a).run| == NCPU && QueueStep(st.run[d], Next(st, c, a).run[d])
  {
    hide Inv, Shaped, PickNext, Remove, Unblocked, Incremented, Decremented, Pushed, Finished, Unlocking;
    InvShaped(st);
    RunShaped(st);
    Named(st, c);
    if st.cpu[c].pc.Unlink? { TailRemoved(st, c, st.cpu[c].pc.t); }
  }

  lemma TailRemoved(st: State, c: Cpu, t: Tid)
    requires Inv(st) && c < NCPU && st.cpu[c].pc == Unlink(t)
    ensures st.run[c] != [] && Remove(st.run[c], t) == st.run[c][..|st.run[c]| - 1]
  {
    assert TailOk(st.cpu[c], st.run[c]);
    RemoveLast(st.run[c], t);
  }

  /** Thread `u` is nearer the tail than `t`. */
  predicate Ahead(q: seq<Tid>, u: Tid, t: Tid) {
    exists a, b :: 0 <= a < b < |q| && q[a] == t && q[b] == u
  }

  lemma AheadKept(q: seq<Tid>, q': seq<Tid>, u: Tid, t: Tid)
    requires NoDup(q) && Ahead(q, u, t) && QueueStep(q, q') && u in q'
    ensures Ahead(q', u, t)
  {
    var a, b :| 0 <= a < b < |q| && q[a] == t && q[b] == u;
    if q' != q && |q'| > 0 && q' == [q'[0]] + q {
      assert q'[a + 1] == t && q'[b + 1] == u;
    } else if q' != q {
      var m :| 0 <= m < |q'| && q'[m] == u;
      assert q[m] == q[b];
      assert q'[a] == t && q'[b] == u;
    }
  }

  lemma {:induction false} StaysAhead(sts: seq<State>, i: nat, j: nat, d: Cpu, t: Tid, u: Tid)
    requires IsRun(sts) && i <= j < |sts| && d < NCPU
    requires Ahead(QueueAt(sts[i], d), u, t) && forall k :: i <= k <= j ==> u in QueueAt(sts[k], d)
    ensures Ahead(QueueAt(sts[j], d), u, t)
  {
    hide Inv, Next, Can, Ahead, QueueStep;
    if i < j {
      StaysAhead(sts, i, j - 1, d, t, u);
      var c, a := StepOf(sts, j - 1);
      QueueSteps(sts[j - 1], c, a, d);
      QueueOnce(sts[j - 1], d);
      AheadKept(sts[j - 1].run[d], sts[j].run[d], u, t);
    }
  }

  lemma QueueOnce(st: State, d: Cpu)
    requires Inv(st) && d < NCPU
    ensures NoDup(st.run[d])
  {
  }

  /** First in, first out: a thread that joins a run queue leaves it after everyone who was on
      it at that moment. */
  lemma FirstComeFirstServed(sts: seq<State>, i: nat, j: nat, d: Cpu, t: Tid, u: Tid)
    requires IsRun(sts) && i < j < |sts| && d < NCPU
    requires t !in QueueAt(sts[i], d) && t in QueueAt(sts[i + 1], d) && forall k :: i <= k <= j ==> u in QueueAt(sts[k], d)
    ensures t in QueueAt(sts[j], d)
  {
    hide Inv, Next, Can;
    var c, a := StepOf(sts, i);
    QueueSteps(sts[i], c, a, d);
    var q, q' := sts[i].run[d], sts[i + 1].run[d];
    assert q' == [t] + q;
    var b :| 0 <= b < |q| && q[b] == u;
    assert q'[0] == t && q'[b + 1] == u;
    StaysAhead(sts, i + 1, j, d, t, u);
  }

  /** From the pick to the thread's own code. */
  predicate Serving(h: Hart, t: Tid) {
    h.pc == Picked(t) || h.pc == Unlink(t) || h.pc == Unlinked(t) || h.pc == Dispatch(t) || h.pc == SwitchIn(t) || h.pc == Resume(t)
  }

  lemma ServingStep(st: State, c: Cpu, a: Act, t: Tid)
    requires Inv(st) && Can(st, c, a) && Serving(st.cpu[c], t)
    ensures c < |Next(st, c, a).cpu| && (Serving(Next(st, c, a).cpu[c], t) || Next(st, c, a).cpu[c] == Hart(Run, Some(t)))
  {
    hide Inv, Shaped, Remove, Unblocked, Finished;
    InvShaped(st);
    Named(st, c);
    HartInv(st, c);
  }

  lemma PickServes(st: State, c: Cpu)
    requires Inv(st) && Can(st, c, Step) && st.cpu[c].pc == Pick && st.run[c] != []
    ensures c < |Next(st, c, Step).cpu| && Serving(Next(st, c, Step).cpu[c], st.run[c][|st.run[c]| - 1])
  {
    hide Inv, Shaped, PickNext;
    InvShaped(st);
    AllRunnable(st, c);
    PickLast(st.run[c], st.thr);
  }

  /** A hart that looks at a queue with threads on it runs the oldest one next. */
  lemma {:induction false} OldestRuns(sts: seq<State>, i: nat, j: nat, c: Cpu)
    requires IsRun(sts) && i < j < |sts| && Can(sts[i], c, Step) && sts[i + 1] == Next(sts[i], c, Step)
    requires sts[i].cpu[c].pc == Pick && sts[i].run[c] != [] && forall k :: i < k < j ==> !AtRest(HartAt(sts[k], c))
    ensures var t := sts[i].run[c][|sts[i].run[c]| - 1]; Serving(HartAt(sts[j], c), t) || HartAt(sts[j], c) == Hart(Run, Some(t))
  {
    hide Inv, Next, Can, Serving, Shaped;
    CanNamed(sts[i], c, Step);
    if j == i + 1 {
      RunInv(sts, i);
      PickServes(sts[i], c);
    } else {
      OldestRuns(sts, i, j - 1, c);
      var t := sts[i].run[c][|sts[i].run[c]| - 1];
      var d, a := StepOf(sts, j - 1);
      if d == c { ServingStep(sts[j - 1], c, a, t); } else { OthersStay(sts[j - 1], d, a, c); }
    }
  }

  // ---- affinity ----

  predicate Fits(affinity: int, d: Cpu) { affinity == -1 || affinity == d }

  /** A hart carries a thread only to, and a thread is only at, a hart it may run on. */
  predicate PinHart(c: Cpu, h: Hart, thr: map<Tid, Thread>) {
    match h.pc
    case QueueWant(t, _, d) => t in thr && Fits(thr[t].affinity, d)
    case QueueHave(t, _, d) => t in thr && Fits(thr[t].affinity, d)
    case Unlinked(t) => t in thr && Fits(thr[t].affinity, c)
    case Dispatch(t) => t in thr && Fits(thr[t].affinity, c)
    case _ => true
  }

  predicate PinThread(r: Thread) { r.place.Ready? || r.place.OnCpu? ==> Fits(r.affinity, r.place.hart) }

  ghost predicate Pinned(st: State) {
    && (forall c :: 0 <= c < |st.cpu| ==> PinHart(c, st.cpu[c], st.thr))
    && (forall t :: t in st.thr ==> PinThread(st.thr[t]))
  }

  lemma PinHartKept(c: Cpu, h: Hart, thr: map<Tid, Thread>, thr': map<Tid, Thread>)
    requires PinHart(c, h, thr) && forall t :: t in thr ==> t in thr' && thr'[t].affinity == thr[t].affinity
    ensures PinHart(c, h, thr')
  {
  }

  lemma PinHartStep(st: State, c: Cpu, a: Act)
    requires Inv(st) && Can(st, c, a) && PinHart(c, st.cpu[c], st.thr) && forall t :: t in st.thr ==> PinThread(st.thr[t])
    ensures var st' := Next(st, c, a); c < |st'.cpu| && PinHart(c, st'.cpu[c], st'.thr)
  {
    hide Inv, Shaped, Unblocked, DataStep;
    InvShaped(st);
    Named(st, c);
    if a.Step? && LockMove(c, st.cpu[c]).NoMove? { PinHartData(st, c); }
  }

  lemma PinHartData(st: State, c: Cpu)
    requires Inv(st) && c < NCPU && PinHart(c, st.cpu[c], st.thr) && forall t :: t in st.thr ==> PinThread(st.thr[t])
    requires LockMove(c, st.cpu[c]).NoMove?
    ensures Shaped(st)
    ensures var st' := DataStep(st, c); c < |st'.cpu| && PinHart(c, st'.cpu[c], st'.thr)
  {
    hide Inv, Shaped, LockMove, PickNext, Remove, Incremented, Decremented, Pushed, Finished;
    InvShaped(st);
    Named(st, c);
    if st.cpu[c].pc.Unlink? { PairInv(st, c, st.cpu[c].pc.t); }
    NoPinMove(c, st.cpu[c]);
  }

  lemma NoPinMove(c: Cpu, h: Hart)
    requires LockMove(c, h).NoMove?
    ensures !h.pc.Unlinked? && !h.pc.QueueWant?
  {
  }

  lemma PinThreadStep(st: State, c: Cpu, a: Act, t: Tid)
    requires Inv(st) && Can(st, c, a) && PinHart(c, st.cpu[c], st.thr) && t in Next(st, c, a).thr && (t in st.thr ==> PinThread(st.thr[t]))
    ensures PinThread(Next(st, c, a).thr[t])
  {
    hide Inv, Shaped, Unblocked, DataStep, PinHart;
    InvShaped(st);
    if a.Step? && LockMove(c, st.cpu[c]).NoMove? { PinThreadData(st, c, t); }
  }

  lemma PinThreadData(st: State, c: Cpu, t: Tid)
    requires Shaped(st) && c < NCPU && PinHart(c, st.cpu[c], st.thr) && t in DataStep(st, c).thr && (t in st.thr ==> PinThread(st.thr[t]))
    ensures PinThread(DataStep(st, c).thr[t])
  {
    hide Shaped, PickNext, Remove, Incremented, Decremented, Pushed, Finished;
    Named(st, c);
  }

  lemma {:induction false} RunPinned(sts: seq<State>, i: nat)
    requires IsRun(sts) && i < |sts|
    ensures Pinned(sts[i])
  {
    hide Inv, Next, Can, PinHart, PinThread;
    if i == 0 {
      assert forall c: Cpu :: PinHart(c, Hart(Loop, None), map[]) by { LoopPinned(); }
    } else {
      RunPinned(sts, i - 1);
      var st, st' := sts[i - 1], sts[i];
      var c, a := StepOf(sts, i - 1);
      forall t | t in st.thr ensures t in st'.thr && st'.thr[t].affinity == st.thr[t].affinity { PatientStep(st, c, a, t); }
      forall t | t in st'.thr ensures PinThread(st'.thr[t]) { PinThreadStep(st, c, a, t); }
      RunInv(sts, i);
      InvHarts(st');
      forall d | 0 <= d < |st'.cpu| ensures PinHart(d, st'.cpu[d], st'.thr) {
        if d == c {
          PinHartStep(st, c, a);
        } else {
          OthersStay(st, c, a, d);
          PinHartKept(d, st.cpu[d], st.thr, st'.thr);
        }
      }
    }
  }

  lemma LoopPinned()
    ensures forall c: Cpu :: PinHart(c, Hart(Loop, None), map[])
  {
  }

  lemma {:induction false} AffinityFixed(sts: seq<State>, i: nat, j: nat, t: Tid)
    requires IsRun(sts) && i <= j < |sts| && t in sts[i].thr
    ensures t in sts[j].thr && sts[j].thr[t].affinity == sts[i].thr[t].affinity
  {
    hide Inv, Next, Can;
    if i < j {
      AffinityFixed(sts, i, j - 1, t);
      var c, a := StepOf(sts, j - 1);
      PatientStep(sts[j - 1], c, a, t);
    }
  }

  /** A thread created with an affinity is executed by that hart and no other, in all that
      follows, and waits on no other hart's run queue. */
  lemma AffinityKept(sts: seq<State>, i: nat, j: nat, c: Cpu, t: Tid, affinity: int, d: Cpu)
    requires IsRun(sts) && i < j < |sts| && Can(sts[i], c, Create(t, affinity)) && sts[i + 1] == Next(sts[i], c, Create(t, affinity))
    requires IsAt(sts[j], t, Executing(d)) || IsAt(sts[j], t, RunQueueOf(d))
    ensures affinity == -1 || affinity == d
  {
    hide Inv, Shaped;
    assert t in sts[i + 1].thr && sts[i + 1].thr[t].affinity == affinity;
    hide Can, Next, IsAt;
    AffinityFixed(sts, i + 1, j, t);
    RunPinned(sts, j);
    RunInv(sts, j);
    SiteUnique(sts[j], t, if IsAt(sts[j], t, Executing(d)) then Executing(d) else RunQueueOf(d));
  }

  // ---- load balancing ----

  /** The step from `st` to `st'` sends a thread without affinity to hart `d`. */
  ghost predicate Places(st: State, st': State, d: Cpu) {
    exists c: Cpu, t, g :: Placing(st, st', c, t, g, d)
  }

  ghost predicate PlacesAt(sts: seq<State>, k: nat, d: Cpu) { k + 1 < |sts| && Places(sts[k], sts[k + 1], d) }

  ghost predicate QuietBetween(sts: seq<State>, i: nat, j: nat) { forall k: nat, d: Cpu :: i <= k < j ==> !PlacesAt(sts, k, d) }

  predicate Placing(st: State, st': State, c: Cpu, t: Tid, g: Goal, d: Cpu) {
    HartAt(st, c).pc == LoadHave(t, g) && HartAt(st', c).pc == QueueWant(t, g, d) && t in st.thr && st.thr[t].affinity == -1
  }

  lemma LoadCpuData(st: State, c: Cpu)
    requires Inv(st) && c < NCPU && LockMove(c, st.cpu[c]).NoMove?
    ensures Shaped(st)
    ensures var st' := DataStep(st, c); var pc := st.cpu[c].pc;
            if pc.LoadHave? && pc.t in st.thr && st.thr[pc.t].affinity == -1
            then st'.loadCpu == (st.loadCpu + 1) % NCPU && c < |st'.cpu| && st'.cpu[c].pc == QueueWant(pc.t, pc.goal, st'.loadCpu)
            else st'.loadCpu == st.loadCpu
  {
    hide Inv, Shaped, LockMove, PickNext, Remove, Incremented, Decremented, Pushed, Finished;
    InvShaped(st);
    Named(st, c);
  }

  lemma LoadCpuStep(st: State, c: Cpu, a: Act)
    requires Inv(st) && Can(st, c, a)
    ensures var st' := Next(st, c, a);
            && (st'.loadCpu == st.loadCpu || (st'.loadCpu == (st.loadCpu + 1) % NCPU && Places(st, st', st'.loadCpu)))
            && forall d :: Places(st, st', d) ==> d == st'.loadCpu == (st.loadCpu + 1) % NCPU
  {
    hide Inv, Shaped, Unblocked, DataStep, HartShaped, PinHart;
    InvShaped(st);
    Named(st, c);
    var st' := Next(st, c, a);
    if a.Step? && LockMove(c, st.cpu[c]).NoMove? {
      LoadCpuData(st, c);
      var pc := st.cpu[c].pc;
      if pc.LoadHave? && pc.t in st.thr && st.thr[pc.t].affinity == -1 { assert Placing(st, st', c, pc.t, pc.goal, st'.loadCpu); }
    }
    forall d | Places(st, st', d) ensures d == st'.loadCpu == (st.loadCpu + 1) % NCPU {
      hide Next;
      var x: Cpu, t, g :| Placing(st, st', x, t, g, d);
      if x != c && x < NCPU { OthersStay(st, c, a, x); }
      PlacedBy(st, c, a, x, t, g, d);
    }
  }

  lemma PlacedBy(st: State, c: Cpu, a: Act, x: Cpu, t: Tid, g: Goal, d: Cpu)
    requires Inv(st) && Can(st, c, a) && Placing(st, Next(st, c, a), x, t, g, d) && (x != c ==> HartAt(Next(st, c, a), x) == HartAt(st, x))
    ensures d == Next(st, c, a).loadCpu == (st.loadCpu + 1) % NCPU
  {
    hide Inv, Shaped, Unblocked, DataStep, HartShaped;
    InvShaped(st);
    Named(st, c);
    assert x == c;
    LoadCpuData(st, c);
  }

  lemma {:induction false} LoadCpuKept(sts: seq<State>, i: nat, j: nat)
    requires IsRun(sts) && i <= j < |sts| && QuietBetween(sts, i, j)
    ensures sts[j].loadCpu == sts[i].loadCpu
  {
    hide Inv, Next, Can, Places;
    if i < j {
      LoadCpuKept(sts, i, j - 1);
      var k: nat := j - 1;
      var c, a := StepOf(sts, k);
      LoadCpuStep(sts[k], c, a);
      assert sts[j].loadCpu != sts[k].loadCpu ==> PlacesAt(sts, k, (sts[k].loadCpu + 1) % NCPU);
    }
  }

  lemma PlacesNext(sts: seq<State>, k: nat, d: Cpu)
    requires IsRun(sts) && PlacesAt(sts, k, d)
    ensures d == sts[k + 1].loadCpu == (sts[k].loadCpu + 1) % NCPU
  {
    hide Inv, Next, Can, Places;
    var c, a := StepOf(sts, k);
    LoadCpuStep(sts[k], c, a);
  }

  lemma StartsUnloaded(sts: seq<State>)
    requires IsRun(sts)
    ensures |sts| > 0 && sts[0].loadCpu == -1
  {
  }

  /** Threads without affinity are dealt out in turn: the first to hart 0, */
  lemma FirstPlaced(sts: seq<State>, j: nat, e: Cpu)
    requires IsRun(sts) && PlacesAt(sts, j, e) && QuietBetween(sts, 0, j)
    ensures e == 0
  {
    hide IsRun, Places, QuietBetween;
    PlacesNext(sts, j, e);
    LoadCpuKept(sts, 0, j);
    StartsUnloaded(sts);
  }

  /** and each next one to the hart after the last. */
  lemma RoundRobin(sts: seq<State>, i: nat, j: nat, d: Cpu, e: Cpu)
    requires IsRun(sts) && i < j && PlacesAt(sts, i, d) && PlacesAt(sts, j, e) && QuietBetween(sts, i + 1, j)
    ensures e == (d + 1) % NCPU
  {
    hide IsRun, Places, QuietBetween;
    PlacesNext(sts, i, d);
    PlacesNext(sts, j, e);
    LoadCpuKept(sts, i + 1, j);
  }
}
