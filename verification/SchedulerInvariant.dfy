/** The inductive invariant of the scheduler protocol.

    It is stated pairwise: what each hart and each thread, each hart and each
    semaphore, each semaphore and each thread say about one another.  A step changes
    one hart, at most one thread and at most one semaphore, so most pairs are untouched.
 */
module SchedulerInvariant {
  import opened Basics
  import opened Scheduler

  function GoalLocks(g: Goal): set<Lock> {
    if g.Wake? then {SemLock(g.sem)} else {}
  }

  /** The locks hart `c` holds at program counter `pc`. */
  function Holds(c: Cpu, pc: Pc): set<Lock> {
    match pc
    case Pick => {QueueLock(c)}
    case Idle => {QueueLock(c)}
    case Picked(_) => {QueueLock(c)}
    case Unlink(t) => {QueueLock(c), ThreadLock(t)}
    case Unlinked(t) => {QueueLock(c), ThreadLock(t)}
    case Dispatch(t) => {ThreadLock(t)}
    case SwitchIn(t) => {ThreadLock(t)}
    case Back(t) => {ThreadLock(t)}
    case Resume(t) => {ThreadLock(t)}
    case SwitchOut(t) => {ThreadLock(t)}
    case QuitHave(t) => {ThreadLock(t)}
    case WakeHave(t, g) => {ThreadLock(t)} + GoalLocks(g)
    case LoadWant(t, g) => {ThreadLock(t)} + GoalLocks(g)
    case LoadHave(t, g) => {ThreadLock(t), LoadLock} + GoalLocks(g)
    case QueueWant(t, g, _) => {ThreadLock(t)} + GoalLocks(g)
    case QueueHave(t, g, d) => {ThreadLock(t), QueueLock(d)} + GoalLocks(g)
    case QueueDone(t, g, d) => {ThreadLock(t), QueueLock(d)} + GoalLocks(g)
    case WakeDone(t, g) => {ThreadLock(t)} + GoalLocks(g)
    case WaitHave(s, _) => {SemLock(s)}
    case WaitFast(s) => {SemLock(s)}
    case WaitSelf(s, _) => {SemLock(s)}
    case WaitPush(s, t) => {SemLock(s), ThreadLock(t)}
    case WaitPushed(s, t) => {SemLock(s), ThreadLock(t)}
    case Sleep(t) => {ThreadLock(t)}
    case SigHave(s) => {SemLock(s)}
    case SigThread(s, _) => {SemLock(s)}
    case SigDone(s) => {SemLock(s)}
    case _ => {}
  }

  /** The lock words say exactly what the program counters say. */
  ghost predicate Locks(cpu: seq<Hart>, lock: map<Lock, Cpu>)
    requires |cpu| == NCPU
  {
    && (forall l :: l in lock ==> lock[l] < NCPU)
    && forall c: Cpu, l :: c < NCPU ==> (l in Holds(c, cpu[c].pc) <==> l in lock && lock[l] == c)
  }

  // ---- one hart ----

  /** Which thread a hart's `thread` field names at each program counter. */
  predicate HartOk(h: Hart) {
    match h.pc
    case Loop => h.thread.None?
    case Pick => h.thread.None?
    case Idle => h.thread.None?
    case Picked(_) => h.thread.None?
    case Unlink(_) => h.thread.None?
    case Unlinked(_) => h.thread.None?
    case Dispatch(_) => h.thread.None?
    case SwitchIn(t) => h.thread == Some(t)
    case Back(t) => h.thread == Some(t)
    case Clear => h.thread.Some?
    case Resume(t) => h.thread == Some(t)
    case Run => h.thread.Some?
    case SwitchOut(t) => h.thread == Some(t)
    case YieldWant(t) => h.thread == Some(t)
    case QuitWant(t) => h.thread == Some(t)
    case QuitHave(t) => h.thread == Some(t)
    case WakeHave(t, g) => g.Resched? <==> h.thread == Some(t)
    case LoadWant(t, g) => g.Resched? <==> h.thread == Some(t)
    case LoadHave(t, g) => g.Resched? <==> h.thread == Some(t)
    case QueueWant(t, g, _) => g.Resched? <==> h.thread == Some(t)
    case QueueHave(t, g, _) => g.Resched? <==> h.thread == Some(t)
    case QueueDone(t, g, _) => g.Resched? <==> h.thread == Some(t)
    case WakeDone(t, g) => !g.Resched? && h.thread != Some(t)
    case WaitWant(_, t) => h.thread == Some(t)
    case WaitHave(_, t) => h.thread == Some(t)
    case WaitFast(_) => h.thread.Some?
    case WaitSelf(_, t) => h.thread == Some(t)
    case WaitPush(_, t) => h.thread == Some(t)
    case WaitPushed(_, t) => h.thread == Some(t)
    case Sleep(t) => h.thread == Some(t)
    case SigThread(_, t) => h.thread != Some(t)
    case SpawnWant(t) => h.thread != Some(t)
    case Panic => false
    case _ => true
  }

  ghost predicate Harts(cpu: seq<Hart>)
  {
    forall c :: 0 <= c < |cpu| ==> HartOk(cpu[c])
  }

  /** The thread the scheduler has picked stays at the tail of the queue. */
  predicate TailOk(h: Hart, q: seq<Tid>) {
    h.pc.Picked? || h.pc.Unlink? ==> q != [] && q[|q| - 1] == h.pc.t
  }

  ghost predicate Tails(cpu: seq<Hart>, run: seq<seq<Tid>>)
    requires |cpu| == |run|
  {
    forall c :: 0 <= c < |cpu| ==> TailOk(cpu[c], run[c])
  }

  // ---- a hart and a thread ----

  /** How a hart stands to the thread in its `thread` field. */
  datatype Cur =
    | NoCur                         // scheduler code, no current thread
    | Exec(ready: bool)             // executing its code, if there is one
    | Entering                      // about to load its context
    | Leaving(parked: bool)         // re-filed, context still in the hart, thread lock held
    | Left                          // context saved, thread lock held
    | Stale                         // lock released, field not yet cleared

  function CurOf(pc: Pc): Cur {
    match pc
    case SwitchIn(_) => Entering
    case SwitchOut(_) => Leaving(true)
    case Sleep(_) => Leaving(false)
    case WaitPushed(_, _) => Leaving(false)
    case QueueDone(_, Resched, _) => Leaving(true)
    case Back(_) => Left
    case Clear => Stale
    case LoadWant(_, Resched) => Exec(true)
    case LoadHave(_, Resched) => Exec(true)
    case QueueWant(_, Resched, _) => Exec(true)
    case QueueHave(_, Resched, _) => Exec(true)
    case Loop => NoCur
    case Pick => NoCur
    case Idle => NoCur
    case Picked(_) => NoCur
    case Unlink(_) => NoCur
    case Unlinked(_) => NoCur
    case Dispatch(_) => NoCur
    case _ => Exec(false)
  }

  /** What a hart is doing to another thread. */
  datatype Subj =
    | NoSubj
    | Head(t: Tid)           // picked from the run queue, still on it
    | Fresh(t: Tid)          // unlinked or new, context saved, on no list
    | Carry(t: Tid)          // RUNNABLE, on its way to a run queue
    | Woken(t: Tid, s: Sid)  // popped from a wait queue

  function SubjOf(pc: Pc): Subj {
    match pc
    case Picked(t) => Head(t)
    case Unlink(t) => Head(t)
    case Unlinked(t) => Fresh(t)
    case Dispatch(t) => Fresh(t)
    case SpawnWant(t) => Fresh(t)
    case SigThread(s, t) => Woken(t, s)
    case WakeHave(t, g) => (match g case Resched => NoSubj case Wake(s) => Woken(t, s) case Spawn => Fresh(t))
    case LoadWant(t, g) => if g.Resched? then NoSubj else Carry(t)
    case LoadHave(t, g) => if g.Resched? then NoSubj else Carry(t)
    case QueueWant(t, g, _) => if g.Resched? then NoSubj else Carry(t)
    case QueueHave(t, g, _) => if g.Resched? then NoSubj else Carry(t)
    case _ => NoSubj
  }

  /** The thread has been re-filed: whoever takes its lock next may run it. */
  predicate Filed(r: Thread) {
    r.place.Ready? || r.place.Asleep? || r.place.Gone? || r.place.Waking?
  }

  /** What hart `c` knows about its current thread's record. */
  predicate CurRel(c: Cpu, cur: Cur, r: Thread) {
    match cur
    case Exec(ready) => r.place == OnCpu(c) && r.live == Some(c) && r.granted.None? && (ready ==> r.state.Runnable?)
    case Entering => r.place == OnCpu(c) && r.live.None?
    case Leaving(parked) => r.live == Some(c) && if parked then Filed(r) && !r.state.Running? else r.place.Asleep? || r.place.Waking?
    case Left => r.live.None? && Filed(r)
    case _ => true
  }

  /** What hart `c` knows about the thread it is handling. */
  predicate SubjRel(c: Cpu, subj: Subj, t: Tid, r: Thread) {
    match subj
    case NoSubj => true
    case Head(u) => u == t ==> r.place == Ready(c)
    case Fresh(u) => u == t ==> r.place == Moving(c) && r.live.None?
    case Carry(u) => u == t ==> r.place == Moving(c) && r.state.Runnable?
    case Woken(u, s) => u == t ==> r.place == Waking(c) && r.granted == Some(s)
  }

  /** What thread `t`'s record says about hart `c`. */
  predicate BackRel(c: Cpu, cur: Cur, subj: Subj, mine: bool, t: Tid, r: Thread) {
    && (r.place == OnCpu(c) ==> mine && (cur.Exec? || cur.Entering?))
    && (r.place == Moving(c) ==> subj == Fresh(t) || subj == Carry(t))
    && (r.place == Waking(c) ==> subj.Woken? && subj.t == t)
    && (r.live == Some(c) ==> mine && (cur.Exec? || cur.Leaving?))
  }

  predicate Rel(c: Cpu, cur: Cur, subj: Subj, mine: bool, t: Tid, r: Thread) {
    (mine ==> CurRel(c, cur, r)) && SubjRel(c, subj, t, r) && BackRel(c, cur, subj, mine, t, r)
  }

  predicate HartRel(c: Cpu, h: Hart, t: Tid, r: Thread) {
    Rel(c, CurOf(h.pc), SubjOf(h.pc), h.thread == Some(t), t, r)
  }

  ghost predicate Pairs(cpu: seq<Hart>, thr: map<Tid, Thread>)
  {
    forall c: Cpu, t :: c < |cpu| && t in thr ==> HartRel(c, cpu[c], t, thr[t])
  }

  // ---- one thread, and the lists ----

  predicate ThreadOk(r: Thread) {
    && (r.live.Some? ==> r.live.value < NCPU)
    && match r.place
       case Moving(c) => c < NCPU
       case Waking(c) => c < NCPU
       case OnCpu(c) => c < NCPU
       case Ready(c) => c < NCPU && r.state.Runnable?
       case Asleep(_) => r.granted.None?
       case Gone(c) => c < NCPU
  }

  ghost predicate Threads(thr: map<Tid, Thread>) {
    forall t :: t in thr ==> ThreadOk(thr[t])
  }

  /** A run queue holds exactly the threads placed on it, each once; the same for
      `out` lists and wait queues. */
  ghost predicate RunQueues(run: seq<seq<Tid>>, thr: map<Tid, Thread>)
    requires |run| == NCPU
  {
    && (forall c :: 0 <= c < NCPU ==> NoDup(run[c]))
    && (forall c: Cpu, t :: c < NCPU ==> (t in run[c] <==> t in thr && thr[t].place == Ready(c)))
  }

  ghost predicate OutLists(out: seq<seq<Tid>>, thr: map<Tid, Thread>)
    requires |out| == NCPU
  {
    && (forall c :: 0 <= c < NCPU ==> NoDup(out[c]))
    && (forall c: Cpu, t :: c < NCPU ==> (t in out[c] <==> t in thr && thr[t].place == Gone(c)))
  }

  ghost predicate WaitQueue(s: Sid, q: seq<Tid>, thr: map<Tid, Thread>) {
    && NoDup(q)
    && (forall t :: t in q <==> t in thr && thr[t].place == Asleep(s))
  }

  ghost predicate WaitQueues(sem: map<Sid, Sem>, thr: map<Tid, Thread>) {
    && (forall s :: s in sem ==> WaitQueue(s, sem[s].waiters, thr))
    && (forall t :: t in thr && thr[t].place.Asleep? ==> thr[t].place.sem in sem)
  }

  // ---- a semaphore ----

  predicate MidWait(pc: Pc, s: Sid) {
    (pc.WaitSelf? || pc.WaitPush?) && pc.s == s
  }

  /** Accounting: the queue is as long as the debt, a wait is granted once per permit,
      and threads leave the queue in the order they entered it. */
  predicate CountsOk(m: Sem) {
    && |m.waiters| + (if m.pending.Some? then 1 else 0) == Max(0, -m.value)
    && m.grants == m.start + m.signals - Max(0, m.value)
    && m.grants == m.finished + |m.owed|
    && m.pushLog == m.popLog + m.waiters
    && (m.pending.Some? ==> m.pending.value < NCPU)
  }

  /** At most one thread has the permit of a mutex. */
  ghost predicate MutexOk(m: Sem) {
    m.mutex ==>
      && m.value <= 1 && (m.value == 1 <==> m.owner.None?)
      && (forall t :: t in m.held ==> m.owner == Some(t) && t !in m.owed)
      && (forall t :: t in m.owed ==> m.owner == Some(t))
  }

  ghost predicate Sems(sem: map<Sid, Sem>) {
    forall s :: s in sem ==> CountsOk(sem[s]) && MutexOk(sem[s])
  }

  /** A hart and a semaphore: who is between decrement and push, and a thread that is
      unlocking a mutex has its permit and no longer counts as holding it. */
  predicate SemRel(c: Cpu, h: Hart, s: Sid, m: Sem) {
    && (m.pending == Some(c) <==> MidWait(h.pc, s))
    && (m.mutex && (h.pc == SigWant(s) || h.pc == SigHave(s)) ==>
          h.thread.Some? && m.owner == h.thread && h.thread.value !in m.held)
  }

  ghost predicate SemPairs(cpu: seq<Hart>, sem: map<Sid, Sem>) {
    forall c: Cpu, s :: c < |cpu| && s in sem ==> SemRel(c, cpu[c], s, sem[s])
  }

  /** A semaphore and a thread: the woken threads whose wait has not returned. */
  ghost predicate Owed(sem: map<Sid, Sem>, thr: map<Tid, Thread>) {
    forall s, t :: s in sem ==> (t in sem[s].owed <==> t in thr && thr[t].granted == Some(s))
  }

  ghost predicate Inv(st: State) {
    && Shaped(st)
    && Locks(st.cpu, st.lock)
    && Harts(st.cpu)
    && Tails(st.cpu, st.run)
    && Pairs(st.cpu, st.thr)
    && Threads(st.thr)
    && RunQueues(st.run, st.thr)
    && OutLists(st.out, st.thr)
    && WaitQueues(st.sem, st.thr)
    && Sems(st.sem)
    && SemPairs(st.cpu, st.sem)
    && Owed(st.sem, st.thr)
  }
}
