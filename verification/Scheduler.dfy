/** The scheduler, semaphore and thread life-cycle protocol as a transition system.

    Harts (`Cpu`) execute kernel code; a program counter `Pc` names the point a hart
    has reached.  One step is one lock acquisition, one lock release, one list
    operation or one context switch.  Code between two such points touches only data
    that the hart owns at that moment, so it is merged into the neighbouring step.
    A hart holding a spinlock runs with interrupts off, so interrupt handlers start
    only at `Run` (thread code) and at `Loop` (the scheduler loop, no lock held).
 */
module Scheduler {
  import opened Basics

  type Cpu = nat
  type Tid = nat
  type Sid = nat

  datatype Lock = QueueLock(cpu: Cpu) | ThreadLock(tid: Tid) | SemLock(sid: Sid) | LoadLock

  datatype RunState = Used | Sleeping | Runnable | Running | Zombie

  /** Where a thread is.  An auxiliary variable: no step reads it. */
  datatype Place =
    | Moving(hart: Cpu)  // carried by a hart between two lists, thread lock held or thread new
    | Waking(hart: Cpu)  // popped from a wait queue, thread lock not taken yet
    | Ready(hart: Cpu)   // on a run queue
    | Asleep(sem: Sid)   // on a wait queue
    | OnCpu(hart: Cpu)   // executing
    | Gone(hart: Cpu)   // on an `out` list

  /** `live` is the hart whose registers hold the thread's context; `None` when the
      context is saved in the thread record.  `granted` names the semaphore whose
      signal woke the thread, until its `sem_wait` returns. */
  datatype Thread = Thread(state: RunState, affinity: int, live: Option<Cpu>, place: Place, granted: Option<Sid>)

  /** `value` and `waiters` are the source's fields.  The rest is history:
      `pending` is the hart between the decrement and the push, `owner` has a mutex's
      permit, `held` are the threads between the return of lock and the call of
      unlock, `owed` the woken threads whose wait has not returned, and the two logs
      record the order of `fifo_push` and `fifo_pop`. */
  datatype Sem = Sem(value: int, waiters: seq<Tid>, mutex: bool, start: nat, pending: Option<Cpu>,
                     owner: Option<Tid>, held: set<Tid>, owed: set<Tid>,
                     signals: nat, grants: nat, finished: nat,
                     pushLog: seq<Tid>, popLog: seq<Tid>)

  /** Why `add_runnable_task` is running. */
  datatype Goal = Resched | Wake(sem: Sid) | Spawn

  datatype Pc =
    // scheduler()
    | Loop
    | Pick
    | Idle
    | Picked(t: Tid)
    | Unlink(t: Tid)
    | Unlinked(t: Tid)
    | Dispatch(t: Tid)
    | SwitchIn(t: Tid)
    | Back(t: Tid)
    | Clear
    // the far side of swtch: sched(), thread_entry(), forkret()
    | Resume(t: Tid)
    | Run
    | SwitchOut(t: Tid)
    // yield() and quit()
    | YieldWant(t: Tid)
    | QuitWant(t: Tid)
    | QuitHave(t: Tid)
    // wakeup_process() and add_runnable_task()
    | WakeHave(t: Tid, goal: Goal)
    | LoadWant(t: Tid, goal: Goal)
    | LoadHave(t: Tid, goal: Goal)
    | QueueWant(t: Tid, goal: Goal, dst: Cpu)
    | QueueHave(t: Tid, goal: Goal, dst: Cpu)
    | QueueDone(t: Tid, goal: Goal, dst: Cpu)
    | WakeDone(t: Tid, goal: Goal)
    // sem_wait()
    | WaitWant(s: Sid, t: Tid)
    | WaitHave(s: Sid, t: Tid)
    | WaitFast(s: Sid)
    | WaitSelf(s: Sid, t: Tid)
    | WaitPush(s: Sid, t: Tid)
    | WaitPushed(s: Sid, t: Tid)
    | Sleep(t: Tid)
    // sem_signal(), wakeup_process(), kthread_create()
    | SigWant(s: Sid)
    | SigHave(s: Sid)
    | SigThread(s: Sid, t: Tid)
    | SigDone(s: Sid)
    | SpawnWant(t: Tid)
    | Panic

  datatype Hart = Hart(pc: Pc, thread: Option<Tid>)

  datatype State = State(
    cpu: seq<Hart>,
    run: seq<seq<Tid>>,
    out: seq<seq<Tid>>,
    thr: map<Tid, Thread>,
    sem: map<Sid, Sem>,
    lock: map<Lock, Cpu>,
    loadCpu: int)

  /** What a hart does next.  `Step` continues the code it is in; the other actions
      start an operation from `Run` or from an interrupt handler. */
  datatype Act =
    | Step
    | Yield
    | Wait(s: Sid)
    | Signal(s: Sid)
    | Create(t: Tid, affinity: int)
    | Quit
    | NewSem(s: Sid, value: nat, mutex: bool)

  function InitSem(value: nat, mutex: bool): Sem {
    Sem(value, [], mutex, value, None, None, {}, {}, 0, 0, 0, [], [])
  }

  /** After sched_init(): no threads, no semaphores, every hart at its scheduler loop. */
  function Init(): State {
    State(seq(NCPU, i => Hart(Loop, None)), seq(NCPU, i => []), seq(NCPU, i => []), map[], map[], map[], -1)
  }

  /** The threads a program counter mentions. */
  function PcTids(pc: Pc): set<Tid> {
    match pc
    case Picked(t) => {t} case Unlink(t) => {t} case Unlinked(t) => {t} case Dispatch(t) => {t}
    case SwitchIn(t) => {t} case Back(t) => {t} case Resume(t) => {t} case SwitchOut(t) => {t}
    case YieldWant(t) => {t} case QuitWant(t) => {t} case QuitHave(t) => {t}
    case WakeHave(t, _) => {t} case LoadWant(t, _) => {t} case LoadHave(t, _) => {t} case QueueWant(t, _, _) => {t}
    case QueueHave(t, _, _) => {t} case QueueDone(t, _, _) => {t} case WakeDone(t, _) => {t}
    case WaitWant(_, t) => {t} case WaitHave(_, t) => {t} case WaitSelf(_, t) => {t}
    case WaitPush(_, t) => {t} case WaitPushed(_, t) => {t} case Sleep(t) => {t}
    case SigThread(_, t) => {t} case SpawnWant(t) => {t}
    case _ => {}
  }

  /** The semaphores a program counter mentions. */
  function PcSids(pc: Pc): set<Sid> {
    match pc
    case WakeHave(_, Wake(s)) => {s} case LoadWant(_, Wake(s)) => {s} case LoadHave(_, Wake(s)) => {s} case QueueWant(_, Wake(s), _) => {s}
    case QueueHave(_, Wake(s), _) => {s} case QueueDone(_, Wake(s), _) => {s} case WakeDone(_, Wake(s)) => {s}
    case WaitWant(s, _) => {s} case WaitHave(s, _) => {s} case WaitFast(s) => {s} case WaitSelf(s, _) => {s}
    case WaitPush(s, _) => {s} case WaitPushed(s, _) => {s}
    case SigWant(s) => {s} case SigHave(s) => {s} case SigThread(s, _) => {s} case SigDone(s) => {s}
    case _ => {}
  }

  predicate DstOk(pc: Pc) {
    match pc
    case QueueWant(_, _, d) => d < NCPU
    case QueueHave(_, _, d) => d < NCPU
    case QueueDone(_, _, d) => d < NCPU
    case _ => true
  }

  /** Array sizes are fixed and every name in use refers to something that exists. */
  predicate Shaped(st: State) {
    && |st.cpu| == NCPU && |st.run| == NCPU && |st.out| == NCPU
    && -1 <= st.loadCpu < NCPU
    && (forall c :: 0 <= c < NCPU ==> HartShaped(st, st.cpu[c]))
    && (forall t :: t in st.thr ==> ThreadShaped(st, st.thr[t]))
    && (forall s :: s in st.sem ==> SemShaped(st, st.sem[s]))
  }

  predicate HartShaped(st: State, h: Hart) {
    (h.thread.Some? ==> h.thread.value in st.thr) && PcTids(h.pc) <= st.thr.Keys && PcSids(h.pc) <= st.sem.Keys && DstOk(h.pc)
  }

  predicate ThreadShaped(st: State, th: Thread) {
    -1 <= th.affinity < NCPU && (th.granted.Some? ==> th.granted.value in st.sem)
  }

  predicate SemShaped(st: State, m: Sem) {
    forall i :: 0 <= i < |m.waiters| ==> m.waiters[i] in st.thr
  }

  // ---- building blocks of the steps ----

  function Goto(st: State, c: Cpu, pc: Pc): State
    requires c < |st.cpu|
  {
    st.(cpu := st.cpu[c := st.cpu[c].(pc := pc)])
  }

  function Release(st: State, c: Cpu, l: Lock, pc: Pc): State
    requires c < |st.cpu|
  {
    Goto(st.(lock := st.lock - {l}), c, pc)
  }

  function SetThread(st: State, t: Tid, th: Thread): State {
    st.(thr := st.thr[t := th])
  }

  function SetSem(st: State, s: Sid, m: Sem): State {
    st.(sem := st.sem[s := m])
  }

  /** Where a hart continues when an operation is over: the interrupted thread, or the
      scheduler loop when the operation ran in a handler with no current thread. */
  function Rest(h: Hart): Pc {
    if h.thread.None? then Loop else Run
  }

  /** pick_next_task: the RUNNABLE thread nearest the tail. */
  function PickNext(q: seq<Tid>, thr: map<Tid, Thread>): Option<Tid> {
    if q == [] then None
    else
      var t := q[|q| - 1];
      if t in thr && thr[t].state.Runnable? then Some(t) else PickNext(q[..|q| - 1], thr)
  }

  /** The search loop of pick_next_task, from the tail. */
  method PickNextTask(q: seq<Tid>, thr: map<Tid, Thread>) returns (r: Option<Tid>)
    ensures r == PickNext(q, thr)
    ensures r.None? ==> forall t :: t in q && t in thr ==> !thr[t].state.Runnable?
    ensures r.Some? ==> exists k :: 0 <= k < |q| && r == Some(q[k]) && q[k] in thr && thr[q[k]].state.Runnable?
                                    && forall m :: k < m < |q| && q[m] in thr ==> !thr[q[m]].state.Runnable?
  {
    var i := |q|;
    assert q[..i] == q;
    while i > 0
      invariant 0 <= i <= |q| && PickNext(q, thr) == PickNext(q[..i], thr)
      invariant forall m :: i <= m < |q| && q[m] in thr ==> !thr[q[m]].state.Runnable?
    {
      if q[i - 1] in thr && thr[q[i - 1]].state.Runnable? { return Some(q[i - 1]); }
      assert q[..i][..i - 1] == q[..i - 1];
      i := i - 1;
    }
    r := None;
  }

  /** list_del: the list without its node `t`. */
  function Remove(q: seq<Tid>, t: Tid): seq<Tid> {
    if q == [] then [] else if q[0] == t then q[1..] else [q[0]] + Remove(q[1..], t)
  }

  // ---- spin_lock and spin_unlock ----

  datatype Move = Take(l: Lock, to: Pc) | Give(l: Lock, to: Pc) | NoMove

  /** The steps that are a single spin_lock or spin_unlock, in every routine. */
  function LockMove(c: Cpu, h: Hart): Move {
    match h.pc
    // scheduler()
    case Loop => Take(QueueLock(c), Pick)
    case Idle => Give(QueueLock(c), Loop)
    case Picked(t) => Take(ThreadLock(t), Unlink(t))
    case Unlinked(t) => Give(QueueLock(c), Dispatch(t))
    case Back(t) => Give(ThreadLock(t), Clear)
    // the tail of sched(), thread_entry() and forkret()
    case Resume(t) => Give(ThreadLock(t), Run)
    // yield(), quit()
    case YieldWant(t) => Take(ThreadLock(t), WakeHave(t, Resched))
    case QuitWant(t) => Take(ThreadLock(t), QuitHave(t))
    // wakeup_process(), add_runnable_task()
    case SigThread(s, t) => Take(ThreadLock(t), WakeHave(t, Wake(s)))
    case SpawnWant(t) => Take(ThreadLock(t), WakeHave(t, Spawn))
    case LoadWant(t, g) => Take(LoadLock, LoadHave(t, g))
    case QueueWant(t, g, d) => Take(QueueLock(d), QueueHave(t, g, d))
    case QueueDone(t, g, d) => Give(QueueLock(d), if g.Resched? then SwitchOut(t) else WakeDone(t, g))
    case WakeDone(t, g) => Give(ThreadLock(t), if g.Wake? then SigDone(g.sem) else Rest(h))
    // sem_wait()
    case WaitWant(s, t) => Take(SemLock(s), WaitHave(s, t))
    case WaitFast(s) => Give(SemLock(s), Run)
    case WaitSelf(s, t) => Take(ThreadLock(t), WaitPush(s, t))
    case WaitPushed(s, t) => Give(SemLock(s), Sleep(t))
    // sem_signal()
    case SigWant(s) => Take(SemLock(s), SigHave(s))
    case SigDone(s) => Give(SemLock(s), Rest(h))
    case _ => NoMove
  }

  function LockStep(st: State, c: Cpu): State
    requires c < |st.cpu|
  {
    var h := st.cpu[c];
    match LockMove(c, h)
    case Take(l, pc) => st.(lock := st.lock[l := c], cpu := st.cpu[c := h.(pc := pc)])
    case Give(l, pc) => st.(lock := st.lock - {l}, cpu := st.cpu[c := h.(pc := pc)])
    case NoMove => st
  }

  // ---- the steps between locks ----

  /** scheduler(): pick_next_task */
  function PickStep(st: State, c: Cpu): State
    requires Shaped(st) && c < NCPU
  {
    match PickNext(st.run[c], st.thr)
    case None => Goto(st, c, Idle)
    case Some(t) => Goto(st, c, Picked(t))
  }

  /** scheduler(): list_del(&next->sched) */
  function UnlinkStep(st: State, c: Cpu, t: Tid): State
    requires Shaped(st) && c < NCPU && t in st.thr
  {
    Goto(SetThread(st.(run := st.run[c := Remove(st.run[c], t)]), t, st.thr[t].(place := Moving(c))), c, Unlinked(t))
  }

  /** scheduler(): state = RUNNING, cpu->thread = next */
  function DispatchStep(st: State, c: Cpu, t: Tid): State
    requires Shaped(st) && c < NCPU && t in st.thr
  {
    SetThread(st, t, st.thr[t].(state := Running, place := OnCpu(c))).(cpu := st.cpu[c := Hart(SwitchIn(t), Some(t))])
  }

  /** scheduler(): swtch to the thread.  A thread that was woken by a signal is now on
      its way out of sem_wait. */
  function SwitchInStep(st: State, c: Cpu, t: Tid): State
    requires Shaped(st) && c < NCPU && t in st.thr
  {
    var r := st.thr[t];
    var st1 := Goto(SetThread(st, t, r.(live := Some(c), granted := None)), c, Resume(t));
    if r.granted.None? then st1 else SetSem(st1, r.granted.value, Finished(st.sem[r.granted.value], t))
  }

  function Finished(m: Sem, t: Tid): Sem {
    m.(finished := m.finished + 1, owed := m.owed - {t}, held := m.held + {t})
  }

  /** scheduler(): cpu->thread = NULL */
  function ClearStep(st: State, c: Cpu): State
    requires c < |st.cpu|
  {
    st.(cpu := st.cpu[c := Hart(Loop, None)])
  }

  /** sched(): swtch to the scheduler */
  function SwitchOutStep(st: State, c: Cpu, t: Tid): State
    requires Shaped(st) && c < NCPU && t in st.thr
  {
    Goto(SetThread(st, t, st.thr[t].(live := None)), c, Back(t))
  }

  /** quit(): state = ZOMBIE, add to the out list */
  function QuitStep(st: State, c: Cpu, t: Tid): State
    requires Shaped(st) && c < NCPU && t in st.thr
  {
    Goto(SetThread(st.(out := st.out[c := st.out[c] + [t]]), t, st.thr[t].(state := Zombie, place := Gone(c))), c, SwitchOut(t))
  }

  /** yield() and wakeup_process(): state = RUNNABLE */
  function WakeStep(st: State, c: Cpu, t: Tid, g: Goal): State
    requires Shaped(st) && c < NCPU && t in st.thr
  {
    var r := st.thr[t];
    Goto(SetThread(st, t, r.(state := Runnable, place := if g.Wake? then Moving(c) else r.place)), c, LoadWant(t, g))
  }

  /** add_runnable_task(): choose the hart, release the load lock */
  function LoadStep(st: State, c: Cpu, t: Tid, g: Goal): State
    requires Shaped(st) && c < NCPU && t in st.thr
  {
    var next := (st.loadCpu + 1) % NCPU;
    if st.thr[t].affinity == -1 then Release(st.(loadCpu := next), c, LoadLock, QueueWant(t, g, next))
    else Release(st, c, LoadLock, QueueWant(t, g, st.thr[t].affinity))
  }

  /** add_runnable_task(): list_add_head */
  function EnqueueStep(st: State, c: Cpu, t: Tid, g: Goal, d: Cpu): State
    requires Shaped(st) && c < NCPU && t in st.thr && d < NCPU
  {
    Goto(SetThread(st.(run := st.run[d := [t] + st.run[d]]), t, st.thr[t].(place := Ready(d))), c, QueueDone(t, g, d))
  }

  /** sem_wait(): decrement and test */
  function Decremented(m: Sem, c: Cpu, t: Tid): Sem {
    if m.value - 1 < 0 then m.(value := m.value - 1, pending := Some(c))
    else m.(value := m.value - 1, grants := m.grants + 1, finished := m.finished + 1, held := m.held + {t},
            owner := if m.mutex then Some(t) else None)
  }

  function DecrementStep(st: State, c: Cpu, s: Sid, t: Tid): State
    requires Shaped(st) && c < NCPU && s in st.sem
  {
    var m := Decremented(st.sem[s], c, t);
    Goto(SetSem(st, s, m), c, if m.value < 0 then WaitSelf(s, t) else WaitFast(s))
  }

  /** sem_wait(): fifo_push */
  function Pushed(m: Sem, t: Tid): Sem {
    m.(waiters := m.waiters + [t], pushLog := m.pushLog + [t], pending := None)
  }

  function PushStep(st: State, c: Cpu, s: Sid, t: Tid): State
    requires Shaped(st) && c < NCPU && s in st.sem && t in st.thr
  {
    Goto(SetThread(SetSem(st, s, Pushed(st.sem[s], t)), t, st.thr[t].(place := Asleep(s))), c, WaitPushed(s, t))
  }

  /** sem_wait(): state = SLEEPING */
  function SleepStep(st: State, c: Cpu, t: Tid): State
    requires Shaped(st) && c < NCPU && t in st.thr
  {
    Goto(SetThread(st, t, st.thr[t].(state := Sleeping)), c, SwitchOut(t))
  }

  /** sem_signal(): increment, and fifo_pop when there are waiters */
  function Incremented(m: Sem): Sem {
    var m1 := m.(value := m.value + 1, signals := m.signals + 1);
    if m1.value > 0 then m1.(owner := None)
    else if m.waiters == [] then m1
    else
      var u := m.waiters[0];
      m1.(waiters := m.waiters[1..], popLog := m.popLog + [u], grants := m.grants + 1, owed := m.owed + {u},
          owner := if m.mutex then Some(u) else None)
  }

  function IncrementStep(st: State, c: Cpu, s: Sid): State
    requires Shaped(st) && c < NCPU && s in st.sem
  {
    var m := st.sem[s];
    var st1 := SetSem(st, s, Incremented(m));
    if m.value + 1 > 0 then Goto(st1, c, SigDone(s))
    else if m.waiters == [] then Goto(st1, c, Panic)
    else
      var u := m.waiters[0];
      Goto(SetThread(st1, u, st.thr[u].(granted := Some(s), place := Waking(c))), c, SigThread(s, u))
  }

  function DataStep(st: State, c: Cpu): State
    requires Shaped(st) && c < NCPU
  {
    match st.cpu[c].pc
    case Pick => PickStep(st, c)
    case Unlink(t) => UnlinkStep(st, c, t)
    case Dispatch(t) => DispatchStep(st, c, t)
    case SwitchIn(t) => SwitchInStep(st, c, t)
    case Clear => ClearStep(st, c)
    case SwitchOut(t) => SwitchOutStep(st, c, t)
    case QuitHave(t) => QuitStep(st, c, t)
    case WakeHave(t, g) => WakeStep(st, c, t, g)
    case LoadHave(t, g) => LoadStep(st, c, t, g)
    case QueueHave(t, g, d) => EnqueueStep(st, c, t, g, d)
    case WaitHave(s, t) => DecrementStep(st, c, s, t)
    case WaitPush(s, t) => PushStep(st, c, s, t)
    case Sleep(t) => SleepStep(st, c, t)
    case SigHave(s) => IncrementStep(st, c, s)
    case _ => st
  }

  // ---- starting an operation ----

  /** The client's part: which operations may be started where.  A mutex is unlocked
      only by a thread that holds it. */
  predicate MayStart(st: State, c: Cpu, a: Act)
    requires c < |st.cpu|
  {
    var h := st.cpu[c];
    match a
    case Step => false
    case Yield => h.pc.Run? && h.thread.Some?
    case Quit => h.pc.Run? && h.thread.Some?
    case Wait(s) => h.pc.Run? && h.thread.Some? && s in st.sem
    case Signal(s) =>
      && (h.pc.Run? || h.pc.Loop?) && s in st.sem
      && (st.sem[s].mutex ==> h.thread.Some? && h.thread.value in st.sem[s].held)
    case Create(t, aff) => (h.pc.Run? || h.pc.Loop?) && t !in st.thr && -1 <= aff < NCPU
    case NewSem(s, v, mutex) => (h.pc.Run? || h.pc.Loop?) && s !in st.sem && (mutex ==> v == 1)
  }

  function Unlocking(m: Sem, h: Hart): Sem {
    if h.thread.Some? then m.(held := m.held - {h.thread.value}) else m
  }

  function Start(st: State, c: Cpu, a: Act): State
    requires Shaped(st) && c < NCPU && MayStart(st, c, a)
  {
    var h := st.cpu[c];
    match a
    case Yield => Goto(st, c, YieldWant(h.thread.value))
    case Quit => Goto(st, c, QuitWant(h.thread.value))
    case Wait(s) => Goto(st, c, WaitWant(s, h.thread.value))
    case Signal(s) =>
      Goto(SetSem(st, s, Unlocking(st.sem[s], h)), c, SigWant(s))
    case Create(t, aff) => Goto(SetThread(st, t, Thread(Used, aff, None, Moving(c), None)), c, SpawnWant(t))
    case NewSem(s, v, mutex) => SetSem(st, s, InitSem(v, mutex))
  }

  /** The lock a hart spins on, if its next step is a spin_lock. */
  function Wants(c: Cpu, h: Hart): Option<Lock> {
    match LockMove(c, h)
    case Take(l, _) => Some(l)
    case _ => None
  }

  /** Hart `c` is not spinning on a lock that somebody holds. */
  predicate Unblocked(st: State, c: Cpu)
    requires c < |st.cpu|
  {
    var w := Wants(c, st.cpu[c]);
    w.Some? ==> w.value !in st.lock
  }

  predicate Can(st: State, c: Cpu, a: Act) {
    && Shaped(st) && c < NCPU
    && if a.Step? then Unblocked(st, c) && !st.cpu[c].pc.Run? && !st.cpu[c].pc.Panic? else MayStart(st, c, a)
  }

  function Next(st: State, c: Cpu, a: Act): State
    requires Can(st, c, a)
  {
    if !a.Step? then Start(st, c, a)
    else if LockMove(c, st.cpu[c]).NoMove? then DataStep(st, c)
    else LockStep(st, c)
  }

  /** A run: `sts[i+1]` is the result of one step of one hart in `sts[i]`. */
  ghost predicate IsRun(sts: seq<State>) {
    && |sts| > 0 && sts[0] == Init()
    && forall i :: 0 <= i < |sts| - 1 ==> OneStep(sts[i], sts[i + 1])
  }

  ghost predicate OneStep(st: State, st': State) {
    exists c, a :: Can(st, c, a) && st' == Next(st, c, a)
  }
}
