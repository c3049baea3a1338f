/** Frame lemmas for the scheduler invariant: what a step leaves alone. */
module SchedulerFrames {
  import opened Basics
  import opened Scheduler
  import opened SchedulerInvariant

  // ---- lock bookkeeping ----

  lemma LocksTaken(cpu: seq<Hart>, lock: map<Lock, Cpu>, c: Cpu, l: Lock, h: Hart)
    requires |cpu| == NCPU && c < NCPU && Locks(cpu, lock)
    requires l !in lock && Holds(c, h.pc) == Holds(c, cpu[c].pc) + {l}
    ensures Locks(cpu[c := h], lock[l := c])
  {
  }

  lemma LocksGiven(cpu: seq<Hart>, lock: map<Lock, Cpu>, c: Cpu, l: Lock, h: Hart)
    requires |cpu| == NCPU && c < NCPU && Locks(cpu, lock)
    requires l in Holds(c, cpu[c].pc) && Holds(c, h.pc) == Holds(c, cpu[c].pc) - {l}
    ensures Locks(cpu[c := h], lock - {l})
  {
    assert lock[l] == c;
  }

  lemma LocksKept(cpu: seq<Hart>, lock: map<Lock, Cpu>, c: Cpu, h: Hart)
    requires |cpu| == NCPU && c < NCPU && Locks(cpu, lock)
    requires Holds(c, h.pc) == Holds(c, cpu[c].pc)
    ensures Locks(cpu[c := h], lock)
  {
  }

  /** No hart other than `c` holds `l`. */
  ghost predicate Alone(cpu: seq<Hart>, c: Cpu, l: Lock) {
    forall d: Cpu :: d < |cpu| && d != c ==> l !in Holds(d, cpu[d].pc)
  }

  lemma LockExclusive(cpu: seq<Hart>, lock: map<Lock, Cpu>, c: Cpu, l: Lock)
    requires |cpu| == NCPU && c < NCPU && Locks(cpu, lock)
    requires l !in lock || l in Holds(c, cpu[c].pc)
    ensures Alone(cpu, c, l)
  {
    assert l in Holds(c, cpu[c].pc) ==> lock[l] == c;
  }

  // ---- harts and threads ----

  predicate AboutOnly(subj: Subj, t: Tid) {
    match subj
    case NoSubj => true
    case Head(u) => u == t
    case Fresh(u) => u == t
    case Carry(u) => u == t
    case Woken(u, _) => u == t
  }

  predicate Mentions(h: Hart, t: Tid) {
    h.thread == None || h.thread == Some(t)
  }

  /** A hart's move changes its standing towards thread `t` only. */
  predicate OtherSame(h: Hart, h': Hart, t: Tid) {
    && ((Mentions(h, t) && Mentions(h', t)) || (h.thread == h'.thread && CurOf(h'.pc) == CurOf(h.pc)))
    && AboutOnly(SubjOf(h.pc), t) && AboutOnly(SubjOf(h'.pc), t)
  }

  lemma OtherRel(c: Cpu, h: Hart, h': Hart, t: Tid, u: Tid, r: Thread)
    requires HartRel(c, h, u, r) && u != t && OtherSame(h, h', t)
    ensures HartRel(c, h', u, r)
  {
  }

  /** Hart `c`, holding the thread's lock, may replace record `r` by `r'`. */
  predicate MayChange(c: Cpu, r: Thread, r': Thread) {
    && (r.place.OnCpu? || r.place.Moving? ==> r.place.hart == c)
    && (r.place.Ready? || r.place.Waking? ==> r.place.hart == c || (r'.place == r.place && r'.granted == r.granted))
    && (r'.place.OnCpu? || r'.place.Moving? ==> r'.place.hart == c)
    && (r'.place.Waking? ==> r'.place == r.place)
    && (r'.live.None? || r'.live == Some(c) || r'.live == r.live)
  }

  lemma BystanderRel(c: Cpu, d: Cpu, h: Hart, t: Tid, r: Thread, r': Thread)
    requires c != d && HartOk(h) && HartRel(d, h, t, r)
    requires ThreadLock(t) !in Holds(d, h.pc) && MayChange(c, r, r')
    ensures HartRel(d, h, t, r')
  {
  }

  lemma PairsLocked(cpu: seq<Hart>, thr: map<Tid, Thread>, c: Cpu, h: Hart, t: Tid, r: Thread)
    requires c < |cpu| && t in thr && Pairs(cpu, thr) && Harts(cpu) && Alone(cpu, c, ThreadLock(t))
    requires OtherSame(cpu[c], h, t) && MayChange(c, thr[t], r) && HartRel(c, h, t, r)
    ensures Pairs(cpu[c := h], thr[t := r])
  {
    var cpu', thr' := cpu[c := h], thr[t := r];
    forall d: Cpu, u | d < |cpu'| && u in thr'
      ensures HartRel(d, cpu'[d], u, thr'[u])
    {
      if d == c && u != t { OtherRel(c, cpu[c], h, t, u, thr[u]); }
      if d != c && u == t { BystanderRel(c, d, cpu[d], t, thr[t], r); }
    }
  }

  lemma PairsHart(cpu: seq<Hart>, thr: map<Tid, Thread>, c: Cpu, h: Hart)
    requires c < |cpu| && Pairs(cpu, thr)
    requires forall t :: t in thr ==> HartRel(c, h, t, thr[t])
    ensures Pairs(cpu[c := h], thr)
  {
  }

  /** A signal pops thread `t`: the hart that put it to sleep may still hold its lock. */
  lemma PoppedRel(c: Cpu, d: Cpu, h: Hart, t: Tid, r: Thread, s: Sid)
    requires c != d && HartRel(d, h, t, r) && r.place.Asleep?
    ensures HartRel(d, h, t, r.(granted := Some(s), place := Waking(c)))
  {
  }

  // ---- lists ----

  /** The change of record keeps the thread on the list it was on, if any. */
  predicate SameList(r: Thread, r': Thread) {
    r.place == r'.place || !(r.place.Ready? || r.place.Gone? || r.place.Asleep? || r'.place.Ready? || r'.place.Gone? || r'.place.Asleep?)
  }

  lemma ListsKept(st: State, thr: map<Tid, Thread>, t: Tid, r: Thread)
    requires |st.run| == NCPU && |st.out| == NCPU && t in st.thr && thr == st.thr[t := r] && SameList(st.thr[t], r)
    requires RunQueues(st.run, st.thr) && OutLists(st.out, st.thr) && WaitQueues(st.sem, st.thr)
    ensures RunQueues(st.run, thr) && OutLists(st.out, thr) && WaitQueues(st.sem, thr)
  {
  }

  lemma OwedKept(sem: map<Sid, Sem>, thr: map<Tid, Thread>, t: Tid, r: Thread)
    requires Owed(sem, thr) && t in thr && thr[t].granted == r.granted
    ensures Owed(sem, thr[t := r])
  {
  }

  lemma ThreadsKept(thr: map<Tid, Thread>, t: Tid, r: Thread)
    requires Threads(thr) && ThreadOk(r)
    ensures Threads(thr[t := r])
  {
  }

  // ---- harts and semaphores ----

  function MidSem(pc: Pc): Option<Sid> {
    if pc.WaitSelf? || pc.WaitPush? then Some(pc.s) else None
  }

  /** The hart keeps its standing towards every semaphore. */
  predicate SemSame(h: Hart, h': Hart) {
    && MidSem(h.pc) == MidSem(h'.pc) && !h'.pc.SigWant?
    && (h'.pc.SigHave? ==> h.pc == SigWant(h'.pc.s) && h.thread == h'.thread)
  }

  lemma SemPairsKept(cpu: seq<Hart>, sem: map<Sid, Sem>, c: Cpu, h: Hart)
    requires c < |cpu| && SemPairs(cpu, sem) && SemSame(cpu[c], h)
    ensures SemPairs(cpu[c := h], sem)
  {
    forall s | s in sem ensures SemRel(c, h, s, sem[s]) {
      assert SemRel(c, cpu[c], s, sem[s]);
    }
  }

  // ---- shape, hart and tail ----

  /** What the new hart must satisfy on its own. */
  predicate PcMove(h: Hart, h': Hart) {
    && PcTids(h'.pc) <= PcTids(h.pc) + (if h.thread.Some? then {h.thread.value} else {})
    && DstOk(h'.pc) && HartOk(h')
    && (h'.pc.Picked? || h'.pc.Unlink? ==> h.pc.Picked? && h.pc.t == h'.pc.t)
    && SemSame(h, h')
  }

  lemma HartsKept(cpu: seq<Hart>, c: Cpu, h: Hart)
    requires c < |cpu| && Harts(cpu) && HartOk(h)
    ensures Harts(cpu[c := h])
  {
  }

  lemma TailsKept(cpu: seq<Hart>, run: seq<seq<Tid>>, c: Cpu, h: Hart)
    requires c < |cpu| == |run| && Tails(cpu, run)
    requires h.pc.Picked? || h.pc.Unlink? ==> cpu[c].pc.Picked? && cpu[c].pc.t == h.pc.t
    ensures Tails(cpu[c := h], run)
  {
    assert TailOk(cpu[c], run[c]);
  }
}
