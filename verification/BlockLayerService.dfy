/** Every request is served and every client returns: the work before a request, counted in
    steps of the IO thread, falls with each of them, and something can always happen next. */
module BlockLayerService {
  import opened Basics
  import opened Bio
  import opened BlockLayer
  import opened BlockLayerProofs
  import opened BlockLayerTheorems

  predicate IoAct(a: Act) {
    a.IoWait? || a.IoFetch? || a.IoFinish? || a.IoGet? || a.IoPin? || a.IoFill? || a.IoCopy? || a.IoUnpin?
  }

  // ---- the work before a request ----

  /** Steps for one request: wait, fetch, five for each piece, finish. */
  function Cost(reqs: map<Rid, Req>, r: Rid): nat {
    if r in reqs then 5 * |Split(reqs[r].addr, reqs[r].len)| + 3 else 3
  }

  /** Steps for the queued requests up to and including `r`. */
  function QueueWork(reqs: map<Rid, Req>, q: seq<Rid>, r: Rid): nat {
    if q == [] then 0
    else if q[0] == r then Cost(reqs, r)
    else Cost(reqs, q[0]) + QueueWork(reqs, q[1..], r)
  }

  /** Steps for what is left of the request in progress. */
  function CurrentWork(io: Io): int {
    if !io.Busy? then 0
    else
      var left := 5 * |io.rest| + 1;
      match io.phase
      case Head => left
      case Got => left - 1
      case Pinned => left - 2
      case Ready => left - 3
      case Copied => left + 1
  }

  /** Steps of the IO thread until request `r` is served. */
  function IoWork(st: State, r: Rid): int {
    if r in st.served then 0
    else if st.io.Busy? && st.io.rid == r then CurrentWork(st.io)
    else CurrentWork(st.io) + QueueWork(st.reqs, st.queue, r) - (if st.io.Fetching? then 1 else 0)
  }

  lemma {:induction false} QueueWorkAppend(reqs: map<Rid, Req>, q: seq<Rid>, r: Rid, rid: Rid, req: Req)
    requires r in q && rid !in q
    ensures QueueWork(reqs[rid := req], q + [rid], r) == QueueWork(reqs, q, r)
  {
    hide Cost;
    assert Cost(reqs[rid := req], q[0]) == Cost(reqs, q[0]) by { CostKept(reqs, q[0], rid, req); }
    if q[0] != r {
      assert (q + [rid])[1..] == q[1..] + [rid];
      QueueWorkAppend(reqs, q[1..], r, rid, req);
    }
  }

  lemma CostKept(reqs: map<Rid, Req>, r: Rid, rid: Rid, req: Req)
    requires r != rid
    ensures Cost(reqs[rid := req], r) == Cost(reqs, r)
  {
  }

  /** Where an unserved request is. */
  lemma Unserved(st: State, r: Rid)
    requires LogOk(st) && LogOnce(st) && r in st.log && r !in st.served
    ensures (st.io.Busy? && st.io.rid == r) || r in st.queue
    ensures st.io.Busy? && st.io.rid == r ==> r !in st.queue
  {
    Concat(st.served, Current(st.io), st.queue, r);
    if st.io.Busy? && st.io.rid == r { ApartInLog(st.served + Current(st.io), st.queue); }
  }

  lemma Concat(a: seq<Rid>, b: seq<Rid>, c: seq<Rid>, r: Rid)
    requires r in a + b + c
    ensures r in a || r in b || r in c
  {
  }

  lemma ApartInLog(a: seq<Rid>, b: seq<Rid>)
    requires NoDup(a + b)
    ensures forall r :: r in a ==> r !in b
  {
    forall i, j | 0 <= i < |a| && 0 <= j < |b| ensures a[i] != b[j] {
      assert (a + b)[i] == a[i] && (a + b)[|a| + j] == b[j];
    }
  }

  /** A step of the IO thread takes one off the work before every request that is not served,
      and no other step changes it. */
  lemma WorkFalls(flat0: seq<Byte>, st: State, a: Act, r: Rid)
    requires Inv(flat0, st) && Can(st, a) && r in st.log && r !in st.served
    ensures IoWork(Next(st, a), r) == IoWork(st, r) - (if IoAct(a) then 1 else 0)
    ensures r in Next(st, a).log && (IoAct(a) <==> Next(st, a).io != st.io)
  {
    hide CacheOk, PinsOk, FlOk, WrittenOk, HandshakeOk, ClientsOk, WokenOk, LogOk, LogOnce, SpecOk, ProgressOk, Split, Splice, QueueWork, Cost;
    Unserved(st, r);
    match a
    case DoAppend(rid, req) => AppendWork(st, rid, req, r);
    case IoFetch => FetchWork(st, r);
    case IoGet => GetWork(st);
    case _ => OtherWork(st, a, r);
  }

  lemma OtherWork(st: State, a: Act, r: Rid)
    requires IoOk(st) && Can(st, a) && r !in st.served && r in st.log && !a.DoAppend? && !a.IoFetch? && !a.IoGet?
    ensures IoWork(Next(st, a), r) == IoWork(st, r) - (if IoAct(a) then 1 else 0)
    ensures r in Next(st, a).log && (IoAct(a) <==> Next(st, a).io != st.io)
  {
    hide ProgressOk, Split, Splice, QueueWork, Cost, Apply, SetPin;
  }

  lemma AppendWork(st: State, rid: Rid, req: Req, r: Rid)
    requires LogOk(st) && LogOnce(st) && Can(st, DoAppend(rid, req)) && r in st.log && r !in st.served
    ensures IoWork(Append(st, rid, req), r) == IoWork(st, r) && r in Append(st, rid, req).log
  {
    hide QueueWork, CurrentWork;
    Unserved(st, r);
    if r in st.queue {
      forall m | 0 <= m < |st.queue| ensures st.queue[m] in st.log { assert st.log[|st.log| - |st.queue| + m] == st.queue[m]; }
      assert rid !in st.log;
      QueueWorkAppend(st.reqs, st.queue, r, rid, req);
    }
  }

  lemma FetchWork(st: State, r: Rid)
    requires LogOk(st) && HandshakeOk(st) && st.io.Fetching? && r in st.queue && r !in st.served
    ensures IoWork(Fetch(st), r) == IoWork(st, r) - 1
  {
    FetchFinds(st);
    hide Split;
  }

  lemma GetWork(st: State)
    requires Can(st, IoGet)
    ensures Get(st).io == st.io.(phase := Got, id := Get(st).io.id)
  {
    hide Find;
  }

  lemma {:induction false} QueueWorkPositive(reqs: map<Rid, Req>, q: seq<Rid>, r: Rid)
    requires r in q
    ensures QueueWork(reqs, q, r) >= 3
  {
    hide Split;
    if q[0] != r { QueueWorkPositive(reqs, q[1..], r); }
  }

  lemma WorkPositive(flat0: seq<Byte>, st: State, r: Rid)
    requires Inv(flat0, st) && r in st.log && r !in st.served
    ensures IoWork(st, r) > 0
  {
    hide CacheOk, PinsOk, FlOk, WrittenOk, HandshakeOk, ClientsOk, WokenOk, LogOk, LogOnce, SpecOk, ProgressOk, QueueWork;
    Unserved(st, r);
    if r in st.queue { QueueWorkPositive(st.reqs, st.queue, r); }
  }

  /** The steps of the IO thread between two states of a run. */
  function IoSteps(sts: seq<State>, i: nat, j: nat): nat
    requires i <= j < |sts|
  {
    if i == j then 0 else IoSteps(sts, i, j - 1) + (if sts[j].io != sts[j - 1].io then 1 else 0)
  }

  lemma StepOf(dev: seq<seq<Byte>>, sts: seq<State>, k: nat) returns (a: Act)
    requires IsRun(dev, sts) && k + 1 < |sts|
    ensures Can(sts[k], a) && sts[k + 1] == Next(sts[k], a) && Inv(Flatten(dev), sts[k])
  {
    hide Inv, Can, Next, Flatten;
    RunInv(dev, sts, k);
    assert OneStep(sts[k], sts[k + 1]);
    a :| Can(sts[k], a) && sts[k + 1] == Next(sts[k], a);
  }

  lemma {:induction false} WorkInRun(dev: seq<seq<Byte>>, sts: seq<State>, i: nat, j: nat, r: Rid)
    requires IsRun(dev, sts) && i <= j < |sts| && r in sts[i].log
    ensures r in sts[j].log
    ensures r !in sts[j].served ==> r !in sts[i].served && IoSteps(sts, i, j) + IoWork(sts[j], r) == IoWork(sts[i], r)
  {
    hide Inv, Can, Next, Flatten, IoWork;
    if i < j {
      WorkInRun(dev, sts, i, j - 1, r);
      var a := StepOf(dev, sts, j - 1);
      HistoryGrows(sts[j - 1], a);
      if r !in sts[j - 1].served { WorkFalls(Flatten(dev), sts[j - 1], a, r); }
    }
  }

  /** A request is served by the time the IO thread has done the work that was before it when
      it was appended, whatever is appended later and whatever the write-back thread does. */
  lemma ServedInTime(dev: seq<seq<Byte>>, sts: seq<State>, i: nat, j: nat, r: Rid)
    requires IsRun(dev, sts) && i <= j < |sts| && r in sts[i].log && IoSteps(sts, i, j) >= IoWork(sts[i], r)
    ensures r in sts[j].served
  {
    hide Inv, Can, Next, Flatten, IoWork;
    WorkInRun(dev, sts, i, j, r);
    if r !in sts[j].served {
      RunInv(dev, sts, j);
      WorkPositive(Flatten(dev), sts[j], r);
    }
  }

  // ---- something can always happen ----

  /** Request `u` was appended no later than `r`. */
  predicate NotAfter(log: seq<Rid>, u: Rid, r: Rid) {
    exists a, b :: 0 <= a <= b < |log| && log[a] == u && log[b] == r
  }

  lemma {:induction false} FewInSeq(x: set<Rid>, q: seq<Rid>)
    requires forall r :: r in x ==> r in q
    ensures |x| <= |q|
  {
    if q == [] {
      assert x == {};
    } else {
      var y := x - {q[0]};
      forall r | r in y ensures r in q[1..] { var k :| 0 <= k < |q| && q[k] == r; assert q[1..][k - 1] == r; }
      FewInSeq(y, q[1..]);
      assert x <= y + {q[0]};
      CardinalityUp(x, y, q[0]);
    }
  }

  lemma CardinalityUp(x: set<Rid>, y: set<Rid>, e: Rid)
    requires y == x - {e}
    ensures |x| <= |y| + 1
  {
    if e in x { assert x == y + {e}; } else { assert x == y; }
  }

  /** Without a permit some client that came no later than `r` has still to signal: a client
      that came later cannot hold `r` up. */
  lemma SomeoneSignals(flat0: seq<Byte>, st: State, r: Rid) returns (u: Rid)
    requires Inv(flat0, st) && r in st.log && r !in st.served && st.io.Waiting? && st.permits == 0
    ensures NotAfter(st.log, u, r) && Can(st, DoSignal(u))
  {
    hide CacheOk, PinsOk, FlOk, WrittenOk, WokenOk, SpecOk, IoOk, NotAfter;
    Unserved(st, r);
    var k :| 0 <= k < |st.queue| && st.queue[k] == r;
    u := Straggler(st.unsignalled, st.queue, k);
    assert st.log == st.served + st.queue;
    EarlierInLog(st.served, st.queue, k, u, r);
  }

  lemma Straggler(x: set<Rid>, q: seq<Rid>, k: nat) returns (u: Rid)
    requires k < |q| && |x| == |q|
    ensures u in x && u !in q[k + 1..]
  {
    if forall r :: r in x ==> r in q[k + 1..] { FewInSeq(x, q[k + 1..]); }
    u :| u in x && u !in q[k + 1..];
  }

  lemma EarlierInLog(served: seq<Rid>, queue: seq<Rid>, k: nat, u: Rid, r: Rid)
    requires k < |queue| && queue[k] == r && u in served + queue && u !in queue[k + 1..]
    ensures NotAfter(served + queue, u, r)
  {
    var log, before := served + queue, served + queue[..k + 1];
    assert log == before + queue[k + 1..];
    assert u in before;
    var m :| 0 <= m < |before| && before[m] == u;
    assert log[m] == u && log[|served| + k] == r;
  }

  /** While a request waits, the IO thread can take a step, or it waits for a buffer that the
      write-back thread is about to release, or for the signal of a client that came no later. */
  lemma RequestProgress(dev: seq<seq<Byte>>, sts: seq<State>, i: nat, r: Rid)
    requires IsRun(dev, sts) && i < |sts| && r in sts[i].log && r !in sts[i].served
    ensures var st := sts[i];
            || (exists a :: IoAct(a) && Can(st, a))
            || ((st.fl.Holding? || st.fl.Written?) && Can(st, NextFl(st)))
            || (exists u :: NotAfter(st.log, u, r) && Can(st, DoSignal(u)))
  {
    hide Inv, Flatten, NotAfter, Can;
    var st := sts[i];
    RunInv(dev, sts, i);
    NotCrashed(Flatten(dev), st);
    match st.io
    case Busy(_, _, _, _, _, _) =>
      IoNotStuck(dev, sts, i);
      assert IoAct(NextIo(st));
    case Fetching => CanFetch(st);
    case Waiting =>
      if st.permits > 0 { CanWait(st); } else { var u := SomeoneSignals(Flatten(dev), st, r); }
  }

  lemma CanFetch(st: State)
    requires st.io.Fetching?
    ensures Can(st, IoFetch)
  {
  }

  lemma CanWait(st: State)
    requires st.io.Waiting? && st.permits > 0
    ensures Can(st, IoWait)
  {
  }

  lemma NotCrashed(flat0: seq<Byte>, st: State)
    requires Inv(flat0, st)
    ensures !st.io.Crashed?
  {
  }

  /** No wake-up is lost: a client whose request was served has returned, can return, or has
      only its own signal left to give before it can. */
  lemma ClientReturns(dev: seq<seq<Byte>>, sts: seq<State>, i: nat, r: Rid)
    requires IsRun(dev, sts) && i < |sts| && r in sts[i].served
    ensures var st := sts[i];
            && r in st.clients
            && (st.clients[r].Returned? || Can(st, DoReturn(r)) || (Can(st, DoSignal(r)) && Can(Signal(st, r), DoReturn(r))))
  {
    hide CacheOk, PinsOk, FlOk, WrittenOk, HandshakeOk, LogOk, LogOnce, SpecOk, IoOk, Flatten;
    RunInv(dev, sts, i);
  }

  /** A client's own steps left: its signal and its return. */
  function ClientLeft(c: Client): nat {
    match c
    case Appended => 2
    case Signalled => 1
    case Returned => 0
  }

  /** Each of them is taken once and nothing else changes the client. */
  lemma ClientFalls(st: State, a: Act, r: Rid)
    requires Can(st, a) && r in st.clients && r in st.reqs
    ensures r in Next(st, a).clients
    ensures ClientLeft(Next(st, a).clients[r]) == ClientLeft(st.clients[r]) - (if a == DoSignal(r) || a == DoReturn(r) then 1 else 0)
  {
    hide Splice, Split, Find, FindIn;
  }

  /** When only new requests and new rounds of the write-back thread can happen, every request
      has been served in the order of the log and every client has returned. */
  lemma QuietMeansDone(dev: seq<seq<Byte>>, sts: seq<State>, i: nat)
    requires IsRun(dev, sts) && i < |sts| && forall a :: Can(sts[i], a) ==> a.DoAppend? || a.FlPop?
    ensures var st := sts[i]; st.served == st.log && forall r :: r in st.clients ==> st.clients[r].Returned?
  {
    hide Inv, Can, Flatten;
    var st := sts[i];
    RunInv(dev, sts, i);
    if st.served != st.log {
      var r := SomeUnserved(Flatten(dev), st);
      RequestProgress(dev, sts, i, r);
    }
    forall r | r in st.clients ensures st.clients[r].Returned? {
      ClientInLog(Flatten(dev), st, r);
      ClientReturns(dev, sts, i, r);
    }
  }

  /** Unless everything has been served, some request waits. */
  lemma SomeUnserved(flat0: seq<Byte>, st: State) returns (r: Rid)
    requires Inv(flat0, st) && st.served != st.log
    ensures r in st.log && r !in st.served
  {
    hide CacheOk, PinsOk, FlOk, WrittenOk, HandshakeOk, SpecOk, IoOk, WokenOk, ClientsOk;
    var rest := Current(st.io) + st.queue;
    assert st.log == st.served + rest;
    assert st.served + [] == st.served;
    r := rest[0];
    assert st.log[|st.served|] == r;
    ApartInLog(st.served, rest);
  }

  lemma ClientInLog(flat0: seq<Byte>, st: State, r: Rid)
    requires Inv(flat0, st) && r in st.clients
    ensures r in st.log
  {
  }

  // ---- the dirty flag ----

  /** A buffer in use whose flag is clear holds what is on the device; a new one is not dirty. */
  ghost predicate Clean(st: State) {
    forall i :: 0 <= i < |st.bufs| ==>
      && (st.bufs[i].isNew ==> !st.bufs[i].dirty)
      && (!st.bufs[i].isNew && !st.bufs[i].dirty ==> st.bufs[i].blockno < |st.dev| && st.bufs[i].page == st.dev[st.bufs[i].blockno])
  }

  /** The page was written after the write-back thread unpinned the buffer. */
  predicate Stale(st: State) {
    && st.fl.Unpinned? && st.fl.id < |st.bufs| && st.bufs[st.fl.id].blockno < |st.dev|
    && st.bufs[st.fl.id].page != st.dev[st.bufs[st.fl.id].blockno]
  }

  /** Every step keeps it, except that clearing the flag of a buffer loses it exactly when the
      page was written between the unpin and the clear. */
  lemma CleanStep(flat0: seq<Byte>, st: State, a: Act)
    requires Inv(flat0, st) && Can(st, a) && Clean(st)
    ensures Clean(Next(st, a)) <==> !(a.FlClear? && Stale(st))
  {
    hide HandshakeOk, ClientsOk, WokenOk, LogOk, LogOnce, SpecOk, BytesOk, TableOk, ProgressOk, Split, Splice, Find;
    var st' := Next(st, a);
    match a
    case IoGet => GetClean(st);
    case IoCopy => CopyClean(st);
    case FlWrite => OneBufferPerBlock(st);
    case FlClear => ClearClean(st);
    case _ =>
  }

  lemma ClearClean(st: State)
    requires Clean(st) && Can(st, FlClear) && FlOk(st.fl, st.bufs) && st.bufs[st.fl.id].blockno < |st.dev|
    ensures Clean(Next(st, FlClear)) <==> st.bufs[st.fl.id].page == st.dev[st.bufs[st.fl.id].blockno]
  {
    var st' := Next(st, FlClear);
    assert !st'.bufs[st.fl.id].isNew && !st'.bufs[st.fl.id].dirty;
  }

  lemma GetClean(st: State)
    requires Clean(st) && Can(st, IoGet)
    ensures Clean(Get(st))
  {
    hide Find;
  }

  lemma CopyClean(st: State)
    requires Clean(st) && IoOk(st) && CacheOk(st) && Can(st, IoCopy)
    ensures Clean(Copy(st))
  {
    hide CacheOk, ProgressOk, Splice;
    BufferLogical(st, st.io.id);
  }

  /** It holds throughout a run in which no flag was cleared on such a page. */
  lemma {:induction false} RunClean(dev: seq<seq<Byte>>, sts: seq<State>, i: nat)
    requires IsRun(dev, sts) && i < |sts| && forall k :: 0 <= k < i && Stale(sts[k]) ==> sts[k + 1].fl == sts[k].fl
    ensures Clean(sts[i])
  {
    hide Inv, Can, Next, Flatten, Clean;
    if i == 0 {
      assert Clean(Init(dev)) by { EmptyClean(Init(dev)); }
    } else {
      RunClean(dev, sts, i - 1);
      var a := StepOf(dev, sts, i - 1);
      CleanStep(Flatten(dev), sts[i - 1], a);
      if a.FlClear? { ClearEnds(sts[i - 1]); }
      assert sts[i - 1 + 1] == sts[i];
    }
  }

  lemma EmptyClean(st: State)
    requires st.bufs == []
    ensures Clean(st)
  {
  }

  lemma ClearEnds(st: State)
    requires Can(st, FlClear)
    ensures st.fl.Unpinned? && Next(st, FlClear).fl.Idle?
  {
  }

  /** The race: a write piece copied into the buffer after the write-back thread has unpinned it
      leaves the buffer marked clean with bytes the device does not have. */
  lemma CleanLost(flat0: seq<Byte>, st: State, st': State)
    requires Can(st, IoCopy) && st' == Next(st, IoCopy) && st.fl == Unpinned(st.io.id) && st.bufs[st.io.id].blockno < |st.dev|
    requires st.io.id < |st'.bufs| && st'.bufs[st.io.id].page != st.dev[st.bufs[st.io.id].blockno]
    requires Inv(flat0, st)
    ensures Can(st', FlClear)
    ensures !Clean(Next(st', FlClear))
  {
    hide Inv, Splice;
    var end := Next(st', FlClear);
    assert !end.bufs[st.io.id].isNew && !end.bufs[st.io.id].dirty && end.bufs[st.io.id].page == st'.bufs[st.io.id].page;
  }

  /** While the write-back thread has the buffer pinned after its write, the block on the device
      is the page. */
  lemma WrittenOnDevice(dev: seq<seq<Byte>>, sts: seq<State>, i: nat)
    requires IsRun(dev, sts) && i < |sts| && sts[i].fl.Written?
    ensures var st := sts[i];
            && st.fl.id < |st.bufs| && st.bufs[st.fl.id].blockno < |st.dev| && st.dev[st.bufs[st.fl.id].blockno] == st.bufs[st.fl.id].page
  {
    hide CacheOk, PinsOk, FlOk, HandshakeOk, ClientsOk, WokenOk, LogOk, LogOnce, SpecOk, IoOk, Flatten;
    RunInv(dev, sts, i);
  }

  // ---- one buffer of the write-back thread ----

  /** Steps of the write-back thread until it is done with its buffer. */
  function FlushLeft(fl: Fl): nat {
    match fl
    case Idle => 0
    case Unpinned(_) => 1
    case Written(_) => 2
    case Holding(_) => 3
    case Popped(_) => 4
  }

  predicate FlAct(a: Act) { a.FlPop? || a.FlPin? || a.FlWrite? || a.FlUnpin? || a.FlClear? }

  lemma FlushFalls(st: State, a: Act)
    requires Can(st, a)
    ensures !FlAct(a) ==> Next(st, a).fl == st.fl
    ensures a.FlPop? ==> Next(st, a).fl == Popped(a.id)
    ensures FlAct(a) && !a.FlPop? ==> FlushLeft(Next(st, a).fl) == FlushLeft(st.fl) - 1 && (Next(st, a).fl.Idle? || Next(st, a).fl.id == st.fl.id)
  {
    hide Splice, Split, Find, FindIn;
  }

  /** The write-back thread can take its next step, or the IO thread that holds its buffer can. */
  lemma FlushNotStuck(dev: seq<seq<Byte>>, sts: seq<State>, i: nat)
    requires IsRun(dev, sts) && i < |sts| && !sts[i].fl.Idle?
    ensures var st := sts[i]; Can(st, NextFl(st)) || (st.fl.Popped? && st.io.Busy? && HasPin(st.io.phase) && st.io.id == st.fl.id && Can(st, NextIo(st)))
  {
    hide CacheOk, IoOk, HandshakeOk, ClientsOk, WokenOk, LogOk, LogOnce, SpecOk, Flatten;
    var st := sts[i];
    RunInv(dev, sts, i);
    BufferLogical(st, st.fl.id);
    PinCases(st.bufs[st.fl.id].pin);
    if st.fl.Popped? && st.bufs[st.fl.id].pin == Some(IoThread) {
      hide Can;
      IoNotStuck(dev, sts, i);
    }
  }

  lemma PinCases(w: Option<Who>)
    ensures w == None || w == Some(IoThread) || w == Some(FlushThread)
  {
    if w.Some? { match w.value { case IoThread => case FlushThread => } }
  }

  lemma {:induction false} OnTheWay(dev: seq<seq<Byte>>, sts: seq<State>, i: nat, j: nat, id: nat)
    requires IsRun(dev, sts) && i < j < |sts| && Can(sts[i], FlPop(id)) && sts[i + 1] == Next(sts[i], FlPop(id))
    requires forall k :: i < k <= j ==> !sts[k].fl.Idle? && sts[k].fl != Written(id)
    ensures sts[j].fl == Popped(id) || sts[j].fl == Holding(id)
  {
    hide Inv, Can, Next, Flatten;
    if j == i + 1 {
      FlushFalls(sts[i], FlPop(id));
    } else {
      OnTheWay(dev, sts, i, j - 1, id);
      var a := StepOf(dev, sts, j - 1);
      FlushFalls(sts[j - 1], a);
      if a.FlPop? { IdlePops(sts[j - 1], a); }
    }
  }

  lemma IdlePops(st: State, a: Act)
    requires Can(st, a) && a.FlPop?
    ensures st.fl.Idle?
  {
  }

  /** A buffer the write-back thread has taken from the list has been on the device, as it then
      was, before the thread takes the next one. */
  lemma WrittenBack(dev: seq<seq<Byte>>, sts: seq<State>, i: nat, j: nat, id: nat) returns (k: nat)
    requires IsRun(dev, sts) && i < j < |sts| && Can(sts[i], FlPop(id)) && sts[i + 1] == Next(sts[i], FlPop(id)) && sts[j].fl.Idle?
    ensures i < k < j && var st := sts[k];
            && id < |st.bufs| && st.bufs[id].blockno < |st.dev| && st.dev[st.bufs[id].blockno] == st.bufs[id].page
  {
    hide Inv, Can, Next, Flatten;
    FlushFalls(sts[i], FlPop(id));
    k := i + 1;
    while sts[k].fl != Written(id)
      invariant i < k < j && forall m :: i < m < k ==> !sts[m].fl.Idle? && sts[m].fl != Written(id)
      invariant !sts[k].fl.Idle?
      decreases j - k
    {
      OnTheWay(dev, sts, i, k, id);
      var a := StepOf(dev, sts, k);
      FlushFalls(sts[k], a);
      if a.FlPop? { IdlePops(sts[k], a); }
      k := k + 1;
    }
    WrittenOnDevice(dev, sts, k);
  }

  // ---- one call of gen_read or gen_write ----

  lemma {:induction false} HistoryInRun(dev: seq<seq<Byte>>, sts: seq<State>, i: nat, j: nat)
    requires IsRun(dev, sts) && i <= j < |sts|
    ensures sts[i].log <= sts[j].log && sts[i].served <= sts[j].served && sts[i].outs <= sts[j].outs
    ensures forall r :: r in sts[i].reqs ==> r in sts[j].reqs && sts[j].reqs[r] == sts[i].reqs[r]
  {
    hide Inv, Can, Next, Flatten;
    if i < j {
      HistoryInRun(dev, sts, i, j - 1);
      var a := StepOf(dev, sts, j - 1);
      HistoryGrows(sts[j - 1], a);
    }
  }

  /** Where a request is in the order of service once it was served. */
  lemma PlaceInOrder(st: State, p: nat)
    requires LogOk(st) && LogOnce(st) && p < |st.log| && st.log[p] in st.served
    ensures p < |st.served| && st.served[p] == st.log[p]
  {
    assert forall k :: 0 <= k < |st.served| ==> st.log[k] == st.served[k];
  }

  /** Linearizability: a request that was appended with step `i` and whose client has returned
      has its own place in the order of service; its answer is the flat array's at that place for
      the request that was passed; and everything served before the call comes before it. */
  lemma CallAnswered(dev: seq<seq<Byte>>, sts: seq<State>, i: nat, j: nat, rid: Rid, r: Req)
    requires IsRun(dev, sts) && i < j < |sts| && Can(sts[i], DoAppend(rid, r)) && sts[i + 1] == Next(sts[i], DoAppend(rid, r))
    requires rid in sts[j].clients && sts[j].clients[rid].Returned?
    ensures var st, p := sts[j], |sts[i].log|;
            && p < |st.served| == |st.outs| && st.served[p] == rid && sts[i].served <= st.served[..p]
            && var before := FlatAfter(Flatten(dev), st.reqs, st.served[..p]);
               ReqOk(r, |before|) && st.outs[p] == Answer(r, before) && rid in st.reqs && st.reqs[rid] == r
  {
    hide Can, Flatten, FlatAfter, CacheOk, IoOk, PinsOk, FlOk, WrittenOk, HandshakeOk, WokenOk;
    var st, p := sts[j], |sts[i].log|;
    assert sts[i + 1].log == sts[i].log + [rid] && sts[i + 1].reqs[rid] == r;
    hide Next;
    HistoryInRun(dev, sts, i, j);
    HistoryInRun(dev, sts, i + 1, j);
    RunInv(dev, sts, j);
    assert st.log[p] == sts[i + 1].log[p] == rid;
    PlaceInOrder(st, p);
    ServedShort(dev, sts, i);
  }

  lemma ServedShort(dev: seq<seq<Byte>>, sts: seq<State>, i: nat)
    requires IsRun(dev, sts) && i < |sts|
    ensures |sts[i].served| <= |sts[i].log|
  {
    hide CacheOk, IoOk, PinsOk, FlOk, WrittenOk, HandshakeOk, WokenOk, SpecOk, Flatten;
    RunInv(dev, sts, i);
  }
}
