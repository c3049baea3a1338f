/** What the block layer guarantees over every run. */
module BlockLayerTheorems {
  import opened Basics
  import opened Bio
  import opened BlockLayer
  import opened BlockLayerProofs

  predicate DeviceOk(dev: seq<seq<Byte>>) {
    forall b :: 0 <= b < |dev| ==> |dev[b]| == BLK
  }

  /** The device as one byte array. */
  function Flatten(dev: seq<seq<Byte>>): (flat: seq<Byte>)
    requires DeviceOk(dev)
    ensures |flat| == |dev| * BLK
  {
    seq(|dev| * BLK, a requires 0 <= a < |dev| * BLK => dev[a / BLK][a % BLK])
  }

  /** bhash_init, rq_queue_init: empty cache, empty queue, semaphore 0. */
  function Init(dev: seq<seq<Byte>>): State
    requires DeviceOk(dev)
  {
    State(dev, [], seq(BUCKETS, i => []), Waiting, Idle, map[], map[], {}, [], 0, {}, [], [], [], Flatten(dev), Flatten(dev))
  }

  ghost predicate OneStep(st: State, st': State) {
    exists a :: Can(st, a) && st' == Next(st, a)
  }

  ghost predicate IsRun(dev: seq<seq<Byte>>, sts: seq<State>) {
    && DeviceOk(dev) && |sts| > 0 && sts[0] == Init(dev)
    && forall i :: 0 <= i < |sts| - 1 ==> OneStep(sts[i], sts[i + 1])
  }

  lemma InitBytes(dev: seq<seq<Byte>>, b: nat)
    requires DeviceOk(dev) && b < |dev|
    ensures Logical(dev, [], seq(BUCKETS, i => []), b) == dev[b]
  {
  }

  lemma InitInv(dev: seq<seq<Byte>>)
    requires DeviceOk(dev)
    ensures Inv(Flatten(dev), Init(dev))
  {
    var st := Init(dev);
    forall b | 0 <= b < |dev| ensures Logical(st.dev, st.bufs, st.table, b) == dev[b] {
      InitBytes(dev, b);
    }
    assert st.log == st.served + Current(st.io) + st.queue;
  }

  lemma {:induction false} RunInv(dev: seq<seq<Byte>>, sts: seq<State>, i: nat)
    requires IsRun(dev, sts) && i < |sts|
    ensures Inv(Flatten(dev), sts[i])
  {
    hide Inv, Can, Next, Flatten;
    if i == 0 {
      InitInv(dev);
    } else {
      RunInv(dev, sts, i - 1);
      assert OneStep(sts[i - 1], sts[i - 1 + 1]);
      var a :| Can(sts[i - 1], a) && sts[i] == Next(sts[i - 1], a);
      StepInv(Flatten(dev), sts[i - 1], a);
    }
  }

  /** What a reader finds at byte `a`: the cached page if there is one, else the device. */
  function ByteAt(st: State, a: nat): Byte
    requires CacheShape(st) && a < |st.dev| * BLK
  {
    var l := Logical(st.dev, st.bufs, st.table, a / BLK);
    if a % BLK < |l| then l[a % BLK] else 0
  }

  predicate CacheShape(st: State) { |st.table| == BUCKETS }

  /** The disk that cache and device stand for is the flat array after the requests served
      so far, with the bytes already transferred for the request in progress, whatever the
      write-back thread did in between. */
  lemma DiskIsFlatArray(dev: seq<seq<Byte>>, sts: seq<State>, i: nat, a: nat)
    requires IsRun(dev, sts) && i < |sts| && a < |dev| * BLK
    ensures var st := sts[i]; var flat := FlatAfter(Flatten(dev), st.reqs, st.served);
            && CacheShape(st) && |st.dev| == |dev| && a < |flat|
            && ByteAt(st, a) ==
               if st.io.Busy? && st.io.rid in st.reqs && st.reqs[st.io.rid].write
                  && st.reqs[st.io.rid].addr <= a < st.reqs[st.io.rid].addr + st.io.done
                  && a - st.reqs[st.io.rid].addr < |st.reqs[st.io.rid].data|
               then st.reqs[st.io.rid].data[a - st.reqs[st.io.rid].addr]
               else flat[a]
  {
    hide Flatten, FlatAfter, AnswersOk, TableOk, BytesOk, BufferOk, PinsOk, HandshakeOk, ClientsOk, WokenOk, LogOk, LogOnce, Can;
    var st := sts[i];
    RunInv(dev, sts, i);
    SizeKept(dev, sts, i);
    ByteFact(st, a);
    if st.io.Busy? {
      var r := st.reqs[st.io.rid];
      if r.write { SpliceAt(st.flat, r.addr, r.data[..st.io.done], a); }
    }
  }

  lemma SizeKept(dev: seq<seq<Byte>>, sts: seq<State>, i: nat)
    requires IsRun(dev, sts) && i < |sts|
    ensures |sts[i].dev| == |dev|
  {
    RunInv(dev, sts, i);
    hide BytesOk, TableOk, AnswersOk;
    assert |sts[i].flat| == |dev| * BLK;
  }

  /** Requests are served in the order they were appended; each answer is what the flat
      array would have answered at that point; a client returns only after its whole chain
      was processed, and once it was processed its wake-up waits for it; the IO thread never dequeues from an empty queue. */
  lemma RequestsLinearize(dev: seq<seq<Byte>>, sts: seq<State>, i: nat)
    requires IsRun(dev, sts) && i < |sts|
    ensures var st := sts[i];
            && !st.io.Crashed?
            && st.log == st.served + Current(st.io) + st.queue
            && AnswersOk(Flatten(dev), st.reqs, st.served, st.outs)
            && (forall r :: r in st.clients && st.clients[r].Returned? ==> r in st.served)
            && (forall r :: r in st.served ==> r in st.clients && (st.clients[r].Returned? || r in st.woken))
            && (st.io.Fetching? ==> st.queue != [])
  {
    RunInv(dev, sts, i);
    hide BytesOk, TableOk, FlatAfter, AnswersOk;
  }

  /** The cache never holds two buffers for one block, and the hash lookup finds the
      buffer of a block whenever there is one. */
  lemma OneBuffer(dev: seq<seq<Byte>>, sts: seq<State>, i: nat, b: nat)
    requires IsRun(dev, sts) && i < |sts|
    ensures forall x, y :: 0 <= x < |sts[i].bufs| && 0 <= y < |sts[i].bufs| && sts[i].bufs[x].blockno == sts[i].bufs[y].blockno ==> x == y
    ensures |sts[i].table| == BUCKETS
    ensures forall x :: 0 <= x < |sts[i].bufs| && sts[i].bufs[x].blockno == b ==> Find(sts[i].table, sts[i].bufs, b) == Some(x)
    ensures var f := Find(sts[i].table, sts[i].bufs, b);
            f.Some? ==> f.value < |sts[i].bufs| && sts[i].bufs[f.value].blockno == b
  {
    RunInv(dev, sts, i);
    hide BytesOk, FlatAfter, AnswersOk, Find;
    FindIs(sts[i].table, sts[i].bufs, b);
    OneBufferPerBlock(sts[i]);
  }

  /** The answers given are never revised. */
  lemma HistoryGrows(st: State, a: Act)
    requires Can(st, a)
    ensures st.served <= Next(st, a).served && st.outs <= Next(st, a).outs && st.log <= Next(st, a).log
    ensures forall r :: r in st.reqs ==> r in Next(st, a).reqs && Next(st, a).reqs[r] == st.reqs[r]
  {
    hide Splice, Split, Find;
  }

  /** What the IO thread does next. */
  function NextIo(st: State): Act
    requires st.io.Busy?
  {
    match st.io.phase
    case Head => if st.io.rest == [] then IoFinish else IoGet
    case Got => IoPin
    case Pinned => IoFill
    case Ready => IoCopy
    case Copied => IoUnpin
  }

  /** What the write-back thread does next with a buffer it has popped. */
  function NextFl(st: State): Act {
    match st.fl
    case Popped(_) => FlPin
    case Holding(_) => FlWrite
    case Written(_) => FlUnpin
    case _ => FlClear
  }

  lemma CopyEnabled(st: State)
    requires CacheOk(st) && IoOk(st) && IoHas(st, Ready)
    ensures Can(st, IoCopy)
  {
    FirstPiece(st.io, st.reqs[st.io.rid], st.flat, st.cur);
    BufferLogical(st, st.io.id);
  }

  lemma HeadEnabled(st: State)
    requires CacheOk(st) && IoOk(st) && IoAt(st, Head)
    ensures Can(st, NextIo(st))
  {
    if st.io.rest != [] { FirstPiece(st.io, st.reqs[st.io.rid], st.flat, st.cur); }
  }

  lemma GotEnabled(st: State)
    requires CacheOk(st) && IoOk(st) && PinsOk(st.io, st.fl, st.bufs) && FlOk(st.fl, st.bufs) && IoAt(st, Got)
    ensures Can(st, IoPin) || ((st.fl.Holding? || st.fl.Written?) && Can(st, NextFl(st)))
  {
    hide CacheOk, ProgressOk;
    if st.bufs[st.io.id].pin.Some? {
      BufferLogical(st, st.io.id);
      assert st.bufs[st.io.id].pin.value == IoThread || st.bufs[st.io.id].pin.value == FlushThread;
    }
  }

  lemma PinnedEnabled(st: State)
    requires CacheOk(st) && IoOk(st) && st.io.Busy? && (st.io.phase.Pinned? || st.io.phase.Copied?)
    ensures Can(st, NextIo(st))
  {
    hide CacheOk, ProgressOk;
    if st.io.phase.Pinned? { BufferLogical(st, st.io.id); }
  }

  lemma ReadyEnabled(st: State)
    requires CacheOk(st) && IoOk(st) && IoAt(st, Ready)
    ensures Can(st, IoCopy)
  {
    hide CacheOk, ProgressOk;
    CopyEnabled(st);
  }

  /** In the middle of a request the IO thread can go on, or it waits for a buffer that the
      write-back thread holds and will release: the `continue` on an empty piece, which
      would loop forever, is never taken. */
  lemma IoNotStuck(dev: seq<seq<Byte>>, sts: seq<State>, i: nat)
    requires IsRun(dev, sts) && i < |sts| && sts[i].io.Busy?
    ensures var st := sts[i]; Can(st, NextIo(st)) || ((st.fl.Holding? || st.fl.Written?) && Can(st, NextFl(st)))
  {
    hide CacheOk, IoOk, PinsOk, FlOk, HandshakeOk, ClientsOk, WokenOk, LogOk, LogOnce, SpecOk, Can;
    var st := sts[i];
    RunInv(dev, sts, i);
    match st.io.phase
    case Head => HeadEnabled(st);
    case Got => GotEnabled(st);
    case Ready => ReadyEnabled(st);
    case _ => PinnedEnabled(st);
  }
}
