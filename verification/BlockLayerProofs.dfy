/** The invariant of the block layer and its preservation. */
module BlockLayerProofs {
  import opened Basics
  import opened Bio
  import opened BlockLayer

  // ---- the hash table ----

  /** Buffer `i` is filed in its bucket, buckets hold only their own, and no two buffers
      have the same block number. */
  ghost predicate TableOk(table: seq<seq<nat>>, bufs: seq<Buf>) {
    && |table| == BUCKETS
    && (forall i :: 0 <= i < |bufs| ==> i in table[bufs[i].blockno % BUCKETS])
    && (forall k, i :: 0 <= k < BUCKETS && i in table[k] ==> i < |bufs|)
    && (forall i, j :: 0 <= i < j < |bufs| ==> bufs[i].blockno != bufs[j].blockno)
  }

  lemma {:induction false} FindInIs(bucket: seq<nat>, bufs: seq<Buf>, b: nat)
    ensures FindIn(bucket, bufs, b).None? ==> forall i :: i in bucket && i < |bufs| ==> bufs[i].blockno != b
    ensures FindIn(bucket, bufs, b).Some? ==> var i := FindIn(bucket, bufs, b).value; i in bucket && i < |bufs| && bufs[i].blockno == b
  {
    if bucket != [] { FindInIs(bucket[1..], bufs, b); }
  }

  /** hash_find finds the buffer of a block exactly when there is one. */
  lemma FindIs(table: seq<seq<nat>>, bufs: seq<Buf>, b: nat)
    requires TableOk(table, bufs)
    ensures Find(table, bufs, b).Some? <==> exists i :: 0 <= i < |bufs| && bufs[i].blockno == b
    ensures forall i :: 0 <= i < |bufs| && bufs[i].blockno == b ==> Find(table, bufs, b) == Some(i)
    ensures Find(table, bufs, b).Some? ==> Find(table, bufs, b).value < |bufs| && bufs[Find(table, bufs, b).value].blockno == b
  {
    FindInIs(table[b % BUCKETS], bufs, b);
  }

  /** Logical block `b` in terms of the buffers alone. */
  lemma LogicalIs(dev: seq<seq<Byte>>, bufs: seq<Buf>, table: seq<seq<nat>>, b: nat)
    requires TableOk(table, bufs) && b < |dev|
    ensures forall i :: 0 <= i < |bufs| && bufs[i].blockno == b ==> Logical(dev, bufs, table, b) == if bufs[i].isNew then dev[b] else bufs[i].page
    ensures (forall i :: 0 <= i < |bufs| ==> bufs[i].blockno != b) ==> Logical(dev, bufs, table, b) == dev[b]
  {
    FindIs(table, bufs, b);
  }

  /** Replacing a buffer without moving it keeps the table in order. */
  lemma TableKept(table: seq<seq<nat>>, bufs: seq<Buf>, id: nat, buf: Buf)
    requires TableOk(table, bufs) && id < |bufs| && buf.blockno == bufs[id].blockno
    ensures TableOk(table, bufs[id := buf])
  {
  }

  /** A change of one buffer or its device block changes at most that logical block. */
  lemma LogicalOne(dev: seq<seq<Byte>>, dev': seq<seq<Byte>>, bufs: seq<Buf>, bufs': seq<Buf>, table: seq<seq<nat>>, id: nat, buf: Buf, b: nat)
    requires TableOk(table, bufs) && TableOk(table, bufs') && id < |bufs| && b < |dev| == |dev'|
    requires bufs' == bufs[id := buf] && buf.blockno == bufs[id].blockno
    requires forall c :: 0 <= c < |dev| && c != bufs[id].blockno ==> dev'[c] == dev[c]
    ensures b != bufs[id].blockno ==> Logical(dev', bufs', table, b) == Logical(dev, bufs, table, b)
    ensures b == bufs[id].blockno ==> Logical(dev', bufs', table, b) == if buf.isNew then dev'[b] else buf.page
  {
    LogicalIs(dev, bufs, table, b);
    LogicalIs(dev', bufs', table, b);
    FindIs(table, bufs, b);
    FindIs(table, bufs', b);
  }

  // ---- the invariant ----

  predicate BlocksOk(dev: seq<seq<Byte>>, bufs: seq<Buf>, size: nat) {
    && size == |dev| * BLK
    && (forall b :: 0 <= b < |dev| ==> |dev[b]| == BLK)
    && (forall i :: 0 <= i < |bufs| ==> |bufs[i].page| == BLK && bufs[i].blockno < |dev|)
  }

  /** The cache and the device together stand for the bytes `cur`. */
  ghost predicate BytesOk(dev: seq<seq<Byte>>, bufs: seq<Buf>, table: seq<seq<nat>>, cur: seq<Byte>)
    requires BlocksOk(dev, bufs, |cur|) && |table| == BUCKETS
  {
    && (forall b :: 0 <= b < |dev| ==> |Logical(dev, bufs, table, b)| == BLK)
    && (forall a :: 0 <= a < |cur| ==> Logical(dev, bufs, table, a / BLK)[a % BLK] == cur[a])
  }

  predicate HasPin(ph: Phase) { ph.Pinned? || ph.Ready? || ph.Copied? }

  predicate WholeBlock(r: Req, p: Piece) { r.write && p.offset == 0 && p.len == BLK }

  /** How far the IO thread has come with the current request. */
  predicate ProgressOk(io: Io, r: Req, flat: seq<Byte>, cur: seq<Byte>)
    requires io.Busy?
  {
    && ReqOk(r, |flat|) && |cur| == |flat| && io.done <= r.len && io.rest == Split(r.addr + io.done, r.len - io.done)
    && cur == (if r.write then Splice(flat, r.addr, r.data[..io.done]) else flat)
    && io.out == (if r.write then [] else flat[r.addr..r.addr + io.done])
  }

  /** The buffer of the current piece. */
  predicate BufferOk(io: Io, r: Req, dev: seq<seq<Byte>>, bufs: seq<Buf>)
    requires io.Busy?
  {
    match io.phase
    case Head => true
    case Copied => io.id < |bufs|
    case _ =>
      && io.rest != [] && io.id < |bufs| && bufs[io.id].blockno == io.rest[0].blockno < |dev|
      && (io.phase.Ready? && bufs[io.id].isNew && !WholeBlock(r, io.rest[0]) ==> bufs[io.id].page == dev[bufs[io.id].blockno])
  }

  ghost predicate IoOk(st: State) {
    match st.io
    case Crashed => false
    case Busy(_, rid, _, _, _, _) =>
      rid in st.reqs && ProgressOk(st.io, st.reqs[rid], st.flat, st.cur) && BufferOk(st.io, st.reqs[rid], st.dev, st.bufs)
    case _ => st.cur == st.flat
  }

  predicate FlOk(fl: Fl, bufs: seq<Buf>) {
    fl.Idle? || (fl.id < |bufs| && !bufs[fl.id].isNew)
  }

  /** After the write-back, and as long as the buffer is pinned, its block is its page. */
  predicate WrittenOk(st: State) {
    st.fl.Written? ==>
      st.fl.id < |st.bufs| && st.bufs[st.fl.id].blockno < |st.dev| && st.dev[st.bufs[st.fl.id].blockno] == st.bufs[st.fl.id].page
  }

  /** The sleep lock of a buffer is held by whoever's program counter says so. */
  ghost predicate PinsOk(io: Io, fl: Fl, bufs: seq<Buf>) {
    forall i :: 0 <= i < |bufs| ==>
      && (bufs[i].pin == Some(IoThread) <==> io.Busy? && HasPin(io.phase) && io.id == i)
      && (bufs[i].pin == Some(FlushThread) <==> (fl.Holding? || fl.Written?) && fl.id == i)
  }

  function Current(io: Io): seq<Rid> {
    if io.Busy? then [io.rid] else []
  }

  /** The semaphore counts the queued requests, up to clients that have not signalled and
      an IO thread that has not dequeued. */
  predicate HandshakeOk(st: State) {
    |st.queue| == st.permits + |st.unsignalled| + (if st.io.Fetching? then 1 else 0)
  }

  ghost predicate ClientsOk(st: State) {
    && st.clients.Keys == st.reqs.Keys
    && (forall r :: r in st.unsignalled <==> r in st.clients && st.clients[r].Appended?)
    && (forall r :: r in st.woken ==> r in st.served)
    && (forall r :: r in st.clients && st.clients[r].Returned? ==> r in st.served)
  }

  /** A client whose request was served has returned or has its wake-up waiting for it. */
  ghost predicate WokenOk(st: State) {
    forall r :: r in st.served ==> r in st.clients && (st.clients[r].Returned? || r in st.woken)
  }

  /** Every request is appended once. */
  ghost predicate LogOnce(st: State) { NoDup(st.log) && forall r :: r in st.reqs ==> r in st.log }

  /** Requests are served in the order they were appended. */
  ghost predicate LogOk(st: State) {
    && st.log == st.served + Current(st.io) + st.queue
    && (forall i :: 0 <= i < |st.log| ==> st.log[i] in st.reqs && ReqOk(st.reqs[st.log[i]], |st.flat|))
  }

  /** The flat array after serving a list of requests. */
  function FlatAfter(flat: seq<Byte>, reqs: map<Rid, Req>, rids: seq<Rid>): (r: seq<Byte>)
    ensures |r| == |flat|
  {
    if rids == [] then flat
    else
      var before := FlatAfter(flat, reqs, rids[..|rids| - 1]);
      var last := rids[|rids| - 1];
      if last in reqs && ReqOk(reqs[last], |before|) then Apply(reqs[last], before) else before
  }

  /** Every answer given so far is the flat array's, at that request's place in the order. */
  ghost predicate AnswersOk(flat0: seq<Byte>, reqs: map<Rid, Req>, served: seq<Rid>, outs: seq<seq<Byte>>) {
    && |outs| == |served|
    && forall i :: 0 <= i < |served| ==> served[i] in reqs && ReqOk(reqs[served[i]], |flat0|) && outs[i] == Answer(reqs[served[i]], FlatAfter(flat0, reqs, served[..i]))
  }

  ghost predicate SpecOk(flat0: seq<Byte>, st: State) {
    st.flat == FlatAfter(flat0, st.reqs, st.served) && AnswersOk(flat0, st.reqs, st.served, st.outs)
  }

  ghost predicate CacheOk(st: State) {
    && BlocksOk(st.dev, st.bufs, |st.cur|) && |st.flat| == |st.cur| && TableOk(st.table, st.bufs)
    && BytesOk(st.dev, st.bufs, st.table, st.cur)
  }

  /** The part of the invariant that the two worker threads work on. */
  ghost predicate IoSide(st: State) {
    CacheOk(st) && IoOk(st) && PinsOk(st.io, st.fl, st.bufs) && FlOk(st.fl, st.bufs) && WrittenOk(st)
  }

  ghost predicate Inv(flat0: seq<Byte>, st: State) {
    CacheOk(st) && IoOk(st) && FlOk(st.fl, st.bufs) && PinsOk(st.io, st.fl, st.bufs) && WrittenOk(st) && HandshakeOk(st) && ClientsOk(st) && WokenOk(st) && LogOk(st) && LogOnce(st) && SpecOk(flat0, st)
  }

  // ---- steps that leave the cache alone ----

  lemma {:induction false} FlatAfterFrame(flat: seq<Byte>, reqs: map<Rid, Req>, rid: Rid, r: Req, rids: seq<Rid>)
    requires rid !in rids
    ensures FlatAfter(flat, reqs[rid := r], rids) == FlatAfter(flat, reqs, rids)
  {
    if rids != [] {
      assert rids[|rids| - 1] in rids;
      FlatAfterFrame(flat, reqs, rid, r, rids[..|rids| - 1]);
    }
  }

  lemma AppendSpec(flat0: seq<Byte>, st: State, rid: Rid, r: Req)
    requires SpecOk(flat0, st) && rid !in st.reqs
    ensures SpecOk(flat0, Append(st, rid, r))
  {
    var reqs := st.reqs[rid := r];
    assert rid !in st.served;
    FlatAfterFrame(flat0, st.reqs, rid, r, st.served);
    forall i | 0 <= i < |st.served| ensures st.outs[i] == Answer(reqs[st.served[i]], FlatAfter(flat0, reqs, st.served[..i])) {
      FlatAfterFrame(flat0, st.reqs, rid, r, st.served[..i]);
    }
  }

  lemma AppendInv(flat0: seq<Byte>, st: State, rid: Rid, r: Req)
    requires Inv(flat0, st) && Can(st, DoAppend(rid, r))
    ensures Inv(flat0, Append(st, rid, r))
  {
    hide BytesOk, TableOk, FlatAfter, AnswersOk, ProgressOk, BufferOk, PinsOk, WokenOk, LogOk, LogOnce;
    AppendSpec(flat0, st, rid, r);
    AppendLog(st, rid, r);
    AppendOnce(st, rid, r);
    assert rid !in st.unsignalled;
  }

  lemma AppendLog(st: State, rid: Rid, r: Req)
    requires LogOk(st) && Can(st, DoAppend(rid, r))
    ensures LogOk(Append(st, rid, r))
  {
    var st' := Append(st, rid, r);
    assert st'.log == st'.served + Current(st'.io) + st'.queue;
  }

  lemma AppendOnce(st: State, rid: Rid, r: Req)
    requires LogOk(st) && LogOnce(st) && WokenOk(st) && Can(st, DoAppend(rid, r))
    ensures LogOnce(Append(st, rid, r)) && WokenOk(Append(st, rid, r))
  {
    assert forall x :: x in st.served ==> x in st.log;
    assert rid !in st.log;
    assert forall x :: x in st.log + [rid] <==> x in st.log || x == rid;
  }

  lemma OnceKept(st: State, st': State)
    requires LogOnce(st) && st'.log == st.log && st'.reqs == st.reqs
    ensures LogOnce(st')
  {
  }

  lemma LogKept(st: State, st': State)
    requires LogOk(st) && st'.log == st.log && st'.served == st.served && st'.io == st.io && st'.queue == st.queue && st'.reqs == st.reqs && st'.flat == st.flat
    ensures LogOk(st')
  {
  }

  lemma WokenKept(st: State, st': State)
    requires WokenOk(st) && st'.served == st.served && st'.clients == st.clients && st'.woken == st.woken
    ensures WokenOk(st')
  {
  }

  /** The cache, the write-back thread and the pins are the same. */
  lemma PinsKept(st: State, st': State)
    requires PinsOk(st.io, st.fl, st.bufs) && WrittenOk(st) && st'.bufs == st.bufs && st'.fl == st.fl && st'.dev == st.dev
    requires st.io.Busy? && HasPin(st.io.phase) ==> st'.io == st.io
    requires st'.io.Busy? && HasPin(st'.io.phase) ==> st'.io == st.io
    ensures PinsOk(st'.io, st'.fl, st'.bufs) && WrittenOk(st')
  {
  }

  lemma SignalInv(flat0: seq<Byte>, st: State, rid: Rid)
    requires Inv(flat0, st) && Can(st, DoSignal(rid))
    ensures Inv(flat0, Signal(st, rid))
  {
    hide BytesOk, TableOk, FlatAfter, AnswersOk, ProgressOk, BufferOk, PinsOk, LogOk, LogOnce;
    LogKept(st, Signal(st, rid));
    OnceKept(st, Signal(st, rid));
  }

  lemma ReturnInv(flat0: seq<Byte>, st: State, rid: Rid)
    requires Inv(flat0, st) && Can(st, DoReturn(rid))
    ensures Inv(flat0, Return(st, rid))
  {
    hide BytesOk, TableOk, FlatAfter, AnswersOk, ProgressOk, BufferOk, PinsOk, LogOk, LogOnce;
    LogKept(st, Return(st, rid));
    OnceKept(st, Return(st, rid));
  }

  lemma IoWaitInv(flat0: seq<Byte>, st: State)
    requires Inv(flat0, st) && Can(st, IoWait)
    ensures Inv(flat0, Next(st, IoWait))
  {
    hide BytesOk, TableOk, FlatAfter, AnswersOk, WokenOk, LogOnce, PinsOk, WrittenOk;
    var st' := Next(st, IoWait);
    OnceKept(st, st');
    WokenKept(st, st');
    PinsKept(st, st');
  }

  /** get_next_rq finds a request. */
  lemma FetchFinds(st: State)
    requires LogOk(st) && HandshakeOk(st) && st.io.Fetching?
    ensures st.queue != [] && st.queue[0] in st.reqs && ReqOk(st.reqs[st.queue[0]], |st.flat|) && LogOk(Fetch(st))
  {
    hide Split, ReqOk;
    var rid, st' := st.queue[0], Fetch(st);
    assert st.log[|st.served|] == rid;
    assert st'.log == st'.served + Current(st'.io) + st'.queue;
  }

  lemma FetchProgress(st: State, r: Req)
    requires IoOk(st) && st.io.Fetching? && st.queue != [] && st.queue[0] in st.reqs && r == st.reqs[st.queue[0]] && ReqOk(r, |st.flat|) && |st.cur| == |st.flat|
    ensures ProgressOk(Fetch(st).io, r, st.flat, st.cur)
  {
    hide Split;
    assert r.write ==> Splice(st.flat, r.addr, r.data[..0]) == st.flat;
  }

  lemma FetchInv(flat0: seq<Byte>, st: State)
    requires Inv(flat0, st) && Can(st, IoFetch)
    ensures Inv(flat0, Fetch(st))
  {
    hide BytesOk, TableOk, BlocksOk, SpecOk, LogOk, WokenOk, LogOnce, PinsOk, WrittenOk, ProgressOk, Split, ReqOk;
    FetchFinds(st);
    var st' := Fetch(st);
    FetchProgress(st, st.reqs[st.queue[0]]);
    OnceKept(st, st');
    WokenKept(st, st');
    PinsKept(st, st');
    SpecKept(flat0, st, st');
    assert |st.cur| == |st.flat|;
  }

  lemma SpecKept(flat0: seq<Byte>, st: State, st': State)
    requires SpecOk(flat0, st) && st'.flat == st.flat && st'.reqs == st.reqs && st'.served == st.served && st'.outs == st.outs
    ensures SpecOk(flat0, st')
  {
    hide FlatAfter, AnswersOk;
  }

  lemma SplitEmpty(start: nat, len: nat)
    ensures Split(start, len) == [] <==> len == 0
  {
  }

  lemma FinishSpec(flat0: seq<Byte>, st: State)
    requires SpecOk(flat0, st) && Can(st, IoFinish) && st.io.out == Answer(st.reqs[st.io.rid], st.flat)
    ensures SpecOk(flat0, Finish(st))
  {
    var st' := Finish(st);
    assert st'.served[..|st'.served| - 1] == st.served;
    forall i | 0 <= i < |st'.served|
      ensures st'.served[i] in st.reqs && ReqOk(st.reqs[st'.served[i]], |flat0|)
              && st'.outs[i] == Answer(st.reqs[st'.served[i]], FlatAfter(flat0, st.reqs, st'.served[..i]))
    {
      if i < |st.served| { assert st'.served[..i] == st.served[..i]; }
    }
  }

  lemma FinishProgress(io: Io, r: Req, flat: seq<Byte>, cur: seq<Byte>)
    requires io.Busy? && ProgressOk(io, r, flat, cur) && io.rest == []
    ensures cur == Apply(r, flat) && io.out == Answer(r, flat)
  {
    SplitEmpty(r.addr + io.done, r.len - io.done);
    assert r.write ==> r.data[..io.done] == r.data;
  }

  lemma FinishCache(st: State)
    requires CacheOk(st) && Can(st, IoFinish)
    ensures CacheOk(Finish(st))
  {
  }

  lemma FinishLog(st: State)
    requires LogOk(st) && Can(st, IoFinish)
    ensures LogOk(Finish(st))
  {
    var st' := Finish(st);
    assert st'.log == st'.served + Current(st'.io) + st'.queue;
  }

  lemma FinishInv(flat0: seq<Byte>, st: State)
    requires Inv(flat0, st) && Can(st, IoFinish)
    ensures Inv(flat0, Finish(st))
  {
    hide CacheOk, SpecOk, LogOk, LogOnce, ProgressOk, Apply, Answer, BufferOk;
    FinishProgress(st.io, st.reqs[st.io.rid], st.flat, st.cur);
    FinishSpec(flat0, st);
    FinishLog(st);
    OnceKept(st, Finish(st));
    FinishCache(st);
  }

  // ---- steps of the IO thread on the cache ----

  /** What the clients see does not depend on the cache. */
  ghost predicate ClientSide(flat0: seq<Byte>, st: State) {
    HandshakeOk(st) && ClientsOk(st) && WokenOk(st) && LogOk(st) && LogOnce(st) && SpecOk(flat0, st)
  }

  ghost predicate CacheStep(st: State, st': State) {
    && st' == st.(dev := st'.dev, bufs := st'.bufs, table := st'.table, io := st'.io, fl := st'.fl, cur := st'.cur)
    && Current(st'.io) == Current(st.io) && st'.io.Fetching? == st.io.Fetching?
  }

  lemma ClientSideKept(flat0: seq<Byte>, st: State, st': State)
    requires ClientSide(flat0, st) && CacheStep(st, st')
    ensures ClientSide(flat0, st')
  {
    hide FlatAfter, AnswersOk, ReqOk;
  }

  /** The first piece of what remains. */
  lemma FirstPiece(io: Io, r: Req, flat: seq<Byte>, cur: seq<Byte>)
    requires io.Busy? && ProgressOk(io, r, flat, cur) && io.rest != []
    ensures var p := io.rest[0];
            && p.Start() == r.addr + io.done && 0 < p.len <= r.len - io.done && p.offset + p.len <= BLK
            && p.blockno == (r.addr + io.done) / BLK && p.offset == (r.addr + io.done) % BLK
            && io.rest[1..] == Split(r.addr + io.done + p.len, r.len - io.done - p.len)
  {
    SplitEmpty(r.addr + io.done, r.len - io.done);
    var start, len := r.addr + io.done, r.len - io.done;
    var room := BLK - start % BLK;
    var l := if len < room then len else room;
    assert Split(start, len) == [Piece(start / BLK, start % BLK, l)] + Split(start + l, len - l);
  }

  /** A freshly allocated buffer is new, so no logical block changes. */
  lemma GetNewTable(table: seq<seq<nat>>, bufs: seq<Buf>, buf: Buf)
    requires TableOk(table, bufs) && forall i :: 0 <= i < |bufs| ==> bufs[i].blockno != buf.blockno
    ensures TableOk(table[buf.blockno % BUCKETS := [|bufs|] + table[buf.blockno % BUCKETS]], bufs + [buf])
  {
  }

  lemma GetNewLogical(dev: seq<seq<Byte>>, bufs: seq<Buf>, table: seq<seq<nat>>, buf: Buf, b: nat)
    requires TableOk(table, bufs) && (forall i :: 0 <= i < |bufs| ==> bufs[i].blockno != buf.blockno) && buf.isNew && b < |dev|
    ensures var table' := table[buf.blockno % BUCKETS := [|bufs|] + table[buf.blockno % BUCKETS]];
            Logical(dev, bufs + [buf], table', b) == Logical(dev, bufs, table, b)
  {
    GetNewTable(table, bufs, buf);
    var table', bufs' := table[buf.blockno % BUCKETS := [|bufs|] + table[buf.blockno % BUCKETS]], bufs + [buf];
    LogicalIs(dev, bufs', table', b);
    LogicalIs(dev, bufs, table, b);
    FindIs(table, bufs, b);
    assert buf.blockno == b ==> bufs'[|bufs|].blockno == b;
    assert forall i :: 0 <= i < |bufs| ==> bufs'[i] == bufs[i];
  }

  lemma BytesSame(dev: seq<seq<Byte>>, bufs: seq<Buf>, table: seq<seq<nat>>, dev': seq<seq<Byte>>, bufs': seq<Buf>, table': seq<seq<nat>>, cur: seq<Byte>)
    requires BlocksOk(dev, bufs, |cur|) && BlocksOk(dev', bufs', |cur|) && |table| == |table'| == BUCKETS && |dev'| == |dev|
    requires BytesOk(dev, bufs, table, cur)
    requires forall b :: 0 <= b < |dev| ==> Logical(dev', bufs', table', b) == Logical(dev, bufs, table, b)
    ensures BytesOk(dev', bufs', table', cur)
  {
    forall a | 0 <= a < |cur| ensures Logical(dev', bufs', table', a / BLK)[a % BLK] == cur[a] {
      assert a / BLK < |dev|;
    }
  }

  lemma GetCache(st: State, b: nat)
    requires CacheOk(st) && Can(st, IoGet) && b == st.io.rest[0].blockno < |st.dev| && Find(st.table, st.bufs, b).None?
    ensures CacheOk(Get(st)) && |Get(st).bufs| == |st.bufs| + 1 && forall i :: 0 <= i < |st.bufs| ==> Get(st).bufs[i] == st.bufs[i]
  {
    FindIs(st.table, st.bufs, b);
    var st' := Get(st);
    var buf := st'.bufs[|st.bufs|];
    GetNewTable(st.table, st.bufs, buf);
    forall c | 0 <= c < |st.dev| ensures Logical(st'.dev, st'.bufs, st'.table, c) == Logical(st.dev, st.bufs, st.table, c) {
      GetNewLogical(st.dev, st.bufs, st.table, buf, c);
    }
    BytesSame(st.dev, st.bufs, st.table, st'.dev, st'.bufs, st'.table, st.cur);
  }

  /** Where the current piece lies on the device. */
  lemma PieceInRange(st: State)
    requires CacheOk(st) && IoOk(st) && st.io.Busy? && st.io.rest != []
    ensures st.io.rest[0].blockno < |st.dev|
  {
    FirstPiece(st.io, st.reqs[st.io.rid], st.flat, st.cur);
  }

  lemma CacheTable(st: State)
    requires CacheOk(st)
    ensures TableOk(st.table, st.bufs) && |st.table| == BUCKETS
  {
  }

  lemma GetCached(st: State, b: nat)
    requires CacheOk(st) && Can(st, IoGet) && b == st.io.rest[0].blockno && Find(st.table, st.bufs, b).Some?
    ensures CacheOk(Get(st))
  {
  }

  lemma GetIo(st: State)
    requires IoSide(st) && Can(st, IoGet)
    ensures IoSide(Next(st, IoGet))
  {
    hide CacheOk, TableOk, Find, Split, Splice, ProgressOk;
    PieceInRange(st);
    var b := st.io.rest[0].blockno;
    CacheTable(st);
    FindIs(st.table, st.bufs, b);
    if Find(st.table, st.bufs, b).None? { GetCache(st, b); } else { GetCached(st, b); }
    GetProgress(st);
  }

  lemma GetProgress(st: State)
    requires IoOk(st) && Can(st, IoGet)
    ensures ProgressOk(Get(st).io, st.reqs[st.io.rid], st.flat, Get(st).cur)
  {
    hide Find, Split, Splice, BufferOk;
  }

  lemma GetInv(flat0: seq<Byte>, st: State)
    requires Inv(flat0, st) && Can(st, IoGet)
    ensures Inv(flat0, Next(st, IoGet))
  {
    hide CacheOk, IoOk, PinsOk, FlOk, ClientsOk, WokenOk, LogOk, LogOnce, SpecOk, HandshakeOk;
    GetIo(st);
    ClientSideKept(flat0, st, Next(st, IoGet));
  }

  /** One buffer is replaced in place and the logical disk stays the same. */
  lemma CacheReplaced(st: State, st': State, id: nat, buf: Buf)
    requires CacheOk(st) && id < |st.bufs| && buf.blockno == st.bufs[id].blockno && |buf.page| == BLK
    requires st'.bufs == st.bufs[id := buf] && st'.table == st.table && st'.cur == st.cur && st'.flat == st.flat
    requires |st'.dev| == |st.dev| && |st'.dev[buf.blockno]| == BLK
    requires forall c :: 0 <= c < |st.dev| && c != buf.blockno ==> st'.dev[c] == st.dev[c]
    requires (if buf.isNew then st'.dev[buf.blockno] else buf.page) == Logical(st.dev, st.bufs, st.table, buf.blockno)
    ensures CacheOk(st')
  {
    TableKept(st.table, st.bufs, id, buf);
    forall b | 0 <= b < |st.dev| ensures Logical(st'.dev, st'.bufs, st'.table, b) == Logical(st.dev, st.bufs, st.table, b) {
      LogicalOne(st.dev, st'.dev, st.bufs, st'.bufs, st.table, id, buf, b);
    }
    BytesSame(st.dev, st.bufs, st.table, st'.dev, st'.bufs, st'.table, st.cur);
  }

  /** What a buffer holds against what its block is. */
  lemma BufferLogical(st: State, id: nat)
    requires CacheOk(st) && id < |st.bufs|
    ensures var buf := st.bufs[id];
            && buf.blockno < |st.dev| && |buf.page| == BLK && |st.dev[buf.blockno]| == BLK && |st.table| == BUCKETS
            && Logical(st.dev, st.bufs, st.table, buf.blockno) == if buf.isNew then st.dev[buf.blockno] else buf.page
  {
    LogicalIs(st.dev, st.bufs, st.table, st.bufs[id].blockno);
  }

  lemma PinInv(flat0: seq<Byte>, st: State)
    requires Inv(flat0, st) && Can(st, IoPin)
    ensures Inv(flat0, Next(st, IoPin))
  {
    hide CacheOk, ClientsOk, WokenOk, LogOk, LogOnce, SpecOk, HandshakeOk, Logical, Splice, Split;
    var st' := Next(st, IoPin);
    BufferLogical(st, st.io.id);
    CacheReplaced(st, st', st.io.id, st.bufs[st.io.id].(pin := Some(IoThread)));
    ClientSideKept(flat0, st, st');
  }

  lemma UnpinInv(flat0: seq<Byte>, st: State)
    requires Inv(flat0, st) && Can(st, IoUnpin)
    ensures Inv(flat0, Next(st, IoUnpin))
  {
    hide CacheOk, ClientsOk, WokenOk, LogOk, LogOnce, SpecOk, HandshakeOk, Logical, Splice, Split;
    var st' := Next(st, IoUnpin);
    BufferLogical(st, st.io.id);
    CacheReplaced(st, st', st.io.id, st.bufs[st.io.id].(pin := None));
    ClientSideKept(flat0, st, st');
  }

  lemma FillInv(flat0: seq<Byte>, st: State)
    requires Inv(flat0, st) && Can(st, IoFill)
    ensures Inv(flat0, Next(st, IoFill))
  {
    hide CacheOk, ClientsOk, WokenOk, LogOk, LogOnce, SpecOk, HandshakeOk, Logical, Splice, Split;
    var st' := Next(st, IoFill);
    BufferLogical(st, st.io.id);
    CacheReplaced(st, st', st.io.id, st'.bufs[st.io.id]);
    ClientSideKept(flat0, st, st');
  }

  // ---- the copy step ----

  lemma SpliceAt(s: seq<Byte>, at: nat, d: seq<Byte>, k: nat)
    requires at + |d| <= |s| && k < |s|
    ensures |Splice(s, at, d)| == |s|
    ensures Splice(s, at, d)[k] == if at <= k < at + |d| then d[k - at] else s[k]
  {
  }

  lemma SpliceSplice(s: seq<Byte>, at: nat, d: seq<Byte>, e: seq<Byte>)
    requires at + |d| + |e| <= |s|
    ensures |Splice(s, at, d)| == |s| && Splice(Splice(s, at, d), at + |d|, e) == Splice(s, at, d + e)
  {
  }

  /** Two views of one byte of a block: in the page and on the flat disk. */
  lemma WriteByte(l: seq<Byte>, page: seq<Byte>, cur: seq<Byte>, chunk: seq<Byte>, b: nat, off: nat, a: nat)
    requires |l| == BLK == |page| && off + |chunk| <= BLK && a < |cur| && b * BLK + off + |chunk| <= |cur|
    requires a / BLK == b ==> l[a % BLK] == cur[a]
    requires forall k :: 0 <= k < BLK && !(off <= k < off + |chunk|) ==> page[k] == l[k]
    ensures |Splice(page, off, chunk)| == BLK && |Splice(cur, b * BLK + off, chunk)| == |cur|
    ensures Splice(cur, b * BLK + off, chunk)[a] == if a / BLK == b then Splice(page, off, chunk)[a % BLK] else cur[a]
  {
    SpliceAt(cur, b * BLK + off, chunk, a);
    SpliceAt(page, off, chunk, a % BLK);
  }

  /** The page the copy works on holds the block's bytes, except those about to be replaced. */
  lemma PageIsBlock(st: State)
    requires CacheOk(st) && IoOk(st) && Can(st, IoCopy)
    ensures var p, buf := st.io.rest[0], st.bufs[st.io.id];
            && buf.blockno == p.blockno < |st.dev| && |buf.page| == BLK && |st.table| == BUCKETS
            && |Logical(st.dev, st.bufs, st.table, buf.blockno)| == BLK
            && (buf.isNew && !WholeBlock(st.reqs[st.io.rid], p) ==> buf.page == Logical(st.dev, st.bufs, st.table, buf.blockno))
            && forall k :: 0 <= k < BLK && !(p.offset <= k < p.offset + p.len) ==>
                 buf.page[k] == Logical(st.dev, st.bufs, st.table, buf.blockno)[k]
  {
    hide ProgressOk, TableOk, Logical;
    BufferLogical(st, st.io.id);
  }

  /** What a write piece does to the buffer and to the flat disk. */
  lemma CopyWriteShape(st: State) returns (chunk: seq<Byte>, buf: Buf)
    requires IoOk(st) && Can(st, IoCopy) && st.reqs[st.io.rid].write
    ensures var st', p := Copy(st), st.io.rest[0];
            && |chunk| == p.len && p.offset + p.len <= BLK && p.blockno * BLK + p.offset + p.len <= |st.cur|
            && buf.blockno == st.bufs[st.io.id].blockno && !buf.isNew && buf.pin == st.bufs[st.io.id].pin
            && p.offset + |chunk| <= |st.bufs[st.io.id].page| && buf.page == Splice(st.bufs[st.io.id].page, p.offset, chunk)
            && st'.bufs == st.bufs[st.io.id := buf] && st'.cur == Splice(st.cur, p.blockno * BLK + p.offset, chunk)
            && st'.dev == st.dev && st'.table == st.table && st'.flat == st.flat && st'.fl == st.fl
  {
    var p, r := st.io.rest[0], st.reqs[st.io.rid];
    FirstPiece(st.io, r, st.flat, st.cur);
    chunk := r.data[st.io.done..st.io.done + p.len];
    buf := Copy(st).bufs[st.io.id];
  }

  lemma CopyWriteByte(st: State, bufs: seq<Buf>, buf: Buf, chunk: seq<Byte>, a: nat)
    requires Can(st, IoCopy) && a < |st.cur|
    requires var p := st.io.rest[0];
             && |chunk| == p.len && p.offset + p.len <= BLK && p.blockno * BLK + p.offset + p.len <= |st.cur|
             && buf.blockno == st.bufs[st.io.id].blockno && !buf.isNew
             && p.offset + |chunk| <= |st.bufs[st.io.id].page| && buf.page == Splice(st.bufs[st.io.id].page, p.offset, chunk)
    requires bufs == st.bufs[st.io.id := buf] && TableOk(st.table, bufs)
    requires CacheOk(st) && IoOk(st)
    ensures a / BLK < |st.dev|
    ensures var l := Logical(st.dev, bufs, st.table, a / BLK);
            |l| == BLK && a < |Splice(st.cur, st.io.rest[0].blockno * BLK + st.io.rest[0].offset, chunk)|
            && l[a % BLK] == Splice(st.cur, st.io.rest[0].blockno * BLK + st.io.rest[0].offset, chunk)[a]
  {
    hide CacheOk, IoOk, TableOk, Logical, Splice;
    CacheTable(st);
    ByteFact(st, a);
    PageIsBlock(st);
    var p := st.io.rest[0];
    LogicalOne(st.dev, st.dev, st.bufs, bufs, st.table, st.io.id, buf, a / BLK);
    WriteByte(Logical(st.dev, st.bufs, st.table, buf.blockno), st.bufs[st.io.id].page, st.cur, chunk, p.blockno, p.offset, a);
  }

  lemma ByteFact(st: State, a: nat)
    requires CacheOk(st) && a < |st.cur|
    ensures a / BLK < |st.dev| && |st.table| == BUCKETS
    ensures |Logical(st.dev, st.bufs, st.table, a / BLK)| == BLK && Logical(st.dev, st.bufs, st.table, a / BLK)[a % BLK] == st.cur[a]
  {
  }

  lemma LogicalLength(dev: seq<seq<Byte>>, bufs: seq<Buf>, table: seq<seq<nat>>, size: nat, b: nat)
    requires BlocksOk(dev, bufs, size) && |table| == BUCKETS && b < |dev|
    ensures |Logical(dev, bufs, table, b)| == BLK
  {
  }

  lemma CopyWriteCache(st: State)
    requires CacheOk(st) && IoOk(st) && Can(st, IoCopy) && st.reqs[st.io.rid].write
    ensures CacheOk(Copy(st))
  {
    hide IoOk, Logical, Splice, Copy;
    var st' := Copy(st);
    var chunk, buf := CopyWriteShape(st);
    TableKept(st.table, st.bufs, st.io.id, buf);
    SpliceLength(st.cur, st.io.rest[0].blockno * BLK + st.io.rest[0].offset, chunk);
    SpliceLength(st.bufs[st.io.id].page, st.io.rest[0].offset, chunk);
    forall b | 0 <= b < |st'.dev| ensures |Logical(st'.dev, st'.bufs, st'.table, b)| == BLK {
      LogicalLength(st'.dev, st'.bufs, st'.table, |st'.cur|, b);
    }
    forall a | 0 <= a < |st'.cur| ensures Logical(st'.dev, st'.bufs, st'.table, a / BLK)[a % BLK] == st'.cur[a] {
      CopyWriteByte(st, st'.bufs, buf, chunk, a);
    }
  }

  lemma SpliceLength(s: seq<Byte>, at: nat, d: seq<Byte>)
    requires at + |d| <= |s|
    ensures |Splice(s, at, d)| == |s|
  {
  }

  /** The IO thread's bookkeeping after a write piece. */
  lemma ProgressWrite(io: Io, r: Req, flat: seq<Byte>, cur: seq<Byte>, io': Io)
    requires io.Busy? && ProgressOk(io, r, flat, cur) && io.rest != [] && r.write
    requires io' == io.(phase := Copied, rest := io.rest[1..], done := io.done + io.rest[0].len)
    ensures r.addr + io'.done <= |cur| && io'.done <= |r.data|
    ensures ProgressOk(io', r, flat, Splice(cur, r.addr + io.done, r.data[io.done..io'.done]))
  {
    hide Split;
    FirstPiece(io, r, flat, cur);
    var chunk := r.data[io.done..io'.done];
    assert r.data[..io.done] + chunk == r.data[..io'.done];
    SpliceSplice(flat, r.addr, r.data[..io.done], chunk);
  }

  lemma CopyWriteProgress(st: State)
    requires IoOk(st) && Can(st, IoCopy) && st.reqs[st.io.rid].write
    ensures ProgressOk(Copy(st).io, st.reqs[st.io.rid], st.flat, Copy(st).cur)
  {
    hide ProgressOk, Splice, BufferOk;
    ProgressWrite(st.io, st.reqs[st.io.rid], st.flat, st.cur, Copy(st).io);
  }

  lemma PieceFacts(st: State)
    requires IoOk(st) && Can(st, IoCopy)
    ensures var p, r := st.io.rest[0], st.reqs[st.io.rid];
            p.Start() == r.addr + st.io.done && p.Start() + p.len <= |st.cur| && p.offset + p.len <= BLK && p.offset < BLK
  {
    FirstPiece(st.io, st.reqs[st.io.rid], st.flat, st.cur);
  }

  /** The page of a read piece is the block. */
  lemma ReadPage(st: State)
    requires CacheOk(st) && IoOk(st) && Can(st, IoCopy) && !st.reqs[st.io.rid].write
    ensures var p, buf := st.io.rest[0], st.bufs[st.io.id];
            && buf.blockno == p.blockno < |st.dev| && |st.table| == BUCKETS && |buf.page| == BLK
            && buf.page == Logical(st.dev, st.bufs, st.table, buf.blockno)
  {
    hide CacheOk, ProgressOk, Logical;
    PageIsBlock(st);
    BufferLogical(st, st.io.id);
  }

  lemma ReadByte(st: State, k: nat)
    requires CacheOk(st) && IoOk(st) && Can(st, IoCopy) && !st.reqs[st.io.rid].write && k < st.io.rest[0].len
    ensures var p, buf := st.io.rest[0], st.bufs[st.io.id];
            p.Start() + k < |st.cur| && p.offset + k < |buf.page| && buf.page[p.offset + k] == st.cur[p.Start() + k]
  {
    hide CacheOk, IoOk, Logical;
    PieceFacts(st);
    ReadPage(st);
    var p := st.io.rest[0];
    assert (p.Start() + k) / BLK == p.blockno && (p.Start() + k) % BLK == p.offset + k;
    ByteFact(st, p.Start() + k);
  }

  /** A read piece is the flat disk's slice. */
  lemma CopyReadBytes(st: State)
    requires CacheOk(st) && IoOk(st) && Can(st, IoCopy) && !st.reqs[st.io.rid].write
    ensures var p, buf := st.io.rest[0], st.bufs[st.io.id];
            p.Start() + p.len <= |st.cur| && p.offset + p.len <= |buf.page|
            && buf.page[p.offset..p.offset + p.len] == st.cur[p.Start()..p.Start() + p.len]
  {
    hide CacheOk, IoOk, Piece.Start;
    PieceFacts(st);
    ReadPage(st);
    var p, buf := st.io.rest[0], st.bufs[st.io.id];
    var x, y := buf.page[p.offset..p.offset + p.len], st.cur[p.Start()..p.Start() + p.len];
    forall k | 0 <= k < p.len ensures x[k] == y[k] {
      ReadByte(st, k);
    }
  }

  /** The IO thread's bookkeeping after a read piece. */
  lemma ProgressRead(io: Io, r: Req, flat: seq<Byte>, cur: seq<Byte>, io': Io)
    requires io.Busy? && ProgressOk(io, r, flat, cur) && io.rest != [] && !r.write
    requires io.rest[0].Start() + io.rest[0].len <= |cur|
    requires io' == io.(phase := Copied, rest := io.rest[1..], done := io.done + io.rest[0].len,
                        out := io.out + cur[io.rest[0].Start()..io.rest[0].Start() + io.rest[0].len])
    ensures ProgressOk(io', r, flat, cur)
  {
    hide Split, Splice;
    FirstPiece(io, r, flat, cur);
    assert flat[r.addr..r.addr + io.done] + flat[r.addr + io.done..r.addr + io'.done] == flat[r.addr..r.addr + io'.done];
  }

  lemma CopyReadProgress(st: State)
    requires CacheOk(st) && IoOk(st) && Can(st, IoCopy) && !st.reqs[st.io.rid].write
    ensures ProgressOk(Copy(st).io, st.reqs[st.io.rid], st.flat, Copy(st).cur)
  {
    hide CacheOk, ProgressOk, BufferOk;
    CopyReadBytes(st);
    ProgressRead(st.io, st.reqs[st.io.rid], st.flat, st.cur, Copy(st).io);
  }

  lemma CopyReadCache(st: State)
    requires CacheOk(st) && IoOk(st) && Can(st, IoCopy) && !st.reqs[st.io.rid].write
    ensures CacheOk(Copy(st))
  {
    hide CacheOk, IoOk, Logical;
    ReadPage(st);
    BufferLogical(st, st.io.id);
    CacheReplaced(st, Copy(st), st.io.id, st.bufs[st.io.id].(isNew := false));
  }

  lemma CopyIo(st: State)
    requires IoSide(st) && Can(st, IoCopy)
    ensures IoSide(Next(st, IoCopy))
  {
    hide CacheOk, ProgressOk, Splice;
    if st.reqs[st.io.rid].write {
      CopyWriteCache(st);
      CopyWriteProgress(st);
    } else {
      CopyReadCache(st);
      CopyReadProgress(st);
    }
  }

  lemma CopyInv(flat0: seq<Byte>, st: State)
    requires Inv(flat0, st) && Can(st, IoCopy)
    ensures Inv(flat0, Next(st, IoCopy))
  {
    hide CacheOk, IoOk, PinsOk, FlOk, ClientsOk, WokenOk, LogOk, LogOnce, SpecOk, HandshakeOk, Splice;
    CopyIo(st);
    ClientSideKept(flat0, st, Next(st, IoCopy));
  }

  // ---- the write-back thread ----

  lemma FlPinInv(flat0: seq<Byte>, st: State)
    requires Inv(flat0, st) && Can(st, FlPin)
    ensures Inv(flat0, Next(st, FlPin))
  {
    hide CacheOk, ClientsOk, WokenOk, LogOk, LogOnce, SpecOk, HandshakeOk, Logical, Splice, Split;
    var st' := Next(st, FlPin);
    BufferLogical(st, st.fl.id);
    CacheReplaced(st, st', st.fl.id, st.bufs[st.fl.id].(pin := Some(FlushThread)));
    ClientSideKept(flat0, st, st');
  }

  /** A write-back stores the page the block already stands for. */
  lemma FlWriteInv(flat0: seq<Byte>, st: State)
    requires Inv(flat0, st) && Can(st, FlWrite)
    ensures Inv(flat0, Next(st, FlWrite))
  {
    hide CacheOk, ClientsOk, WokenOk, LogOk, LogOnce, SpecOk, HandshakeOk, Logical, Splice, Split;
    var st' := Next(st, FlWrite);
    BufferLogical(st, st.fl.id);
    assert st.bufs == st.bufs[st.fl.id := st.bufs[st.fl.id]];
    CacheReplaced(st, st', st.fl.id, st.bufs[st.fl.id]);
    ClientSideKept(flat0, st, st');
    OneBufferPerBlock(st);
  }

  /** The IO thread's buffer and the write-back thread's are different or unpinned by one. */
  lemma OneBufferPerBlock(st: State)
    requires CacheOk(st)
    ensures forall i, j :: 0 <= i < j < |st.bufs| ==> st.bufs[i].blockno != st.bufs[j].blockno
  {
  }

  lemma FlUnpinInv(flat0: seq<Byte>, st: State)
    requires Inv(flat0, st) && Can(st, FlUnpin)
    ensures Inv(flat0, Next(st, FlUnpin))
  {
    hide CacheOk, ClientsOk, WokenOk, LogOk, LogOnce, SpecOk, HandshakeOk, Logical, Splice, Split;
    var st' := Next(st, FlUnpin);
    BufferLogical(st, st.fl.id);
    CacheReplaced(st, st', st.fl.id, st.bufs[st.fl.id].(pin := None));
    ClientSideKept(flat0, st, st');
  }

  lemma FlClearInv(flat0: seq<Byte>, st: State)
    requires Inv(flat0, st) && Can(st, FlClear)
    ensures Inv(flat0, Next(st, FlClear))
  {
    hide CacheOk, ClientsOk, WokenOk, LogOk, LogOnce, SpecOk, HandshakeOk, Logical, Splice, Split;
    var st' := Next(st, FlClear);
    BufferLogical(st, st.fl.id);
    CacheReplaced(st, st', st.fl.id, st.bufs[st.fl.id].(dirty := false));
    ClientSideKept(flat0, st, st');
  }

  lemma FlPopInv(flat0: seq<Byte>, st: State, id: nat)
    requires Inv(flat0, st) && Can(st, FlPop(id))
    ensures Inv(flat0, Next(st, FlPop(id)))
  {
    hide BytesOk, TableOk, BlocksOk, ClientsOk, WokenOk, LogOk, LogOnce, SpecOk, HandshakeOk, Splice, Split;
    ClientSideKept(flat0, st, Next(st, FlPop(id)));
  }

  /** The invariant is inductive. */
  lemma StepInv(flat0: seq<Byte>, st: State, a: Act)
    requires Inv(flat0, st) && Can(st, a)
    ensures Inv(flat0, Next(st, a))
  {
    hide Inv;
    match a
    case DoAppend(rid, r) => AppendInv(flat0, st, rid, r);
    case DoSignal(rid) => SignalInv(flat0, st, rid);
    case DoReturn(rid) => ReturnInv(flat0, st, rid);
    case IoWait => IoWaitInv(flat0, st);
    case IoFetch => FetchInv(flat0, st);
    case IoFinish => FinishInv(flat0, st);
    case IoGet => GetInv(flat0, st);
    case IoPin => PinInv(flat0, st);
    case IoFill => FillInv(flat0, st);
    case IoCopy => CopyInv(flat0, st);
    case IoUnpin => UnpinInv(flat0, st);
    case FlPop(id) => FlPopInv(flat0, st, id);
    case FlPin => FlPinInv(flat0, st);
    case FlWrite => FlWriteInv(flat0, st);
    case FlUnpin => FlUnpinInv(flat0, st);
    case FlClear => FlClearInv(flat0, st);
  }
}
