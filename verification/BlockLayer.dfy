/** The write-back block cache: any number of clients, one IO thread (gen_start_io) and one
    write-back thread (flush_bhash) over a block device, as a transition system. */
module BlockLayer {
  import opened Basics
  import opened Bio

  const BUCKETS: nat := 32

  type Rid = nat

  datatype Who = IoThread | FlushThread

  /** struct buf_head: `isNew` is BH_New, `pin` the sleep lock. */
  datatype Buf = Buf(blockno: nat, page: seq<Byte>, isNew: bool, dirty: bool, pin: Option<Who>)

  /** One gen_read or gen_write; `addr` is blockno * 4096 + offset. */
  datatype Req = Req(write: bool, addr: nat, len: nat, data: seq<Byte>)

  /** A client between make_request and its return. */
  datatype Client = Appended | Signalled | Returned

  datatype Phase = Head | Got | Pinned | Ready | Copied

  datatype Io =
    | Waiting
    | Fetching
    | Crashed
    | Busy(phase: Phase, rid: Rid, rest: seq<Piece>, done: nat, out: seq<Byte>, id: nat)

  /** flush_bhash with one buffer: popped, pinned, written, and unpinned with its flag still to
      be cleared. */
  datatype Fl = Idle | Popped(id: nat) | Holding(id: nat) | Written(id: nat) | Unpinned(id: nat)

  /** `log`, `served`, `outs`, `flat` and `cur` are history: the order of appends, the
      requests completed so far with their answers, the simple disk they describe, and
      the bytes the cache and the device stand for right now. */
  datatype State = State(
    dev: seq<seq<Byte>>, bufs: seq<Buf>, table: seq<seq<nat>>,
    io: Io, fl: Fl,
    reqs: map<Rid, Req>, clients: map<Rid, Client>, woken: set<Rid>,
    queue: seq<Rid>, permits: nat, unsignalled: set<Rid>,
    log: seq<Rid>, served: seq<Rid>, outs: seq<seq<Byte>>, flat: seq<Byte>, cur: seq<Byte>)

  // ---- the simple specification: one flat byte array ----

  predicate ReqOk(r: Req, size: nat) {
    r.addr + r.len <= size && (r.write ==> |r.data| == r.len)
  }

  function Apply(r: Req, flat: seq<Byte>): (out: seq<Byte>)
    requires ReqOk(r, |flat|)
    ensures |out| == |flat|
  {
    if r.write then Splice(flat, r.addr, r.data) else flat
  }

  function Answer(r: Req, flat: seq<Byte>): seq<Byte>
    requires ReqOk(r, |flat|)
  {
    if r.write then [] else flat[r.addr..r.addr + r.len]
  }

  // ---- the cache: a hash table of buffers (hash_find, bhash_find) ----

  function FindIn(bucket: seq<nat>, bufs: seq<Buf>, b: nat): Option<nat> {
    if bucket == [] then None
    else if bucket[0] < |bufs| && bufs[bucket[0]].blockno == b then Some(bucket[0])
    else FindIn(bucket[1..], bufs, b)
  }

  function Find(table: seq<seq<nat>>, bufs: seq<Buf>, b: nat): Option<nat>
    requires |table| == BUCKETS
  {
    FindIn(table[b % BUCKETS], bufs, b)
  }

  /** The search loop of hash_find. */
  method BhashFind(table: seq<seq<nat>>, bufs: seq<Buf>, b: nat) returns (r: Option<nat>)
    requires |table| == BUCKETS
    ensures r == Find(table, bufs, b)
    ensures r.Some? ==> r.value in table[b % BUCKETS] && r.value < |bufs| && bufs[r.value].blockno == b
    ensures r.None? ==> forall id :: id in table[b % BUCKETS] && id < |bufs| ==> bufs[id].blockno != b
  {
    var bucket := table[b % BUCKETS];
    var i := 0;
    assert bucket[0..] == bucket;
    while i < |bucket|
      invariant i <= |bucket| && FindIn(bucket, bufs, b) == FindIn(bucket[i..], bufs, b)
      invariant forall k :: 0 <= k < i && bucket[k] < |bufs| ==> bufs[bucket[k]].blockno != b
    {
      if bucket[i] < |bufs| && bufs[bucket[i]].blockno == b { return Some(bucket[i]); }
      assert bucket[i..][1..] == bucket[i + 1..];
      i := i + 1;
    }
    r := None;
  }

  /** Block `b` as a reader would see it: the page of a buffer in use, else the device. */
  function Logical(dev: seq<seq<Byte>>, bufs: seq<Buf>, table: seq<seq<nat>>, b: nat): seq<Byte>
    requires b < |dev| && |table| == BUCKETS
  {
    match Find(table, bufs, b)
    case Some(id) => if id < |bufs| && !bufs[id].isNew then bufs[id].page else dev[b]
    case None => dev[b]
  }

  // ---- requests ----

  /** On a device of at most 2^32 bytes nothing overflows for a request inside it. */
  lemma RequestFits(size: nat, blockno: nat, offset: nat, len: nat)
    requires 0 < len && blockno * BLK + offset + len <= size <= TWO32
    ensures Fits(blockno, offset, len)
  {
    assert blockno + (offset + len - 1) / BLK == (blockno * BLK + offset + len - 1) / BLK;
  }

  /** make_request: the chain of a request inside the device is the split of its range. */
  method MakeRequest(blockno: U32, offset: U32, len: U32, size: nat) returns (chain: seq<Piece>)
    requires size <= TWO32 && blockno * BLK + offset + len <= size
    ensures chain == Split(blockno * BLK + offset, len)
  {
    if len > 0 { RequestFits(size, blockno, offset, len); }
    chain := BioListMake(blockno, offset, len);
  }

  // ---- steps of the clients ----

  /** make_request and rq_append */
  function Append(st: State, rid: Rid, r: Req): State
  {
    st.(reqs := st.reqs[rid := r], clients := st.clients[rid := Appended], queue := st.queue + [rid],
        unsignalled := st.unsignalled + {rid}, log := st.log + [rid])
  }

  /** sem_signal(&gd->queue.sem) */
  function Signal(st: State, rid: Rid): State {
    st.(clients := st.clients[rid := Signalled], permits := st.permits + 1, unsignalled := st.unsignalled - {rid})
  }

  /** sleep_on(&rq->lock) returns */
  function Return(st: State, rid: Rid): State {
    st.(clients := st.clients[rid := Returned], woken := st.woken - {rid})
  }

  // ---- steps of the IO thread ----

  /** get_next_rq; an empty queue would be a NULL dereference */
  function Fetch(st: State): State {
    if st.queue == [] || st.queue[0] !in st.reqs then st.(io := Crashed)
    else
      var rid := st.queue[0];
      st.(queue := st.queue[1..], io := Busy(Head, rid, Split(st.reqs[rid].addr, st.reqs[rid].len), 0, [], 0))
  }

  /** The chain is done: wake the client. */
  function Finish(st: State): State
    requires st.io.Busy? && st.io.rid in st.reqs && ReqOk(st.reqs[st.io.rid], |st.flat|)
  {
    st.(io := Waiting, woken := st.woken + {st.io.rid}, served := st.served + [st.io.rid],
        outs := st.outs + [st.io.out], flat := Apply(st.reqs[st.io.rid], st.flat))
  }

  /** buf_get: the cached buffer, or a new one at the head of its bucket */
  function Get(st: State): State
    requires st.io.Busy? && st.io.rest != [] && |st.table| == BUCKETS
  {
    var b := st.io.rest[0].blockno;
    match Find(st.table, st.bufs, b)
    case Some(id) => st.(io := st.io.(phase := Got, id := id))
    case None =>
      var id := |st.bufs|;
      st.(bufs := st.bufs + [Buf(b, seq(BLK, (i: nat) => 0 as Byte), true, false, None)],
          table := st.table[b % BUCKETS := [id] + st.table[b % BUCKETS]],
          io := st.io.(phase := Got, id := id))
  }

  function SetPin(st: State, id: nat, w: Option<Who>): seq<Buf>
    requires id < |st.bufs|
  {
    st.bufs[id := st.bufs[id].(pin := w)]
  }

  /** Read the block in unless it is cached or about to be overwritten completely. */
  function Fill(st: State): State
    requires st.io.Busy? && st.io.rest != [] && st.io.id < |st.bufs| && st.io.rid in st.reqs && st.bufs[st.io.id].blockno < |st.dev|
  {
    var p, buf := st.io.rest[0], st.bufs[st.io.id];
    var whole := st.reqs[st.io.rid].write && p.offset == 0 && p.len == BLK;
    st.(io := st.io.(phase := Ready),
        bufs := if buf.isNew && !whole then st.bufs[st.io.id := buf.(page := st.dev[buf.blockno])] else st.bufs)
  }

  /** memcpy between page and client, then buf_release */
  function Copy(st: State): State
    requires st.io.Busy? && st.io.rest != [] && st.io.id < |st.bufs| && st.io.rid in st.reqs
    requires st.io.rest[0].offset + st.io.rest[0].len <= |st.bufs[st.io.id].page|
    requires var r := st.reqs[st.io.rid];
             r.write ==> st.io.done + st.io.rest[0].len <= |r.data| && r.addr + st.io.done + st.io.rest[0].len <= |st.cur|
  {
    var p, buf, r := st.io.rest[0], st.bufs[st.io.id], st.reqs[st.io.rid];
    var io := st.io.(phase := Copied, rest := st.io.rest[1..], done := st.io.done + p.len);
    if r.write then
      var chunk := r.data[st.io.done..st.io.done + p.len];
      st.(bufs := st.bufs[st.io.id := buf.(page := Splice(buf.page, p.offset, chunk), isNew := false, dirty := true)],
          io := io, cur := Splice(st.cur, r.addr + st.io.done, chunk))
    else
      st.(bufs := st.bufs[st.io.id := buf.(isNew := false)],
          io := io.(out := st.io.out + buf.page[p.offset..p.offset + p.len]))
  }

  // ---- what can happen next ----

  datatype Act =
    | DoAppend(rid: Rid, r: Req) | DoSignal(rid: Rid) | DoReturn(rid: Rid)
    | IoWait | IoFetch | IoFinish | IoGet | IoPin | IoFill | IoCopy | IoUnpin
    | FlPop(id: nat) | FlPin | FlWrite | FlUnpin | FlClear

  predicate IoAt(st: State, ph: Phase) {
    st.io.Busy? && st.io.phase == ph
  }

  /** The current piece is being transferred through buffer `st.io.id`. */
  predicate IoHas(st: State, ph: Phase) {
    IoAt(st, ph) && st.io.rest != [] && st.io.id < |st.bufs| && st.io.rid in st.reqs
  }

  predicate Can(st: State, a: Act) {
    match a
    case DoAppend(rid, r) => rid !in st.reqs && ReqOk(r, |st.flat|)
    case DoSignal(rid) => rid in st.clients && st.clients[rid].Appended?
    case DoReturn(rid) => rid in st.clients && st.clients[rid].Signalled? && rid in st.woken
    case IoWait => st.io.Waiting? && st.permits > 0
    case IoFetch => st.io.Fetching?
    case IoFinish => IoAt(st, Head) && st.io.rest == [] && st.io.rid in st.reqs && ReqOk(st.reqs[st.io.rid], |st.flat|)
    case IoGet => IoAt(st, Head) && st.io.rest != [] && st.io.rest[0].len > 0 && |st.table| == BUCKETS
    case IoPin => IoHas(st, Got) && st.bufs[st.io.id].pin.None?
    case IoFill => IoHas(st, Pinned) && st.bufs[st.io.id].blockno < |st.dev|
    case IoCopy =>
      && IoHas(st, Ready) && st.io.rest[0].offset + st.io.rest[0].len <= |st.bufs[st.io.id].page|
      && var r := st.reqs[st.io.rid];
         r.write ==> st.io.done + st.io.rest[0].len <= |r.data| && r.addr + st.io.done + st.io.rest[0].len <= |st.cur|
    case IoUnpin => IoAt(st, Copied) && st.io.id < |st.bufs|
    case FlPop(id) => st.fl.Idle? && id < |st.bufs| && !st.bufs[id].isNew
    case FlPin => st.fl.Popped? && st.fl.id < |st.bufs| && st.bufs[st.fl.id].pin.None?
    case FlWrite => st.fl.Holding? && st.fl.id < |st.bufs| && st.bufs[st.fl.id].blockno < |st.dev|
    case FlUnpin => st.fl.Written? && st.fl.id < |st.bufs|
    case FlClear => st.fl.Unpinned? && st.fl.id < |st.bufs|
  }

  function Next(st: State, a: Act): State
    requires Can(st, a)
  {
    match a
    case DoAppend(rid, r) => Append(st, rid, r)
    case DoSignal(rid) => Signal(st, rid)
    case DoReturn(rid) => Return(st, rid)
    case IoWait => st.(io := Fetching, permits := st.permits - 1)
    case IoFetch => Fetch(st)
    case IoFinish => Finish(st)
    case IoGet => Get(st)
    case IoPin => st.(bufs := SetPin(st, st.io.id, Some(IoThread)), io := st.io.(phase := Pinned))
    case IoFill => Fill(st)
    case IoCopy => Copy(st)
    case IoUnpin => st.(bufs := SetPin(st, st.io.id, None), io := st.io.(phase := Head))
    case FlPop(id) => st.(fl := Popped(id))
    case FlPin => st.(bufs := SetPin(st, st.fl.id, Some(FlushThread)), fl := Holding(st.fl.id))
    case FlWrite =>
      var buf := st.bufs[st.fl.id];
      st.(dev := st.dev[buf.blockno := buf.page], fl := Written(st.fl.id))
    case FlUnpin => st.(bufs := SetPin(st, st.fl.id, None), fl := Unpinned(st.fl.id))
    case FlClear => st.(bufs := st.bufs[st.fl.id := st.bufs[st.fl.id].(dirty := false)], fl := Idle)
  }
}
