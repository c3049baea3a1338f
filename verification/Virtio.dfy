/** virtio_disk_rw, the device and virtio_disk_intr as one transition system. */
module Virtio {
  import opened Basics
  import opened VirtioDesc

  type Data = seq<int>

  /** One call of virtio_disk_rw. */
  datatype Req = Req(client: nat, write: bool, bno: nat, page: nat)

  /** struct virtio_blk_req */
  datatype Op = Op(write: bool, sector: nat)

  /** bio->b_blockno * (PGSIZE / SECTOR_SIZE), a 32-bit product. */
  function Sector(bno: nat): nat { 8 * bno % TWO32 }

  /** Where the caller that holds disk.mutex stands. */
  datatype Drv = Out | Locked(r: Req) | Ready(r: Req, idx: seq<nat>) | Formatted(r: Req, idx: seq<nat>)
               | Ringed(r: Req, idx: seq<nat>) | Published(r: Req, idx: seq<nat>) | Awake(r: Req, idx: seq<nat>) | Freed(r: Req)

  datatype Dev = DevIdle | Got(head: nat) | Served(head: nat) | Posted

  datatype Hdl = HIdle | Check | Read(id: nat) | Woken

  /** Driver, device and handler.  The last five fields are history: the requests published
      so far, how many of them were taken, posted and woken, how many sleeps returned, and
      the disk and page as they were when the mutex was taken. */
  datatype State = State(
    drv: Drv, dev: Dev, hdl: Hdl,
    table: Table, ops: seq<Op>, status: seq<nat>,
    availRing: seq<nat>, availIdx: nat, lastAvail: nat, usedRing: seq<nat>, usedIdx: nat, seen: nat,
    intr: nat, pending: bool, blocks: seq<Data>, mem: map<nat, Data>, broken: bool,
    published: seq<Req>, taken: nat, posted: nat, woken: nat, slept: nat, blocks0: seq<Data>, page0: Data)

  predicate Shape(s: State) {
    |s.ops| == NUM && |s.status| == NUM && |s.availRing| == NUM && |s.usedRing| == NUM && s.table.Shape()
  }

  ghost predicate Init(s: State) {
    && s.drv == Out && s.dev == DevIdle && s.hdl == HIdle && Shape(s) && s.table.AllFree()
    && s.availIdx == s.lastAvail == s.usedIdx == s.seen == s.intr == 0 && !s.pending && !s.broken
    && s.published == [] && s.taken == s.posted == s.woken == s.slept == 0 && |s.blocks| <= TWO32 / 8
  }

  // ---- the driver ----

  /** The three descriptors of a request. */
  function Chained(t: Table, r: Req, idx: seq<nat>): Table
    requires t.Shape() && |idx| == 3 && forall k :: 0 <= k < 3 ==> idx[k] < NUM
  {
    t.(desc := t.desc[idx[0] := Desc(OpsAt(idx[0]), 16, F_NEXT, idx[1])]
                     [idx[1] := Desc(PageAt(r.page), 4096, if r.write then F_NEXT else F_NEXT + F_WRITE, idx[2])]
                     [idx[2] := Desc(StatusAt(idx[0]), 1, F_WRITE, 0)])
  }

  datatype Act = Lock(req: Req) | Alloc(ids: seq<nat>) | Format | Ring | Publish | Sleep | FreeChain(ids: seq<nat>) | Unlock
               | DevTake | DevServe | DevPost | DevRaise | HStart | HCheck | HWake | HNext
               | Other(page: nat, data: Data)

  predicate Busy(s: State, page: nat) { !s.drv.Out? && s.drv.r.page == page }

  predicate Idx(idx: seq<nat>) { |idx| == 3 && forall k :: 0 <= k < 3 ==> idx[k] < NUM }

  /** Whether an action can happen. */
  ghost predicate Can(s: State, a: Act)
    requires Shape(s)
  {
    match a
    case Lock(r) => s.drv.Out? && r.bno < |s.blocks| && r.page in s.mem
    case Alloc(ids) => s.drv.Locked? && FirstThree(s.table, ids)
    case Format => s.drv.Ready? && Idx(s.drv.idx)
    case Ring => s.drv.Formatted? && Idx(s.drv.idx)
    case Publish => s.drv.Ringed?
    case Sleep => s.drv.Published? && s.intr > 0
    case FreeChain(ids) => s.drv.Awake? && Idx(s.drv.idx) && IsChain(s.table, ids) && ids[0] == s.drv.idx[0]
    case Unlock => s.drv.Freed?
    case DevTake => s.dev.DevIdle? && s.lastAvail != s.availIdx
    case DevServe => s.dev.Got?
    case DevPost => s.dev.Served?
    case DevRaise => s.dev.Posted?
    case HStart => s.hdl.HIdle? && s.pending
    case HCheck => s.hdl.Check?
    case HWake => s.hdl.Read?
    case HNext => s.hdl.Woken?
    case Other(page, _) => page in s.mem && !Busy(s, page)
  }

  /** A transfer, as the device reads the chain; a malformed chain breaks the system. */
  function Serve(s: State, head: nat): (r: State)
    requires Shape(s)
    ensures Shape(r)
  {
    if head >= NUM then s.(broken := true)
    else
      var d0 := s.table.desc[head];
      if !HasNext(d0) || !d0.addr.OpsAt? || d0.addr.i >= NUM || d0.next >= NUM then s.(broken := true)
      else
        var d1 := s.table.desc[d0.next];
        if !HasNext(d1) || !d1.addr.PageAt? || d1.next >= NUM || d1.addr.page !in s.mem || d1.len != 4096 then s.(broken := true)
        else
          var d2, op := s.table.desc[d1.next], s.ops[d0.addr.i];
          var b := op.sector / 8;
          if HasNext(d2) || !d2.addr.StatusAt? || d2.addr.i >= NUM || b >= |s.blocks| then s.(broken := true)
          else if op.write != (d1.flags / 2 % 2 == 0) then s.(broken := true)
          else if op.write then s.(blocks := s.blocks[b := s.mem[d1.addr.page]], status := s.status[d2.addr.i := 0])
          else s.(mem := s.mem[d1.addr.page := s.blocks[b]], status := s.status[d2.addr.i := 0])
  }

  function Step(s: State, a: Act): (r: State)
    requires Shape(s) && Can(s, a)
  {
    match a
    case Lock(r) => s.(drv := Locked(r), blocks0 := s.blocks, page0 := s.mem[r.page])
    case Alloc(ids) => s.(drv := Ready(s.drv.r, ids), table := Take(Take(Take(s.table, ids[0]), ids[1]), ids[2]))
    case Format =>
      var (r, idx) := (s.drv.r, s.drv.idx);
      s.(drv := Formatted(r, idx), table := Chained(s.table, r, idx),
         ops := s.ops[idx[0] := Op(r.write, Sector(r.bno))], status := s.status[idx[0] := 0xff])
    case Ring => s.(drv := Ringed(s.drv.r, s.drv.idx), availRing := s.availRing[s.availIdx % NUM := s.drv.idx[0]])
    case Publish => s.(drv := Published(s.drv.r, s.drv.idx), availIdx := (s.availIdx + 1) % TWO16, published := s.published + [s.drv.r])
    case Sleep => s.(drv := Awake(s.drv.r, s.drv.idx), intr := s.intr - 1, slept := s.slept + 1)
    case FreeChain(ids) => s.(drv := Freed(s.drv.r), table := GiveAll(s.table, ids))
    case Unlock => s.(drv := Out)
    case DevTake => s.(dev := Got(s.availRing[s.lastAvail % NUM]), lastAvail := (s.lastAvail + 1) % TWO16, taken := s.taken + 1)
    case DevServe => Serve(s, s.dev.head).(dev := Served(s.dev.head))
    case DevPost => s.(dev := Posted, usedRing := s.usedRing[s.usedIdx % NUM := s.dev.head], usedIdx := (s.usedIdx + 1) % TWO16, posted := s.posted + 1)
    case DevRaise => s.(dev := DevIdle, pending := true)
    case HStart => s.(hdl := Check, pending := false)
    case HCheck => if s.seen != s.usedIdx then s.(hdl := Read(s.usedRing[s.seen % NUM])) else s.(hdl := HIdle)
    case HWake =>
      if s.hdl.id >= NUM || s.status[s.hdl.id] != 0 then s.(broken := true)
      else s.(hdl := Woken, intr := s.intr + 1, woken := s.woken + 1)
    case HNext => s.(hdl := Check, seen := (s.seen + 1) % TWO16)
    case Other(page, data) => s.(mem := s.mem[page := data])
  }

  ghost predicate IsRun(run: seq<State>, acts: seq<Act>) {
    && |run| == |acts| + 1 && Init(run[0])
    && forall k :: 0 <= k < |acts| ==> Shape(run[k]) && Can(run[k], acts[k]) && run[k + 1] == Step(run[k], acts[k])
  }

  // ---- the invariant ----

  /** The device has carried out the request in flight. */
  predicate Done(s: State) { s.drv.Published? && (s.dev.Served? || s.posted == |s.published|) }

  /** The handshake counters; the three 16-bit indices are their low bits. */
  ghost predicate Counts(s: State) {
    && s.slept <= s.woken <= s.posted <= s.taken <= |s.published| && s.intr == s.woken - s.slept
    && |s.published| == s.slept + (if s.drv.Published? then 1 else 0)
    && s.taken == s.posted + (if s.dev.Got? || s.dev.Served? then 1 else 0)
    && s.availIdx == |s.published| % TWO16 && s.lastAvail == s.taken % TWO16 && s.usedIdx == s.posted % TWO16
    && (s.hdl.Woken? ==> s.woken > 0) && s.seen == (s.woken - (if s.hdl.Woken? then 1 else 0)) % TWO16
    && (s.hdl.Read? ==> s.woken < s.posted)
    && (s.woken < s.posted && s.hdl.HIdle? && !s.dev.Posted? ==> s.pending)
  }

  predicate HasIdx(d: Drv) { d.Ready? || d.Formatted? || d.Ringed? || d.Published? || d.Awake? }

  ghost predicate Holds(t: Table, idx: seq<nat>) {
    && t.Shape() && Idx(idx) && idx[0] != idx[1] && idx[0] != idx[2] && idx[1] != idx[2]
    && forall i: nat :: i < NUM ==> t.free[i] == (i !in idx)
  }

  predicate ChainFor(s: State, r: Req, idx: seq<nat>)
    requires Shape(s) && Idx(idx)
  {
    && s.table.desc[idx[0]] == Desc(OpsAt(idx[0]), 16, F_NEXT, idx[1])
    && s.table.desc[idx[1]] == Desc(PageAt(r.page), 4096, if r.write then F_NEXT else F_NEXT + F_WRITE, idx[2])
    && s.table.desc[idx[2]] == Desc(StatusAt(idx[0]), 1, F_WRITE, 0)
    && s.ops[idx[0]] == Op(r.write, Sector(r.bno))
  }

  ghost predicate Descs(s: State)
    requires Shape(s)
  {
    && (HasIdx(s.drv) ==> Holds(s.table, s.drv.idx))
    && (!HasIdx(s.drv) ==> s.table.AllFree())
    && (HasIdx(s.drv) && !s.drv.Ready? ==> ChainFor(s, s.drv.r, s.drv.idx))
  }

  ghost predicate Rings(s: State)
    requires Shape(s) && (HasIdx(s.drv) ==> Idx(s.drv.idx))
  {
    && (s.drv.Ringed? ==> s.availRing[|s.published| % NUM] == s.drv.idx[0])
    && (s.drv.Published? && s.taken < |s.published| ==> s.availRing[s.taken % NUM] == s.drv.idx[0])
    && (s.drv.Published? && (s.dev.Got? || s.dev.Served?) ==> s.dev.head == s.drv.idx[0])
    && (s.drv.Published? && s.woken < s.posted ==> s.usedRing[s.woken % NUM] == s.drv.idx[0])
    && (s.drv.Published? && s.hdl.Read? ==> s.hdl.id == s.drv.idx[0])
    && (Done(s) ==> s.status[s.drv.idx[0]] == 0)
    && (s.drv.Published? || s.drv.Awake? || s.drv.Freed? ==> |s.published| > 0 && s.published[|s.published| - 1] == s.drv.r)
  }

  /** What the request does: one block or one page, nothing else. */
  predicate Moved(s: State, r: Req) {
    && r.bno < |s.blocks0| && r.page in s.mem
    && (r.write ==> s.blocks == s.blocks0[r.bno := s.page0] && s.mem[r.page] == s.page0)
    && (!r.write ==> s.blocks == s.blocks0 && s.mem[r.page] == s.blocks0[r.bno])
  }

  predicate Still(s: State, r: Req) {
    r.bno < |s.blocks0| && r.page in s.mem && s.blocks == s.blocks0 && s.mem[r.page] == s.page0
  }

  predicate Transfer(s: State) {
    && |s.blocks| <= TWO32 / 8
    && (!s.drv.Out? ==> if s.drv.Awake? || s.drv.Freed? || Done(s) then Moved(s, s.drv.r) else Still(s, s.drv.r))
  }

  ghost predicate Inv(s: State) {
    Shape(s) && !s.broken && Counts(s) && Descs(s) && Rings(s) && Transfer(s)
  }
}
