/** Runs of easyfs: reads, writes, creations, directory updates, unlinks and write-backs in
    any order. */
module EasyFsRuns {
  import opened Basics
  import B = Bitmap
  import opened EasyFs
  import opened EasyFsProofs
  import opened EasyFsFree
  import opened EasyFsWrites
  import opened InodeArea
  import opened EasyFsSync
  import opened EasyFsTheorems
  import opened DirRecords

  /** An entry of the dirty list: a live inode, or one that was unlinked and is still in
      memory with its block numbers. */
  datatype Item = Live(ino: nat) | Gone(ino: nat, nd: Inode)

  /** The file system, the first block of the inode area, the number of inode slots, the
      inode bitmap with its count, and the list of dirty inodes, the last marked first. */
  datatype World = World(fs: Fs, start: nat, slots: nat, inoMap: B.Value, inodeFree: int, dirty: seq<Item>)

  /** `ReadOp` is the lookup of one block, `SizeOp` the change of a directory's size by
      efs_d_creat and efs_d_unlink, `UpdateOp` efs_d_update with the children `cs`, `RefOp`
      efs_i_dup or efs_i_put, and `SyncOp` one round of efs_sync over the dirty inodes. */
  datatype Op =
    | WriteOp(ino: nat, off: nat, data: seq<Byte>)
    | ReadOp(ino: nat, l: nat)
    | NewOp(ino: nat, dev: nat)
    | TypeOp(ino: nat, kind: nat)
    | SizeOp(ino: nat, n: nat)
    | UpdateOp(ino: nat, cs: seq<Dirent>)
    | RefOp(ino: nat, up: bool)
    | UnlinkOp(ino: nat)
    | SyncOp

  // ---- the specification: a map of byte sequences, a map of directories ----

  datatype File = File(data: seq<Byte>, links: int, refs: int)

  ghost function FileOf(fs: Fs, i: nat): File
    requires i in fs.inodes
  {
    File(Contents(fs, i), fs.inodes[i].nlink, fs.inodes[i].refcnt)
  }

  predicate Regular(fs: Fs, i: nat) { i in fs.inodes && fs.inodes[i].kind != F_DIR }

  /** All files that are no directories. */
  ghost function Files(fs: Fs): map<nat, File> { map i | i in fs.inodes && Regular(fs, i) :: FileOf(fs, i) }

  ghost function Apply(files: map<nat, File>, op: Op): map<nat, File> {
    match op
    case WriteOp(i, off, data) =>
      if i in files && off <= |files[i].data| && off + |data| <= MAXFILE * BLOCK
      then files[i := files[i].(data := Overwrite(files[i].data, off, data))] else files
    case NewOp(i, _) => files[i := File([], 1, 0)]
    case TypeOp(i, kind) => if kind == F_DIR then files - {i} else files
    case RefOp(i, up) =>
      if i !in files then files
      else if up then files[i := files[i].(refs := files[i].refs + 1)]
      else files[i := files[i].(refs := files[i].refs - 1)]
    case UnlinkOp(i) =>
      if i !in files || i <= 1 || (files[i].links == 1 && files[i].refs > 0) then files
      else if files[i].links == 1 then files - {i}
      else files[i := files[i].(links := files[i].links - 1)]
    case _ => files
  }

  ghost function ApplyAll(files: map<nat, File>, ops: seq<Op>): map<nat, File> {
    if ops == [] then files else Apply(ApplyAll(files, ops[..|ops| - 1]), ops[|ops| - 1])
  }

  /** The children each directory was last stored with. */
  function Relist(dirs: map<nat, seq<Dirent>>, op: Op): map<nat, seq<Dirent>> {
    match op
    case UpdateOp(i, cs) => if DIRENT * |cs| <= MAXFILE * BLOCK then dirs[i := cs] else dirs - {i}
    case NewOp(i, _) => dirs - {i}
    case _ => dirs
  }

  function RelistAll(dirs: map<nat, seq<Dirent>>, ops: seq<Op>): map<nat, seq<Dirent>> {
    if ops == [] then dirs else Relist(RelistAll(dirs, ops[..|ops| - 1]), ops[|ops| - 1])
  }

  /** What the files of the live directories hold. */
  ghost predicate Holds(fs: Fs, dirs: map<nat, seq<Dirent>>) {
    forall i :: i in dirs && i in fs.inodes ==>
      fs.inodes[i].kind == F_DIR && DIRENT * |dirs[i]| <= BLOCK * fs.inodes[i].mapped && Records(fs, i, dirs[i])
  }

  // ---- the dirty list ----

  /** efs_i_sdirty */
  function Mark(dirty: seq<Item>, i: nat): seq<Item> { if Live(i) in dirty then dirty else [Live(i)] + dirty }

  /** efs_i_sdirty of an inode that is no longer live: its entry, or a new one. */
  function Bury(dirty: seq<Item>, i: nat, nd: Inode): seq<Item> {
    if Live(i) in dirty then seq(|dirty|, k requires 0 <= k < |dirty| => if dirty[k] == Live(i) then Gone(i, nd) else dirty[k])
    else [Gone(i, nd)] + dirty
  }

  lemma BuryIs(dirty: seq<Item>, i: nat, nd: Inode)
    ensures Gone(i, nd) in Bury(dirty, i, nd) && Live(i) !in Bury(dirty, i, nd)
    ensures forall it :: it in Bury(dirty, i, nd) ==> it in dirty || it == Gone(i, nd)
    ensures forall it :: it in dirty && it != Live(i) ==> it in Bury(dirty, i, nd)
  {
    var r := Bury(dirty, i, nd);
    if Live(i) in dirty {
      var k :| 0 <= k < |dirty| && dirty[k] == Live(i);
      assert r[k] == Gone(i, nd);
      forall it | it in dirty && it != Live(i) ensures it in r {
        var m :| 0 <= m < |dirty| && dirty[m] == it;
        assert r[m] == it;
      }
    } else {
      assert r[0] == Gone(i, nd);
    }
  }

  lemma BuryMark(dirty: seq<Item>, i: nat, nd: Inode)
    ensures Bury(Mark(dirty, i), i, nd) == Bury(dirty, i, nd)
  {
    if Live(i) !in dirty {
      forall k | 0 <= k < |dirty| ensures dirty[k] != Live(i) { assert dirty[k] in dirty; }
    }
  }

  // ---- the operations ----

  /** The change of a reference count. */
  function Count(up: bool): int { if up then 1 else -1 }

  /** What an operation needs to be defined at all; it holds in every consistent world. */
  predicate Defined(w: World, op: Op) {
    match op
    case WriteOp(i, _, _) => Ready(w.fs, i)
    case ReadOp(i, _) => Ready(w.fs, i)
    case NewOp(_, _) => w.inoMap.Safe()
    case TypeOp(i, _) => i in w.fs.inodes
    case SizeOp(i, _) => i in w.fs.inodes
    case UpdateOp(i, _) => Ready(w.fs, i)
    case RefOp(i, _) => i in w.fs.inodes
    case UnlinkOp(i) => Ready(w.fs, i) && w.fs.inodes[i].mapped <= MAXFILE && w.inoMap.Safe()
    case SyncOp => w.dirty != [] && Blocks(w.fs.disk) && Writable(w.fs, w.dirty[0])
  }

  predicate Writable(fs: Fs, it: Item) {
    match it
    case Live(i) => i in fs.inodes && InodeShape(fs.inodes[i])
    case Gone(_, nd) => InodeShape(nd)
  }

  /** The inode that efs_sync writes for a list entry. */
  function NodeOf(fs: Fs, it: Item): (nd: Inode)
    requires Writable(fs, it)
    ensures InodeShape(nd)
  {
    match it case Live(i) => fs.inodes[i] case Gone(_, nd) => nd
  }

  function Do(w: World, op: Op): World
    requires Defined(w, op)
  {
    match op
    case WriteOp(i, off, data) =>
      var (fs, o) := WriteAll(w.fs, i, off, data);
      w.(fs := fs, dirty := if o == Stopped || o == Returned(-1) then w.dirty else Mark(w.dirty, i))
    case ReadOp(i, l) => w.(fs := Bmap(w.fs, i, l, false).0)
    case NewOp(i, dev) =>
      w.(fs := SetInode(w.fs, i, EmptyInode(0, dev)), inoMap := B.Alloc(w.inoMap).1, inodeFree := w.inodeFree - 1, dirty := Mark(w.dirty, i))
    case TypeOp(i, kind) => w.(fs := SetInode(w.fs, i, w.fs.inodes[i].(kind := kind)), dirty := Mark(w.dirty, i))
    case SizeOp(i, n) => w.(fs := SetInode(w.fs, i, w.fs.inodes[i].(size := n)))
    case UpdateOp(i, cs) =>
      w.(fs := UpdateFrom(w.fs, i, cs, 0).0, dirty := if Touches(w.fs, i, cs, 0) then Mark(w.dirty, i) else w.dirty)
    case RefOp(i, up) => w.(fs := SetInode(w.fs, i, w.fs.inodes[i].(refcnt := w.fs.inodes[i].refcnt + Count(up))))
    case UnlinkOp(i) =>
      if LastLink(w.fs.inodes[i], i)
      then w.(fs := UnlinkFs(w.fs, i), inoMap := B.Release(w.inoMap, i), inodeFree := w.inodeFree + 1,
              dirty := Bury(w.dirty, i, Remains(w.fs.inodes[i])))
      else w.(fs := UnlinkFs(w.fs, i))
    case SyncOp => w.(fs := SyncFs(w.fs, w.start, w.dirty[0].ino, NodeOf(w.fs, w.dirty[0])), dirty := w.dirty[1..])
  }

  predicate LastLink(nd: Inode, ino: nat) { !UnlinkRefused(nd, ino) && nd.nlink == 1 }

  /** What the caller can check before the operation: there are enough free blocks, the
      block to become a table is zero, the number is the one the inode bitmap hands out,
      only files are written, only fresh inodes get a type, a directory's size is that of its
      children, only references that are there are put, an inode that goes has a number the
      inode bitmap takes back, and a dead inode shows nowhere. */
  ghost predicate Guard(w: World, op: Op)
    requires Defined(w, op)
  {
    match op
    case WriteOp(i, off, data) =>
      && w.fs.inodes[i].kind != F_DIR
      && (!Refused(w.fs.inodes[i], off, |data|) ==>
            w.fs.blockFree >= Need(w.fs.inodes[i], off + |data|) && (off + |data| > NDIRECT * BLOCK ==> NextTableZero(w.fs, i)))
    case NewOp(i, dev) => B.Alloc(w.inoMap).0 == i && dev < TWO32
    case TypeOp(i, kind) => w.fs.inodes[i].kind != F_DIR && kind < TWO32
    case SizeOp(i, n) => w.fs.inodes[i].kind == F_DIR && n < TWO32
    case UpdateOp(i, cs) =>
      && w.fs.inodes[i].kind == F_DIR && w.fs.inodes[i].size == DIRENT * |cs|
      && w.fs.blockFree >= Need(w.fs.inodes[i], Extent(|cs|)) && (DIRENT * |cs| > NDIRECT * BLOCK ==> NextTableZero(w.fs, i))
    case RefOp(i, up) => up || w.fs.inodes[i].refcnt > 0
    case UnlinkOp(i) => LastLink(w.fs.inodes[i], i) ==> i < w.inoMap.size
    case SyncOp => Unseen(w.fs, w.dirty[0])
    case _ => true
  }

  ghost predicate Unseen(fs: Fs, it: Item) {
    it.Gone? ==> InodeShape(it.nd) && (it.nd.indir.Some? ==> it.nd.addrs[NDIRECT] < |fs.disk|) && Harmless(fs, it.nd)
  }

  /** The states an execution goes through. */
  ghost predicate IsTrace(ws: seq<World>, ops: seq<Op>) {
    && |ws| == |ops| + 1
    && forall k :: 0 <= k < |ops| ==> Defined(ws[k], ops[k]) && ws[k + 1] == Do(ws[k], ops[k])
  }

  /** An execution in which every guard holds when its operation is called. */
  ghost predicate IsRun(ws: seq<World>, ops: seq<Op>) {
    IsTrace(ws, ops) && forall k :: 0 <= k < |ops| ==> Guard(ws[k], ops[k])
  }

  /** The end of an execution, if all its operations are defined. */
  function DoAll(w: World, ops: seq<Op>): Option<World> {
    if ops == [] then Some(w)
    else
      var w1 := DoAll(w, ops[..|ops| - 1]);
      if w1.Some? && Defined(w1.value, ops[|ops| - 1]) then Some(Do(w1.value, ops[|ops| - 1])) else None
  }

  /** The end of a run: all guards hold as well. */
  ghost function RunAll(w: World, ops: seq<Op>): Option<World> {
    if ops == [] then Some(w)
    else
      var w1 := RunAll(w, ops[..|ops| - 1]);
      if w1.Some? && Defined(w1.value, ops[|ops| - 1]) && Guard(w1.value, ops[|ops| - 1]) then Some(Do(w1.value, ops[|ops| - 1])) else None
  }

  lemma RunNone(w: World)
    ensures RunAll(w, []) == Some(w)
  {
  }

  lemma RunMore(w0: World, ops: seq<Op>, w: World, op: Op)
    requires RunAll(w0, ops) == Some(w) && Defined(w, op) && Guard(w, op)
    ensures RunAll(w0, ops + [op]) == Some(Do(w, op))
  {
    hide Do, Guard;
    assert (ops + [op])[..|ops|] == ops;
  }

  lemma {:induction false} RunJoin(w0: World, a: seq<Op>, w1: World, b: seq<Op>)
    requires RunAll(w0, a) == Some(w1) && RunAll(w1, b).Some?
    ensures RunAll(w0, a + b) == RunAll(w1, b)
    decreases |b|
  {
    hide Do, Guard;
    if b == [] {
      assert a + b == a;
    } else {
      var n := |b| - 1;
      RunJoin(w0, a, w1, b[..n]);
      assert (a + b)[..|a| + n] == a + b[..n] && (a + b)[|a| + n] == b[n];
    }
  }

  /** Such an end belongs to a run. */
  lemma {:induction false} RunStates(w: World, ops: seq<Op>) returns (ws: seq<World>)
    requires RunAll(w, ops).Some?
    ensures IsRun(ws, ops) && ws[0] == w && RunAll(w, ops) == Some(ws[|ops|])
    decreases |ops|
  {
    hide Do, Guard;
    if ops == [] {
      ws := [w];
    } else {
      var n := |ops| - 1;
      var vs := RunStates(w, ops[..n]);
      ws := vs + [Do(vs[n], ops[n])];
      forall k | 0 <= k < |ops| ensures Defined(ws[k], ops[k]) && ws[k + 1] == Do(ws[k], ops[k]) && Guard(ws[k], ops[k]) {
        assert k < n ==> Defined(vs[k], ops[..n][k]) && vs[k + 1] == Do(vs[k], ops[..n][k]) && Guard(vs[k], ops[..n][k]);
      }
    }
  }

  // ---- the invariant ----

  /** The inode bitmap counts the free numbers exactly, up to its own size or, as the image
      builder writes it, with the number `size` included. */
  ghost predicate InodeMapOk(w: World) {
    && w.inoMap.Safe() && w.inoMap.size <= w.slots <= w.inoMap.size + 1 && w.inoMap.(size := w.slots).Managed(1)
    && w.inodeFree == w.inoMap.unused && w.slots <= TWO32
    && w.start * BLOCK + w.slots * INODE_SIZE <= w.fs.area * BLOCK
    && forall i :: i in w.fs.inodes ==> 0 < i < w.slots && B.Bit(w.inoMap.words, i)
  }

  /** Entries of live inodes are live; a dead one has a number, a place and no link. */
  predicate ItemOk(w: World, it: Item) {
    match it
    case Live(i) => i in w.fs.inodes
    case Gone(d, nd) => 0 < d < w.slots && nd.nlink == 0 && Storable(w.fs, w.start, d, nd)
  }

  ghost predicate DirtyOk(w: World) { forall it :: it in w.dirty ==> ItemOk(w, it) }

  /** Every file that is no directory has blocks for all its bytes. */
  ghost predicate AllCovered(fs: Fs) { forall i :: i in fs.inodes && Regular(fs, i) ==> Covered(fs, i) }

  ghost predicate AllSmall(fs: Fs) { forall i :: i in fs.inodes ==> Small(fs.inodes[i]) }

  ghost predicate WorldOk(w: World) {
    FsOk(w.fs) && AllCovered(w.fs) && |w.fs.disk| <= TWO32 && AllSmall(w.fs) && InodeMapOk(w) && DirtyOk(w)
  }

  // ---- conservation ----

  function OwnedAt(fs: Fs, i: nat): nat { if i in fs.inodes then Owned(fs.inodes[i].mapped) else 0 }

  /** The blocks owned by inodes below `n`. */
  function Total(fs: Fs, n: nat): nat { if n == 0 then 0 else Total(fs, n - 1) + OwnedAt(fs, n - 1) }

  /** The blocks an unlink leaves taken without an owner. */
  function Leak(w: World, op: Op): int
    requires Defined(w, op)
  {
    if op.UnlinkOp? && LastLink(w.fs.inodes[op.ino], op.ino)
    then Owned(w.fs.inodes[op.ino].mapped) - |FreedList(w.fs.inodes[op.ino])| else 0
  }

  lemma {:induction false} TotalChange(fs: Fs, fs': Fs, ino: nat, n: nat)
    requires forall i: nat :: i != ino ==> OwnedAt(fs', i) == OwnedAt(fs, i)
    ensures Total(fs', n) - Total(fs, n) == if ino < n then OwnedAt(fs', ino) - OwnedAt(fs, ino) else 0
    decreases n
  {
    hide OwnedAt;
    if n > 0 { TotalChange(fs, fs', ino, n - 1); }
  }

  /** What every operation does: it keeps the invariant, acts on the files as the
      specification says, and loses no block except by `Leak`. */
  ghost predicate Step(w: World, op: Op, w': World)
    requires Defined(w, op)
  {
    && WorldOk(w') && Files(w'.fs) == Apply(Files(w.fs), op) && w'.slots == w.slots && w'.start == w.start
    && w'.fs.blockFree + Total(w'.fs, w.slots) + Leak(w, op) == w.fs.blockFree + Total(w.fs, w.slots)
  }
}
