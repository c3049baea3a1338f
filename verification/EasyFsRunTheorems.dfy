/** What holds over every run of easyfs. */
module EasyFsRunTheorems {
  import opened Basics
  import B = Bitmap
  import opened EasyFs
  import opened EasyFsProofs
  import opened EasyFsFree
  import opened EasyFsWrites
  import opened InodeArea
  import opened EasyFsSync
  import opened EasyFsTheorems
  import opened DirRecords
  import opened EasyFsRuns
  import opened EasyFsRunProofs

  /** From a consistent world, over any run of reads, writes, creations, directory updates,
      unlinks and write-backs whose guards hold when they are called, every state is
      consistent (no block is recorded twice, every recorded block is taken, the counts are
      exact) and every file is the byte sequence a plain map of files would hold. */
  lemma {:induction false} RunContents(ws: seq<World>, ops: seq<Op>, k: nat)
    requires IsRun(ws, ops) && WorldOk(ws[0]) && k <= |ops|
    ensures WorldOk(ws[k]) && Files(ws[k].fs) == ApplyAll(Files(ws[0].fs), ops[..k]) && ws[k].slots == ws[0].slots && ws[k].start == ws[0].start
    decreases k
  {
    hide WorldOk, Do, Guard, Files, Apply;
    if k > 0 {
      RunContents(ws, ops, k - 1);
      StepKeeps(ws[k - 1], ops[k - 1]);
      assert ops[..k][..k - 1] == ops[..k - 1];
    }
  }

  // ---- directories ----

  /** Over any run the file of a live directory holds the children it was last stored with,
      before the run or in it. */
  lemma {:induction false} RunListings(ws: seq<World>, ops: seq<Op>, dirs: map<nat, seq<Dirent>>, k: nat)
    requires IsRun(ws, ops) && WorldOk(ws[0]) && Holds(ws[0].fs, dirs) && k <= |ops|
    ensures Holds(ws[k].fs, RelistAll(dirs, ops[..k]))
    decreases k
  {
    hide WorldOk, Do, Guard, Holds, Relist;
    if k > 0 {
      RunListings(ws, ops, dirs, k - 1);
      RunContents(ws, ops, k - 1);
      ListingStep(ws[k - 1], ops[k - 1], RelistAll(dirs, ops[..k - 1]));
      assert ops[..k][..k - 1] == ops[..k - 1];
    }
  }

  lemma ListingStep(w: World, op: Op, dirs: map<nat, seq<Dirent>>)
    requires WorldOk(w) && Defined(w, op) && Guard(w, op) && Holds(w.fs, dirs)
    ensures Holds(Do(w, op).fs, Relist(dirs, op))
  {
    hide WorldOk, Do, Guard, Records, FileByte;
    var fs', dirs' := Do(w, op).fs, Relist(dirs, op);
    forall i | i in dirs' && i in fs'.inodes
      ensures fs'.inodes[i].kind == F_DIR && DIRENT * |dirs'[i]| <= BLOCK * fs'.inodes[i].mapped && Records(fs', i, dirs'[i])
    {
      if op.UpdateOp? && op.ino == i {
        UpdateLists(w, i, op.cs);
      } else {
        WasThere(w, op, i);
        Untouched(w, op, i);
        RecordsSame(w.fs, fs', i, dirs[i]);
      }
    }
  }

  lemma UpdateLists(w: World, i: nat, cs: seq<Dirent>)
    requires WorldOk(w) && Defined(w, UpdateOp(i, cs)) && Guard(w, UpdateOp(i, cs)) && DIRENT * |cs| <= MAXFILE * BLOCK
    ensures var fs' := Do(w, UpdateOp(i, cs)).fs;
            i in fs'.inodes && fs'.inodes[i].kind == F_DIR && DIRENT * |cs| <= BLOCK * fs'.inodes[i].mapped && Records(fs', i, cs)
  {
    hide WorldOk, Do, Step, Extended, Records;
    UpdateKeeps(w, i, cs);
    ExtendedFacts(w.fs, Do(w, UpdateOp(i, cs)).fs, i, Extent(|cs|));
  }

  /** An inode that is there after the operation, and is not the new one, was there before. */
  lemma WasThere(w: World, op: Op, i: nat)
    requires WorldOk(w) && Defined(w, op) && Guard(w, op) && i in Do(w, op).fs.inodes && (op.NewOp? ==> op.ino != i)
    ensures i in w.fs.inodes
  {
    hide FsOk, InodeMapOk, DirtyOk, AllSmall, AllCovered, WriteAll, Bmap;
    hide UpdateFrom, Touches, NextTableZero, Need, Mark, Harmless, FreedList, ReleaseAll;
    match op
    case WriteOp(j, off, data) => WroteAll(w, j, off, data);
    case ReadOp(j, l) => BmapLookup(w.fs, j, l);
    case UpdateOp(j, cs) => Updated(w, j, cs);
    case _ =>
  }

  lemma WroteAll(w: World, j: nat, off: nat, data: seq<Byte>)
    requires WorldOk(w) && Defined(w, WriteOp(j, off, data)) && Guard(w, WriteOp(j, off, data))
    ensures var fs' := WriteAll(w.fs, j, off, data).0; fs' == w.fs || (After(w.fs, fs', j, off, data) && fs'.inodes.Keys == w.fs.inodes.Keys)
  {
    hide FsOk, WriteAll, NextTableZero, Written, TabsKept, Need, FreeKept, InodeMapOk, DirtyOk;
    LiveFacts(w, j);
    CoveredReady(w.fs, j, off, |data|);
    WriteAllOk(w.fs, j, off, data);
  }

  lemma Updated(w: World, j: nat, cs: seq<Dirent>)
    requires WorldOk(w) && Defined(w, UpdateOp(j, cs)) && Guard(w, UpdateOp(j, cs))
    ensures Extended(w.fs, UpdateFrom(w.fs, j, cs, 0).0, j, Extent(|cs|)) && UpdateFrom(w.fs, j, cs, 0).0.inodes.Keys == w.fs.inodes.Keys
  {
    hide WorldOk, Step, Extended, UpdateFrom, Touches, Listed;
    UpdateKeeps(w, j, cs);
    ExtendedFacts(w.fs, UpdateFrom(w.fs, j, cs, 0).0, j, Extent(|cs|));
  }

  /** The operation leaves the bytes of directory `i`. */
  lemma Untouched(w: World, op: Op, i: nat)
    requires WorldOk(w) && Defined(w, op) && Guard(w, op) && i in w.fs.inodes && w.fs.inodes[i].kind == F_DIR && (op.UpdateOp? ==> op.ino != i)
    requires i in Do(w, op).fs.inodes
    ensures var fs' := Do(w, op).fs; fs'.inodes[i].kind == F_DIR && BytesSame(w.fs, fs', i)
  {
    hide FsOk, InodeMapOk, DirtyOk, AllSmall, AllCovered, WriteAll, Bmap, UpdateFrom, Touches, NextTableZero, Need;
    hide Mark, Harmless, UnlinkFs, FileByte, SameView, IUpdate, B.Alloc, B.Release, Bury, Extended, At;
    var fs' := Do(w, op).fs;
    match op
    case WriteOp(j, off, data) => WroteAll(w, j, off, data); if fs' != w.fs { AfterBytes(w.fs, fs', j, off, data, i); }
    case ReadOp(j, l) => BmapLookup(w.fs, j, l); LookedUp(w.fs, fs', j, i);
    case NewOp(j, dev) => NewNumber(w, j, dev); NewBytes(w.fs, j, dev, i);
    case TypeOp(j, kind) => MetaBytes(w.fs, j, w.fs.inodes[j].(kind := kind), i);
    case SizeOp(j, n) => MetaBytes(w.fs, j, w.fs.inodes[j].(size := n), i);
    case UpdateOp(j, cs) => Updated(w, j, cs); ExtendedBytes(w.fs, fs', j, Extent(|cs|), i);
    case RefOp(j, up) => MetaBytes(w.fs, j, w.fs.inodes[j].(refcnt := w.fs.inodes[j].refcnt + Count(up)), i);
    case UnlinkOp(j) => UnlinkBytes(w, j, i);
    case SyncOp => SyncKeeps(w); ViewBytes(w.fs, fs', i);
  }

  ghost predicate BytesSame(fs: Fs, fs': Fs, i: nat)
    requires i in fs.inodes && i in fs'.inodes
  {
    fs'.inodes[i].mapped == fs.inodes[i].mapped && forall p :: 0 <= p < BLOCK * fs.inodes[i].mapped ==> FileByte(fs', i, p) == FileByte(fs, i, p)
  }

  lemma AfterBytes(fs: Fs, fs': Fs, j: nat, off: nat, data: seq<Byte>, i: nat)
    requires After(fs, fs', j, off, data) && i != j && i in fs.inodes
    ensures i in fs'.inodes && fs'.inodes[i] == fs.inodes[i] && BytesSame(fs, fs', i)
  {
    hide FileByte, FreeKept, TabsKept;
  }

  lemma LookedUp(fs: Fs, fs': Fs, j: nat, i: nat)
    requires Same(fs, fs', j) && i in fs.inodes
    ensures i in fs'.inodes && fs'.inodes[i].kind == fs.inodes[i].kind && BytesSame(fs, fs', i)
  {
    hide FileByte, At;
    forall p: nat ensures FileByte(fs', i, p) == FileByte(fs, i, p) { LookupByte(fs, fs', j, i, p); }
  }

  lemma NewBytes(fs: Fs, j: nat, dev: nat, i: nat)
    requires j !in fs.inodes && i in fs.inodes
    ensures BytesSame(fs, SetInode(fs, j, EmptyInode(0, dev)), i)
  {
    hide FileByte;
    forall p: nat ensures FileByte(SetInode(fs, j, EmptyInode(0, dev)), i, p) == FileByte(fs, i, p) { NewByte(fs, j, dev, i, p); }
  }

  lemma MetaBytes(fs: Fs, j: nat, nd: Inode, i: nat)
    requires j in fs.inodes && MetaOnly(fs.inodes[j], nd) && i in fs.inodes
    ensures BytesSame(fs, SetInode(fs, j, nd), i)
  {
    hide FileByte;
    forall p: nat ensures FileByte(SetInode(fs, j, nd), i, p) == FileByte(fs, i, p) { MetaByte(fs, j, nd, i, p); }
  }

  lemma ExtendedBytes(fs: Fs, fs': Fs, j: nat, end: nat, i: nat)
    requires Extended(fs, fs', j, end) && i in fs.inodes && i != j
    ensures i in fs'.inodes && fs'.inodes[i] == fs.inodes[i] && BytesSame(fs, fs', i)
  {
    hide FileByte, FreeKept, TabsKept;
  }

  lemma UnlinkBytes(w: World, j: nat, i: nat)
    requires FsOk(w.fs) && Defined(w, UnlinkOp(j)) && i in w.fs.inodes && i in UnlinkFs(w.fs, j).inodes
    ensures UnlinkFs(w.fs, j).inodes[i].kind == w.fs.inodes[i].kind && BytesSame(w.fs, UnlinkFs(w.fs, j), i)
  {
    hide FsOk, FileByte, FreedList, ReleaseAll, InodeShape;
    var fs' := UnlinkFs(w.fs, j);
    if LastLink(w.fs.inodes[j], j) {
      LastOk(w.fs, j);
      forall p: nat ensures FileByte(fs', i, p) == FileByte(w.fs, i, p) { UnlinkByte(w.fs, fs', j, i, p); }
    } else if !UnlinkRefused(w.fs.inodes[j], j) {
      MetaBytes(w.fs, j, w.fs.inodes[j].(nlink := w.fs.inodes[j].nlink - 1), i);
    }
  }

  lemma ViewBytes(fs: Fs, fs': Fs, i: nat)
    requires SameView(fs, fs') && i in fs.inodes
    ensures fs'.inodes == fs.inodes && BytesSame(fs, fs', i)
  {
    hide FileByte, At;
  }

  lemma RecordsSame(fs: Fs, fs': Fs, i: nat, cs: seq<Dirent>)
    requires i in fs.inodes && i in fs'.inodes && BytesSame(fs, fs', i) && Records(fs, i, cs) && DIRENT * |cs| <= BLOCK * fs.inodes[i].mapped
    ensures Records(fs', i, cs)
  {
    hide FileByte, DirBytes;
    forall m, k | 0 <= m < |cs| && 0 <= k < DIRENT ensures FileByte(fs', i, DIRENT * m + k) == DirBytes(cs[m])[k] {
      assert DIRENT * m + k < DIRENT * |cs|;
    }
  }

  // ---- references ----

  /** An open file survives: after efs_i_dup the unlink of the last link is refused and
      changes nothing, whatever the count was before, as long as it was not negative. */
  lemma OpenStays(w: World, i: nat)
    requires Defined(w, RefOp(i, true)) && w.fs.inodes[i].refcnt >= 0 && w.fs.inodes[i].nlink == 1
    requires Defined(Do(w, RefOp(i, true)), UnlinkOp(i))
    ensures var w1 := Do(w, RefOp(i, true)); UnlinkRefused(w1.fs.inodes[i], i) && Do(w1, UnlinkOp(i)) == w1
  {
    hide FreedList, ReleaseAll, Bury, InodeShape;
  }

  /** efs_i_put after efs_i_dup restores everything. */
  lemma DupPut(w: World, i: nat)
    requires Defined(w, RefOp(i, true)) && w.fs.inodes[i].refcnt >= 0
    ensures var w1 := Do(w, RefOp(i, true)); Defined(w1, RefOp(i, false)) && Guard(w1, RefOp(i, false)) && Do(w1, RefOp(i, false)) == w
  {
    var w1 := Do(w, RefOp(i, true));
    assert Do(w1, RefOp(i, false)).fs.inodes == w.fs.inodes;
  }

  // ---- conservation ----

  /** The blocks lost by the first `k` operations. */
  ghost function Leaked(ws: seq<World>, ops: seq<Op>, k: nat): int
    requires IsRun(ws, ops) && k <= |ops|
  {
    if k == 0 then 0 else Leaked(ws, ops, k - 1) + Leak(ws[k - 1], ops[k - 1])
  }

  /** Over any run, free blocks plus blocks owned by files plus blocks leaked stay constant. */
  lemma {:induction false} RunConserves(ws: seq<World>, ops: seq<Op>, k: nat)
    requires IsRun(ws, ops) && WorldOk(ws[0]) && k <= |ops|
    ensures var n := ws[0].slots;
            ws[k].fs.blockFree + Total(ws[k].fs, n) + Leaked(ws, ops, k) == ws[0].fs.blockFree + Total(ws[0].fs, n)
    decreases k
  {
    hide WorldOk, Do, Guard, Files, Apply, Total, Leak;
    if k > 0 {
      RunConserves(ws, ops, k - 1);
      RunContents(ws, ops, k - 1);
      StepKeeps(ws[k - 1], ops[k - 1]);
    }
  }

  /** An operation leaks exactly when it drops the last link of a file whose table exists
      and is not in memory. */
  lemma LeakIff(w: World, op: Op)
    requires WorldOk(w) && Defined(w, op)
    ensures Leak(w, op) >= 0
    ensures Leak(w, op) != 0 <==>
              op.UnlinkOp? && LastLink(w.fs.inodes[op.ino], op.ino) && w.fs.inodes[op.ino].mapped > NDIRECT && w.fs.inodes[op.ino].indir.None?
  {
    hide FsOk, AllCovered, AllSmall, InodeMapOk, DirtyOk, Bury;
    if op.UnlinkOp? { FreedAll(w.fs, op.ino); }
  }

  // ---- runs without unlinks on a clean image ----

  /** The guards without the premise about tables; nothing is unlinked. */
  ghost predicate PlainGuard(w: World, op: Op)
    requires Defined(w, op)
  {
    match op
    case WriteOp(i, off, data) =>
      w.fs.inodes[i].kind != F_DIR && (!Refused(w.fs.inodes[i], off, |data|) ==> w.fs.blockFree >= Need(w.fs.inodes[i], off + |data|))
    case UpdateOp(i, cs) =>
      w.fs.inodes[i].kind == F_DIR && w.fs.inodes[i].size == DIRENT * |cs| && w.fs.blockFree >= Need(w.fs.inodes[i], Extent(|cs|))
    case UnlinkOp(_) => false
    case SyncOp => w.dirty[0].Live?
    case _ => Guard(w, op)
  }

  ghost predicate IsPlainRun(ws: seq<World>, ops: seq<Op>) {
    IsTrace(ws, ops) && forall k :: 0 <= k < |ops| ==> PlainGuard(ws[k], ops[k])
  }

  ghost predicate CleanImage(fs: Fs) { fs.bm.Safe() && fs.bm.size <= |fs.disk| && FreeZero(fs) }

  /** On an image whose free blocks read as zeros, no run of reads, writes, creations,
      directory updates and write-backs ever takes a dirty table: the premise of the write theorems holds at every
      step. */
  lemma {:induction false} CleanRun(ws: seq<World>, ops: seq<Op>, k: nat)
    requires IsPlainRun(ws, ops) && WorldOk(ws[0]) && CleanImage(ws[0].fs) && k <= |ops|
    ensures WorldOk(ws[k]) && CleanImage(ws[k].fs) && (k < |ops| ==> Guard(ws[k], ops[k]))
    decreases k
  {
    hide WorldOk, Do, Guard, CleanImage, PlainGuard;
    if k > 0 {
      CleanRun(ws, ops, k - 1);
      StepKeeps(ws[k - 1], ops[k - 1]);
      StepWorld(ws[k - 1], ops[k - 1]);
      CleanStep(ws[k - 1], ops[k - 1]);
    }
    if k < |ops| { CleanGuard(ws[k], ops[k]); }
  }

  lemma StepWorld(w: World, op: Op)
    requires Defined(w, op) && Step(w, op, Do(w, op))
    ensures WorldOk(Do(w, op))
  {
    hide WorldOk, Do, Files, Apply, Total, Leak;
  }

  lemma CleanGuard(w: World, op: Op)
    requires WorldOk(w) && Defined(w, op) && PlainGuard(w, op) && CleanImage(w.fs)
    ensures Guard(w, op)
  {
    hide FsOk, NextTableZero, FreeZero, AllCovered, AllSmall, InodeMapOk, DirtyOk, Need, Harmless;
    if op.WriteOp? { ZeroImage(w.fs, op.ino); }
    if op.UpdateOp? { ZeroImage(w.fs, op.ino); }
  }

  lemma CleanStep(w: World, op: Op)
    requires WorldOk(w) && Defined(w, op) && PlainGuard(w, op) && CleanImage(w.fs) && Guard(w, op)
    ensures CleanImage(Do(w, op).fs)
  {
    hide FsOk, FreeZero, AllCovered, AllSmall, InodeMapOk, DirtyOk, NextTableZero, WriteAll;
    hide UpdateFrom, Touches, Bmap, IUpdate, FreeKept, At, Need, Mark, Extended;
    match op
    case WriteOp(i, off, data) => CleanWrite(w, i, off, data);
    case ReadOp(i, l) => BmapLookup(w.fs, i, l); CleanSame(w.fs, Do(w, op).fs);
    case NewOp(_, _) => CleanSame(w.fs, Do(w, op).fs);
    case TypeOp(_, _) => CleanSame(w.fs, Do(w, op).fs);
    case SizeOp(_, _) => CleanSame(w.fs, Do(w, op).fs);
    case RefOp(_, _) => CleanSame(w.fs, Do(w, op).fs);
    case UpdateOp(i, cs) => Updated(w, i, cs); CleanExtended(w.fs, Do(w, op).fs, i, Extent(|cs|));
    case SyncOp => CleanSync(w);
  }

  lemma CleanSame(fs: Fs, fs': Fs)
    requires CleanImage(fs) && fs'.bm == fs.bm && fs'.disk == fs.disk
    ensures CleanImage(fs')
  {
    hide Zeroed;
  }

  lemma CleanKept(fs: Fs, fs': Fs)
    requires CleanImage(fs) && FreeKept(fs, fs')
    ensures CleanImage(fs')
  {
    KeptZeros(fs, fs');
  }

  lemma CleanExtended(fs: Fs, fs': Fs, i: nat, end: nat)
    requires CleanImage(fs) && Extended(fs, fs', i, end)
    ensures CleanImage(fs')
  {
    hide FreeKept, CleanImage, Kept, TabsKept, Need, BlocksFor;
    CleanKept(fs, fs');
  }

  lemma CleanWrite(w: World, i: nat, off: nat, data: seq<Byte>)
    requires WorldOk(w) && Ready(w.fs, i) && Guard(w, WriteOp(i, off, data)) && CleanImage(w.fs)
    ensures CleanImage(WriteAll(w.fs, i, off, data).0)
  {
    hide WorldOk, WriteAll, FreeKept, CleanImage, Written, TabsKept, Need, NextTableZero;
    WroteAll(w, i, off, data);
    if WriteAll(w.fs, i, off, data).0 != w.fs { CleanKept(w.fs, WriteAll(w.fs, i, off, data).0); }
  }

  lemma CleanSync(w: World)
    requires WorldOk(w) && Defined(w, SyncOp) && w.dirty[0].Live? && CleanImage(w.fs)
    ensures CleanImage(Do(w, SyncOp).fs)
  {
    hide FreeKept, CleanImage, SameView, IUpdate, Storable, AllCovered, AllSmall, InodeMapOk, FsOk;
    HeadOk(w);
    SyncLive(w.fs, w.start, w.dirty[0].ino);
    CleanKept(w.fs, Do(w, SyncOp).fs);
  }
}
