/** Small file systems on which the code does not do what one would expect. */
module EasyFsExamples {
  import opened Basics
  import B = Bitmap
  import W = Word64
  import opened EasyFs
  import opened EasyFsProofs
  import opened EasyFsFree
  import opened EasyFsWrites
  import opened InodeArea
  import opened EasyFsSync
  import opened EasyFsRuns
  import opened EasyFsRunProofs
  import opened EasyFsRunTheorems
  import opened EasyFsDurable
  import opened EasyFsDurability

  function Zeroes(): (r: seq<Byte>)
    ensures |r| == BLOCK
  {
    seq(BLOCK, (i: nat) => 0 as Byte)
  }

  /** Sixteen zero blocks, except that block 13 starts with byte `v`. */
  function Disk(v: Byte): (r: seq<seq<Byte>>)
    ensures |r| == 16 && (forall b :: 0 <= b < 16 ==> |r[b]| == BLOCK)
    ensures forall k :: 0 <= k < BLOCK ==> r[13][k] == if k == 0 then v else 0
  {
    seq(16, (b: nat) => BlockOf(b, v))
  }

  function BlockOf(b: nat, v: Byte): (r: seq<Byte>)
    ensures |r| == BLOCK && forall k :: 0 <= k < BLOCK ==> r[k] == if b == 13 && k == 0 then v else 0
  {
    if b == 13 then Zeroes()[0 := v] else Zeroes()
  }

  lemma FirstEntry(v: Byte, j: nat)
    requires j < NINDIRECT
    ensures Entry(Disk(v)[13], j) == if j == 0 then v else 0
  {
  }

  /** Bits 1 to `n` are set. */
  function Used(n: nat): W.Word { seq(64, i => 1 <= i <= n) }

  /** Sixteen blocks; inode 5 has twelve blocks, 1 to 12, and block 13, free, was used before:
      it starts with the number 2. */
  function Reused(): Fs {
    Fs(Disk(2), 1, B.Value([Used(12)], 16, 3, 13), 3,
       map[5 := Inode(1, 0, 12 * BLOCK, seq(NDIRECT + 1, (i: nat) => if i < NDIRECT then i + 1 else 0), None, 1, 0, NDIRECT)])
  }

  lemma ReusedAt(i: nat, s: Slot)
    ensures At(Reused(), i, s) == if i == 5 && s.Dir? && s.i < NDIRECT then s.i + 1 else 0
  {
  }

  lemma ReusedBits()
    ensures Bits(Reused())
  {
    var bm := Reused().bm;
    forall k: nat | k < 64 ensures B.Bit(bm.words, k) <==> 1 <= k <= 12 { }
    assert B.Free(bm.words, 1, 16) == {13, 14, 15};
  }

  lemma ReusedOk()
    ensures FsOk(Reused())
  {
    var fs := Reused();
    ReusedBits();
    forall i, s ensures At(fs, i, s) == if i == 5 && s.Dir? && s.i < NDIRECT then s.i + 1 else 0 { ReusedAt(i, s); }
    forall k: nat | k < 64 ensures B.Bit(fs.bm.words, k) <==> 1 <= k <= 12 { }
    assert Shape(fs);
    hide At, Bits;
    assert PrefixOk(fs, 5);
  }

  /** Mapping the 13th block takes block 13 as table and returns block 2, which is already
      the file's second block: the premise of the write theorems is needed. */
  lemma StaleExample()
    ensures var fs := Reused();
            && FsOk(fs) && fs.bm.Safe() && 5 in fs.inodes && InodeShape(fs.inodes[5]) && !NextTableZero(fs, 5)
            && Bmap(fs, 5, NDIRECT, true).1 == Block(2) && At(fs, 5, SlotOf(1)) == 2
  {
    var fs := Reused();
    ReusedOk();
    ReusedAt(5, Dir(1));
    forall k: nat | k < 64 ensures B.Bit(fs.bm.words, k) <==> 1 <= k <= 12 { }
    B.FirstClearFound(fs.bm.words, 13, 64, 13);
    assert TakeBlock(fs).0 == 13 && NthFree(fs.bm, 0) == 13;
    assert !Zeroed(fs.disk[13]) by { assert fs.disk[13][0] == 2; }
    FirstEntry(2, 0);
  }

  /** The same file after a remount with a 13th block: block 13 is its table, block 14 its
      13th block, and the table is not in memory. */
  function Remounted(): Fs {
    Fs(Disk(14), 1, B.Value([Used(14)], 16, 1, 15), 1,
       map[5 := Inode(1, 0, 13 * BLOCK, seq(NDIRECT + 1, (i: nat) => i + 1), None, 1, 0, NDIRECT + 1)])
  }

  /** What it records. */
  function RemountedSlot(i: nat, s: Slot): nat {
    if i != 5 then 0 else match s case Dir(k) => (if k < NDIRECT then k + 1 else 0) case Tab => 13 case Ind(j) => (if j == 0 then 14 else 0)
  }

  lemma RemountedAt(i: nat, s: Slot)
    ensures At(Remounted(), i, s) == RemountedSlot(i, s)
  {
    var fs := Remounted();
    forall j: nat | j < NINDIRECT ensures Entry(fs.disk[13], j) == if j == 0 then 14 else 0 { FirstEntry(14, j); }
  }

  lemma RemountedBits()
    ensures Bits(Remounted())
  {
    var bm := Remounted().bm;
    forall k: nat | k < 64 ensures B.Bit(bm.words, k) <==> 1 <= k <= 14 { }
    assert B.Free(bm.words, 1, 16) == {15};
  }

  lemma RemountedShape()
    ensures Shape(Remounted())
  {
  }

  lemma RemountedPrefix()
    ensures PrefixOk(Remounted(), 5)
  {
    hide At;
    forall s ensures At(Remounted(), 5, s) == RemountedSlot(5, s) { RemountedAt(5, s); }
  }

  lemma RemountedOk()
    ensures FsOk(Remounted())
  {
    hide At, Bits, Shape, PrefixOk;
    var fs := Remounted();
    RemountedBits();
    RemountedShape();
    RemountedPrefix();
    forall i, s ensures At(fs, i, s) == RemountedSlot(i, s) { RemountedAt(i, s); }
    forall k: nat | k < 64 ensures B.Bit(fs.bm.words, k) <==> 1 <= k <= 14 { }
  }

  /** Freeing it releases blocks 1 to 13 and leaks block 14. */
  lemma LeakExample()
    ensures var fs := Remounted();
            && FsOk(fs) && 5 in fs.inodes && InodeShape(fs.inodes[5]) && fs.inodes[5].mapped <= MAXFILE
            && At(fs, 5, SlotOf(NDIRECT)) == 14 && 14 !in Freed(fs.inodes[5])
  {
    RemountedOk();
    RemountedAt(5, Ind(0));
  }

  /** Truncating the file of the first example leaves it with blocks that are free. */
  lemma TruncExample()
    ensures var fs := Reused();
            && FsOk(fs) && fs.bm.Safe() && InodeShape(fs.inodes[5])
            && !FsOk(SetInode(ReleaseAll(fs, FreedList(fs.inodes[5])), 5, fs.inodes[5].(size := 0)))
  {
    hide FsOk, Freeing, Freed, At, FreedList, ReleaseAll;
    ReusedOk();
    var fs := Reused();
    var l := FreedList(fs.inodes[5]);
    ReleaseOk(fs, 5, |l|);
    assert l[..|l|] == l;
    ListIsFreed(fs.inodes[5]);
    TruncOk(fs, ReleaseAll(fs, l), 5);
  }

  // ---- the write-back of a dead inode ----

  /** A file of thirteen blocks, 2 to 14, with its table in block 1 and in memory. */
  function Long(): Inode {
    Inode(1, 0, 13 * BLOCK, seq(NDIRECT + 1, (i: nat) => if i < NDIRECT then i + 2 else 1), Some(seq(NINDIRECT, (j: nat) => if j == 0 then 14 else 0)), 1, 0, NDIRECT + 1)
  }

  /** Sixteen zero blocks; file 6 is long, file 5 is empty. */
  function Start(): World {
    World(Fs(Disk(0), 1, B.Value([Used(14)], 16, 1, 15), 1, map[5 := EmptyInode(1, 0), 6 := Long()]), 0, 8, B.Value([Used(6)], 8, 1, 7), 1, [])
  }

  function StartSlot(i: nat, s: Slot): nat {
    if i != 6 then 0 else match s case Dir(k) => (if k < NDIRECT then k + 2 else 0) case Tab => 1 case Ind(j) => (if j == 0 then 14 else 0)
  }

  lemma StartAt(i: nat, s: Slot)
    ensures At(Start().fs, i, s) == StartSlot(i, s)
  {
  }

  lemma StartBits()
    ensures Bits(Start().fs)
  {
    var bm := Start().fs.bm;
    forall k: nat | k < 64 ensures B.Bit(bm.words, k) <==> 1 <= k <= 14 { }
    assert B.Free(bm.words, 1, 16) == {15};
  }

  lemma StartShape()
    ensures Shape(Start().fs)
  {
  }

  lemma StartPrefix()
    ensures PrefixOk(Start().fs, 5) && PrefixOk(Start().fs, 6)
  {
    hide At;
    forall i, s ensures At(Start().fs, i, s) == StartSlot(i, s) { StartAt(i, s); }
  }

  lemma StartFs()
    ensures FsOk(Start().fs)
  {
    hide At, Bits, Shape, PrefixOk;
    var fs := Start().fs;
    StartBits();
    StartShape();
    StartPrefix();
    forall i, s ensures At(fs, i, s) == StartSlot(i, s) { StartAt(i, s); }
    forall k: nat | k < 64 ensures B.Bit(fs.bm.words, k) <==> 1 <= k <= 14 { }
  }

  lemma StartNumbers()
    ensures InodeMapOk(Start())
  {
    var v := Start().inoMap;
    forall k: nat | k < 64 ensures B.Bit(v.words, k) <==> 1 <= k <= 6 { }
    assert B.Free(v.words, 1, 8) == {7};
  }

  lemma StartOk()
    ensures WorldOk(Start())
  {
    hide FsOk, InodeMapOk;
    StartFs();
    StartNumbers();
  }

  /** File 6 is unlinked, file 5 gets its first block: the old table block of file 6. */
  lemma UnlinkAndWrite()
    ensures Defined(Start(), UnlinkOp(6)) && Guard(Start(), UnlinkOp(6))
    ensures var w1 := Do(Start(), UnlinkOp(6));
            && Defined(w1, WriteOp(5, 0, [9])) && Guard(w1, WriteOp(5, 0, [9])) && w1.dirty == [Gone(6, Remains(Long()))]
            && var w2 := Do(w1, WriteOp(5, 0, [9]));
               && WorldOk(w2) && w2.dirty == [Live(5), Gone(6, Remains(Long()))] && w2.start == 0 && w2.fs.area == 1
               && 5 in w2.fs.inodes && w2.fs.inodes[5].mapped > 0 && At(w2.fs, 5, Dir(0)) == 1 && FileByte(w2.fs, 5, 0) == 9
  {
    hide WorldOk, UnlinkFs, B.Release, WriteAll, Step, FsOk, FileByte, At, InodeShape;
    StartOk();
    StartFs();
    AllDefined(Start(), UnlinkOp(6));
    StepKeeps(Start(), UnlinkOp(6));
    StepWorld(Start(), UnlinkOp(6));
    Unlinked();
    var w1 := Do(Start(), UnlinkOp(6));
    AllDefined(w1, WriteOp(5, 0, [9]));
    StepKeeps(w1, WriteOp(5, 0, [9]));
    StepWorld(w1, WriteOp(5, 0, [9]));
    FirstBlock(w1.fs);
  }

  lemma Unlinked()
    requires Defined(Start(), UnlinkOp(6)) && FsOk(Start().fs)
    ensures var fs := UnlinkFs(Start().fs, 6);
            fs.inodes == map[5 := EmptyInode(1, 0)] && fs.area == 1 && fs.blockFree == 15 && FsOk(fs) && fs.bm.Safe() && TakeBlock(fs).0 == 1 && |fs.disk| == 16
  {
    hide FsOk, ReleaseAll, Freeing, FreedList, B.Release, InodeShape;
    var fs := Start().fs;
    LastOk(fs, 6);
    LongList();
    var l := FreedList(Long());
    ReleaseOk(fs, 6, |l|);
    assert l[..|l|] == l;
    LeastIsOne(UnlinkFs(fs, 6), fs, ReleaseAll(fs, l), l);
  }

  lemma LongList()
    ensures InodeShape(Long()) && |FreedList(Long())| == 14 && 1 in FreedList(Long())
  {
    assert FreedList(Long())[12] == 1;
  }

  lemma LeastIsOne(fs': Fs, fs: Fs, r: Fs, l: seq<nat>)
    requires FsOk(fs') && Freeing(fs, r, Elems(l)) && fs'.bm == r.bm && 1 in l
    ensures fs'.bm.Safe() && TakeBlock(fs').0 == 1
  {
    hide At, B.Alloc, Taken, Distinct, Prefixes;
    B.AllocLeast(fs'.bm, 1);
    assert 1 in Elems(l);
  }

  lemma FirstBlock(fs: Fs)
    requires FsOk(fs) && Ready(fs, 5) && fs.inodes == map[5 := EmptyInode(1, 0)] && fs.blockFree == 15 && TakeBlock(fs).0 == 1 && |fs.disk| == 16
    ensures var (fs', o) := WriteAll(fs, 5, 0, [9]);
            o == Returned(1) && 5 in fs'.inodes && fs'.inodes[5].mapped > 0 && At(fs', 5, Dir(0)) == 1 && FileByte(fs', 5, 0) == 9 && fs'.area == fs.area
  {
    hide FsOk, FileByte, B.Alloc, NextTableZero, WriteLoop, Bmap, At, FreeKept, TabsKept, Splice, EmptyInode, TakeBlock;
    EmptyFive();
    WriteAllOk(fs, 5, 0, [9]);
    LoopRound(fs, 5, 0, [9]);
    var (fs1, b) := Bmap(fs, 5, 0, true);
    TakesOne(fs);
    BlockSizes(fs);
    var fs2 := Store(fs1, 1, 0, [9][..1]);
    LoopEnd(fs2, 5, 1, [9][1..]);
    SlotOne(fs2, 1);
  }

  lemma EmptyFive()
    ensures EmptyInode(1, 0).size == 0 && EmptyInode(1, 0).mapped == 0
  {
  }

  lemma TakesOne(fs: Fs)
    requires Ready(fs, 5) && fs.inodes == map[5 := EmptyInode(1, 0)] && TakeBlock(fs).0 == 1
    ensures var (fs1, b) := Bmap(fs, 5, 0, true);
            b == Block(1) && fs1.disk == fs.disk && 5 in fs1.inodes && InodeShape(fs1.inodes[5]) && fs1.inodes[5].addrs[0] == 1 && fs1.area == fs.area
  {
    hide B.Alloc;
  }

  lemma SlotOne(fs: Fs, n: nat)
    requires 5 in fs.inodes && InodeShape(fs.inodes[5]) && fs.inodes[5].addrs[0] == 1
    ensures At(SetInode(fs, 5, fs.inodes[5].(size := n)), 5, Dir(0)) == 1
  {
  }

  lemma BlockSizes(fs: Fs)
    requires FsOk(fs)
    ensures Blocks(fs.disk)
  {
    hide At;
  }

  lemma BackFive(w: World)
    requires WorldOk(w) && Defined(w, SyncOp) && w.dirty == [Live(5), Gone(6, Remains(Long()))] && 5 in w.fs.inodes && w.fs.inodes[5].mapped > 0
    requires At(w.fs, 5, Dir(0)) == 1 && FileByte(w.fs, 5, 0) == 9
    ensures Guard(w, SyncOp)
    ensures var w' := Do(w, SyncOp);
            && WorldOk(w') && w'.dirty == [Gone(6, Remains(Long()))] && w'.start == w.start && w'.fs.area == w.fs.area
            && 5 in w'.fs.inodes && At(w'.fs, 5, Dir(0)) == 1 && FileByte(w'.fs, 5, 0) == 9
  {
    hide WorldOk, FileByte, At, Step, IUpdate, FsOk;
    SyncKeeps(w);
    StepWorld(w, SyncOp);
  }

  lemma DeadBack(w: World)
    requires WorldOk(w) && Defined(w, SyncOp) && w.dirty == [Gone(6, Remains(Long()))] && 5 in w.fs.inodes && w.fs.area == 1
    requires At(w.fs, 5, Dir(0)) == 1 && FileByte(w.fs, 5, 0) == 9
    ensures !Guard(w, SyncOp) && FileByte(Do(w, SyncOp).fs, 5, 0) == 14
  {
    hide FsOk, AllCovered, AllSmall, InodeMapOk, IUpdate, At, FileByte, Encode, Long, Read, DirtyOk;
    HeadOk(w);
    LongTable();
    var nd := Remains(Long());
    SyncBlocks(w.fs, w.start, 6, nd);
    DataBlock(w.fs, 5, Dir(0));
    FirstByte(w.fs, w.fs, 1);
    FirstByte(w.fs, Do(w, SyncOp).fs, 1);
    ReadByFive(w.fs);
  }

  lemma LongTable()
    ensures InodeShape(Long()) && Long().indir.Some? && Long().addrs[NDIRECT] == 1 && Encode(Long().indir.value)[0] == 14
  {
  }

  lemma ReadByFive(fs: Fs)
    requires 5 in fs.inodes && At(fs, 5, Dir(0)) == 1
    ensures Read(fs, 1)
  {
    hide At;
  }

  lemma FirstByte(fs: Fs, fs': Fs, b: nat)
    requires fs'.inodes == fs.inodes && At(fs, 5, Dir(0)) == b && 0 < b < |fs'.disk| && |fs'.disk[b]| == BLOCK
    ensures FileByte(fs', 5, 0) == fs'.disk[b][0]
  {
    assert SlotOf(0) == Dir(0);
  }

  /** Then efs_sync writes file 5 back, and after it the dead inode 6, whose table goes to
      its old block: byte 0 of file 5 turns from 9 into 14. */
  lemma DeadExample() returns (ws: seq<World>, ops: seq<Op>)
    ensures IsTrace(ws, ops) && WorldOk(ws[0]) && |ops| == 4 && ops == [UnlinkOp(6), WriteOp(5, 0, [9]), SyncOp, SyncOp]
    ensures (forall k :: 0 <= k < 3 ==> Guard(ws[k], ops[k])) && !Guard(ws[3], SyncOp)
    ensures FileByte(ws[2].fs, 5, 0) == 9 && FileByte(ws[3].fs, 5, 0) == 9 && FileByte(ws[4].fs, 5, 0) == 14
  {
    hide WorldOk, Do, FileByte, At;
    var w0 := Start();
    StartOk();
    UnlinkAndWrite();
    var w1 := Do(w0, UnlinkOp(6));
    var w2 := Do(w1, WriteOp(5, 0, [9]));
    AllDefined(w2, SyncOp);
    var w3 := Do(w2, SyncOp);
    BackFive(w2);
    AllDefined(w3, SyncOp);
    DeadBack(w3);
    ws, ops := [w0, w1, w2, w3, Do(w3, SyncOp)], [UnlinkOp(6), WriteOp(5, 0, [9]), SyncOp, SyncOp];
  }

  // ---- a number used again ----

  lemma SixAgain()
    requires Defined(Start(), UnlinkOp(6))
    ensures var w1 := Do(Start(), UnlinkOp(6)); w1.inoMap.Safe() && B.Alloc(w1.inoMap).0 == 6 && Defined(w1, NewOp(6, 0))
  {
    hide UnlinkFs;
    var v := B.Release(Start().inoMap, 6);
    B.ClearBit(Start().inoMap.words, 6);
    forall k: nat | k < 64 ensures B.Bit(v.words, k) <==> 1 <= k <= 5 { }
    B.FirstClearFound(v.words, 6, 64, 6);
  }

  /** File 6 is unlinked and a new file gets its number.  Both are written back, the new one
      first: on the disk inode 6 has no links. */
  lemma ReuseExample() returns (ws: seq<World>, ops: seq<Op>)
    ensures IsTrace(ws, ops) && WorldOk(ws[0]) && ops == [UnlinkOp(6), NewOp(6, 0), SyncOp, SyncOp] && |ops| == 4
    ensures ws[4].dirty == [] && 6 in ws[4].fs.inodes && ws[4].fs.inodes[6].nlink == 1 && !Durable(ws[4], 6)
    ensures Place(0, 6) + RECORD <= BLOCK * |ws[4].fs.disk| && Blocks(ws[4].fs.disk) && IFill(ws[4].fs.disk, 0, 6).nlink == 0
  {
    hide WorldOk, Do, IFill, Durable, Place, Doomed, Start, Long, Defined, Remains, B.Alloc;
    var w0 := Start();
    StartOk();
    SixLast();
    SixAgain();
    var w1 := Do(w0, UnlinkOp(6));
    StartsDoomed(w0, 6, 0);
    ReuseDirty(w0);
    var w2 := Do(w1, NewOp(6, 0));
    var w3 := Do(w2, SyncOp);
    SyncOnlyDisk(w2);
    GoneWritable(w2);
    var w4 := Do(w3, SyncOp);
    SyncOnlyDisk(w3);
    ReusedNumber(w0, 6, 0, [w2, w3, w4], [SyncOp, SyncOp]);
    InodesStay([w2, w3, w4], [SyncOp, SyncOp], 2);
    ws, ops := [w0, w1, w2, w3, w4], [UnlinkOp(6), NewOp(6, 0), SyncOp, SyncOp];
  }

  lemma SixLast()
    ensures var w := Start(); 6 in w.fs.inodes && LastLink(w.fs.inodes[6], 6) && 6 < w.inoMap.size && Defined(w, UnlinkOp(6))
  {
    hide WorldOk;
    StartOk();
    AllDefined(Start(), UnlinkOp(6));
  }

  lemma ReuseDirty(w: World)
    requires w == Start() && Defined(w, UnlinkOp(6)) && Defined(Do(w, UnlinkOp(6)), NewOp(6, 0))
    ensures Do(Do(w, UnlinkOp(6)), NewOp(6, 0)).dirty == [Live(6), Gone(6, Remains(Long()))] && Do(Do(w, UnlinkOp(6)), NewOp(6, 0)).start == 0
  {
    hide UnlinkFs, B.Release, B.Alloc;
  }

  lemma GoneWritable(w: World)
    requires Defined(w, SyncOp) && w.dirty == [Live(6), Gone(6, Remains(Long()))]
    ensures Defined(Do(w, SyncOp), SyncOp)
  {
    hide IUpdate;
  }
}
