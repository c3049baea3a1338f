/** The inode layer of easyfs: block map, bitmap-backed allocation and file contents. */
module EasyFs {
  import opened Basics
  import B = Bitmap

  const BLOCK: nat := 4096
  const NDIRECT: nat := 12
  const NINDIRECT: nat := 1024
  const MAXFILE: nat := NDIRECT + NINDIRECT

  // ---- an indirect table on disk: 1024 little-endian 32-bit entries ----

  function Entry(blk: seq<Byte>, i: nat): nat
    requires |blk| == BLOCK && i < NINDIRECT
  {
    var a: nat, b: nat, c: nat, d: nat := blk[4 * i], blk[4 * i + 1], blk[4 * i + 2], blk[4 * i + 3];
    a + 0x100 * b + 0x1_0000 * c + 0x100_0000 * d
  }

  function Decode(blk: seq<Byte>): (t: seq<nat>)
    requires |blk| == BLOCK
    ensures |t| == NINDIRECT
  {
    seq(NINDIRECT, i requires 0 <= i < NINDIRECT => Entry(blk, i))
  }

  /** Byte `k` of a 32-bit word. */
  function ByteOf(x: nat, k: nat): Byte
    requires k < 4
  {
    if k == 0 then x % 0x100 else if k == 1 then x / 0x100 % 0x100 else if k == 2 then x / 0x1_0000 % 0x100 else x / 0x100_0000 % 0x100
  }

  function Encode(t: seq<nat>): (blk: seq<Byte>)
    requires |t| == NINDIRECT
    ensures |blk| == BLOCK
  {
    seq(BLOCK, k requires 0 <= k < BLOCK => ByteOf(t[k / 4], k % 4))
  }

  lemma WordBytes(x: nat)
    requires x < TWO32
    ensures var a: nat, b: nat, c: nat, d: nat := ByteOf(x, 0), ByteOf(x, 1), ByteOf(x, 2), ByteOf(x, 3);
            a + 0x100 * b + 0x1_0000 * c + 0x100_0000 * d == x
  {
    var y := x / 0x100;
    var z := y / 0x100;
    assert x / 0x1_0000 == z && x / 0x100_0000 == z / 0x100 < 0x100;
    assert x == x % 0x100 + 0x100 * y && y == y % 0x100 + 0x100 * z && z == z % 0x100 + 0x100 * (z / 0x100);
  }

  /** Writing a table back and reading it again gives the same table. */
  lemma TableRoundTrip(t: seq<nat>)
    requires |t| == NINDIRECT && forall i :: 0 <= i < NINDIRECT ==> t[i] < TWO32
    ensures Decode(Encode(t)) == t
  {
    forall i | 0 <= i < NINDIRECT ensures Entry(Encode(t), i) == t[i] {
      assert 4 * i / 4 == i && (4 * i + 1) / 4 == i && (4 * i + 2) / 4 == i && (4 * i + 3) / 4 == i;
      WordBytes(t[i]);
    }
  }

  predicate Zeroed(blk: seq<Byte>) {
    forall k :: 0 <= k < |blk| ==> blk[k] == 0
  }

  lemma ZeroTable(blk: seq<Byte>)
    requires |blk| == BLOCK && Zeroed(blk)
    ensures forall i :: 0 <= i < NINDIRECT ==> Decode(blk)[i] == 0
  {
  }

  // ---- inodes and the file system ----

  /** struct easy_m_inode: `addrs` are the 12 direct entries and the table's block, `indir`
      the table once it is in memory.  `mapped` counts the mapped logical blocks; no
      operation reads it. */
  datatype Inode = Inode(kind: nat, dev: nat, size: nat, addrs: seq<nat>, indir: Option<seq<nat>>, nlink: int, refcnt: int, mapped: nat)

  /** The logical disk, the block bitmap, the super block's count and the inodes in memory;
      data blocks start at `area`, everything below it is metadata. */
  datatype Fs = Fs(disk: seq<seq<Byte>>, area: nat, bm: B.Value, blockFree: int, inodes: map<nat, Inode>)

  /** The places in which an inode records block numbers. */
  datatype Slot = Dir(i: nat) | Tab | Ind(j: nat)

  /** The slot of logical block `l`. */
  function SlotOf(l: nat): Slot { if l < NDIRECT then Dir(l) else Ind(l - NDIRECT) }

  function Zeros(): (t: seq<nat>) { seq(NINDIRECT, (i: nat) => 0 as nat) }

  predicate InodeShape(nd: Inode) {
    |nd.addrs| == NDIRECT + 1 && (nd.indir.Some? ==> |nd.indir.value| == NINDIRECT)
  }

  /** The indirect table: in memory, or on disk, or absent. */
  function Table(disk: seq<seq<Byte>>, nd: Inode): (t: seq<nat>)
    requires InodeShape(nd)
    ensures |t| == NINDIRECT
  {
    if nd.indir.Some? then nd.indir.value
    else if 0 < nd.addrs[NDIRECT] < |disk| && |disk[nd.addrs[NDIRECT]]| == BLOCK then Decode(disk[nd.addrs[NDIRECT]])
    else Zeros()
  }

  /** The block recorded in a slot; 0 means none. */
  function Blk(disk: seq<seq<Byte>>, nd: Inode, s: Slot): nat
    requires InodeShape(nd)
  {
    match s
    case Dir(i) => if i < NDIRECT then nd.addrs[i] else 0
    case Tab => nd.addrs[NDIRECT]
    case Ind(j) => if j < NINDIRECT then Table(disk, nd)[j] else 0
  }

  function At(fs: Fs, ino: nat, s: Slot): nat {
    if ino in fs.inodes && InodeShape(fs.inodes[ino]) then Blk(fs.disk, fs.inodes[ino], s) else 0
  }

  // ---- the invariant ----

  predicate Shape(fs: Fs) {
    && (forall b :: 0 <= b < |fs.disk| ==> |fs.disk[b]| == BLOCK)
    && (forall i :: i in fs.inodes ==> InodeShape(fs.inodes[i]))
  }

  /** The bitmap, its count and the super block's count agree; block 0 and the metadata are
      never handed out. */
  ghost predicate Bits(fs: Fs) {
    && fs.bm.Managed(1) && fs.bm.size <= |fs.disk| && fs.blockFree == fs.bm.unused
    && 0 < fs.area <= fs.bm.size && B.AllSet(fs.bm.words, 1, fs.area)
  }

  /** Every recorded block is a data block and marked as taken. */
  ghost predicate Taken(fs: Fs)
    requires fs.bm.Safe()
  {
    forall i, s :: At(fs, i, s) != 0 ==> fs.area <= At(fs, i, s) < fs.bm.size && B.Bit(fs.bm.words, At(fs, i, s))
  }

  /** No block is recorded in two places, in one inode or in two. */
  ghost predicate Distinct(fs: Fs) {
    forall i, s, j, u :: At(fs, i, s) != 0 && At(fs, i, s) == At(fs, j, u) ==> i == j && s == u
  }

  /** The mapped logical blocks are a prefix, and there is a table iff it is needed. */
  ghost predicate PrefixOk(fs: Fs, i: nat)
    requires i in fs.inodes
  {
    var nd := fs.inodes[i];
    && nd.mapped <= MAXFILE
    && (forall l :: 0 <= l < MAXFILE ==> (At(fs, i, SlotOf(l)) != 0 <==> l < nd.mapped))
    && (At(fs, i, Tab) != 0 <==> nd.mapped > NDIRECT)
    && (nd.indir.Some? ==> nd.mapped > NDIRECT)
  }

  ghost predicate Prefixes(fs: Fs) {
    forall i :: i in fs.inodes ==> PrefixOk(fs, i)
  }

  /** The block that allocation returns after `k` others, or -1. */
  function NthFree(v: B.Value, k: nat): int
    requires v.Safe()
    decreases k
  {
    B.AllocSafe(v);
    if k == 0 then B.Alloc(v).0 else NthFree(B.Alloc(v).1, k - 1)
  }

  /** The block that would become this file's indirect table, if nothing else is allocated
      in between, reads as zeros. */
  predicate NextTableZero(fs: Fs, ino: nat)
    requires fs.bm.Safe() && ino in fs.inodes
  {
    fs.inodes[ino].mapped <= NDIRECT ==>
      var b := NthFree(fs.bm, NDIRECT - fs.inodes[ino].mapped);
      0 < b < |fs.disk| ==> Zeroed(fs.disk[b])
  }

  /** No block becomes free, and the blocks that are free keep their contents. */
  ghost predicate FreeKept(fs: Fs, fs': Fs) {
    && fs.bm.Safe() && fs'.bm.Safe() && fs'.bm.size == fs.bm.size <= |fs.disk| && |fs'.disk| == |fs.disk|
    && forall b: nat :: 0 < b < fs.bm.size && !B.Bit(fs'.bm.words, b) ==> !B.Bit(fs.bm.words, b) && fs'.disk[b] == fs.disk[b]
  }

  /** Free blocks read as zeros: true of a fresh image, kept by writes, lost by unlink. */
  ghost predicate FreeZero(fs: Fs)
    requires fs.bm.Safe() && fs.bm.size <= |fs.disk|
  {
    forall b: nat :: 0 < b < fs.bm.size && !B.Bit(fs.bm.words, b) ==> Zeroed(fs.disk[b])
  }

  ghost predicate FsOk(fs: Fs) {
    Shape(fs) && Bits(fs) && Taken(fs) && Distinct(fs) && Prefixes(fs)
  }

  /** The blocks a file with `m` mapped logical blocks owns: a table from the 13th on. */
  function Owned(m: nat): nat { if m > NDIRECT then m + 1 else m }

  // ---- allocation (super.c) ----

  /** efs_bmap_alloc: -1 is a panic. */
  function TakeBlock(fs: Fs): (r: (int, Fs))
    requires fs.bm.Safe()
  {
    var (no, bm) := B.Alloc(fs.bm);
    if no == -1 then (-1, fs) else (no, fs.(bm := bm, blockFree := fs.blockFree - 1))
  }

  // ---- efs_i_bmap ----

  datatype Found = Panic | Block(bno: nat)

  function SetInode(fs: Fs, ino: nat, nd: Inode): Fs {
    fs.(inodes := fs.inodes[ino := nd])
  }

  /** The direct case. */
  function BmapDirect(fs: Fs, ino: nat, l: nat, alloc: bool): (r: (Fs, Found))
    requires fs.bm.Safe() && ino in fs.inodes && InodeShape(fs.inodes[ino]) && l < NDIRECT
  {
    var nd := fs.inodes[ino];
    if nd.addrs[l] != 0 then (fs, Block(nd.addrs[l]))
    else if !alloc then (fs, Block(0))
    else
      var (no, fs1) := TakeBlock(fs);
      if no < 0 then (fs, Panic) else (SetInode(fs1, ino, nd.(addrs := nd.addrs[l := no], mapped := l + 1)), Block(no))
  }

  /** Make sure there is a table block. */
  function NeedTable(fs: Fs, ino: nat): (r: (Fs, Found))
    requires fs.bm.Safe() && ino in fs.inodes && InodeShape(fs.inodes[ino])
  {
    var nd := fs.inodes[ino];
    if nd.addrs[NDIRECT] != 0 then (fs, Block(nd.addrs[NDIRECT]))
    else
      var (no, fs1) := TakeBlock(fs);
      if no < 0 then (fs, Panic) else (SetInode(fs1, ino, nd.(addrs := nd.addrs[NDIRECT := no])), Block(no))
  }

  /** Bring the table into memory. */
  function LoadTable(fs: Fs, ino: nat): (r: Fs)
    requires ino in fs.inodes && InodeShape(fs.inodes[ino])
  {
    var nd := fs.inodes[ino];
    if nd.indir.Some? then fs else SetInode(fs, ino, nd.(indir := Some(Table(fs.disk, nd))))
  }

  /** The entry of a loaded table, allocating it if asked to. */
  function UseEntry(fs: Fs, ino: nat, j: nat, alloc: bool): (r: (Fs, Found))
    requires fs.bm.Safe() && ino in fs.inodes && InodeShape(fs.inodes[ino]) && fs.inodes[ino].indir.Some? && j < NINDIRECT
  {
    var nd := fs.inodes[ino];
    var t := nd.indir.value;
    if t[j] != 0 then (fs, Block(t[j]))
    else if !alloc then (fs, Block(0))
    else
      var (no, fs1) := TakeBlock(fs);
      if no < 0 then (fs, Panic) else (SetInode(fs1, ino, nd.(indir := Some(t[j := no]), mapped := NDIRECT + j + 1)), Block(no))
  }

  /** efs_i_bmap: the physical block of logical block `l`. */
  function Bmap(fs: Fs, ino: nat, l: nat, alloc: bool): (r: (Fs, Found))
    requires fs.bm.Safe() && ino in fs.inodes && InodeShape(fs.inodes[ino])
  {
    if l < NDIRECT then BmapDirect(fs, ino, l, alloc)
    else if l >= MAXFILE then (fs, Block(0))
    else if fs.inodes[ino].addrs[NDIRECT] == 0 && !alloc then (fs, Block(0))
    else
      var (fs1, t) := NeedTable(fs, ino);
      if t.Panic? then (fs, Panic)
      else
        B.AllocSafe(fs.bm);
        UseEntry(LoadTable(fs1, ino), ino, l - NDIRECT, alloc)
  }
}
