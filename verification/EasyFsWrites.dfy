/** Files as byte sequences: what efs_i_read and efs_i_write compute. */
module EasyFsWrites {
  import opened Basics
  import B = Bitmap
  import W = Word64
  import opened EasyFs
  import opened EasyFsProofs
  import opened EasyFsFree

  /** The number of blocks that hold `n` bytes. */
  function BlocksFor(n: nat): nat { (n + BLOCK - 1) / BLOCK }

  /** The byte sequence a file stands for. */
  function Contents(fs: Fs, i: nat): (s: seq<Byte>)
    requires i in fs.inodes
    ensures |s| == fs.inodes[i].size
  {
    seq(fs.inodes[i].size, p requires 0 <= p < fs.inodes[i].size => FileByte(fs, i, p))
  }

  /** Every byte below the size has a block: kept for regular files. */
  predicate Covered(fs: Fs, i: nat)
    requires i in fs.inodes
  {
    fs.inodes[i].size <= BLOCK * fs.inodes[i].mapped
  }

  /** `s` with `d` written at `off`, extending it where `d` runs past the end. */
  function Overwrite(s: seq<Byte>, off: nat, d: seq<Byte>): (r: seq<Byte>)
    requires off <= |s|
    ensures |r| == Max(|s|, off + |d|)
  {
    s[..off] + d + (if off + |d| < |s| then s[off + |d|..] else [])
  }

  // ---- a write in progress ----

  /** The bytes of `data` up to position `pos` have arrived in file `ino`; nothing else that
      a file, or the metadata, holds has changed. */
  ghost predicate Written(fs0: Fs, fs: Fs, ino: nat, off: nat, pos: nat, data: seq<Byte>) {
    && off <= pos <= off + |data|
    && (forall i, p :: i in fs0.inodes && 0 <= p < BLOCK * fs0.inodes[i].mapped && !(i == ino && off <= p < pos)
          ==> FileByte(fs, i, p) == FileByte(fs0, i, p))
    && (forall p :: off <= p < pos ==> FileByte(fs, ino, p) == data[p - off])
  }

  ghost predicate Grown(fs0: Fs, fs: Fs, ino: nat, pos: nat) {
    && fs.area == fs0.area && FreeKept(fs0, fs)
    && fs.inodes.Keys == fs0.inodes.Keys && ino in fs0.inodes
    && (forall i :: i in fs0.inodes && i != ino ==> fs.inodes[i] == fs0.inodes[i])
    && (var nd, nd0 := fs.inodes[ino], fs0.inodes[ino];
        && nd == nd0.(addrs := nd.addrs, indir := nd.indir, mapped := nd.mapped, size := nd.size)
        && nd.mapped == Max(nd0.mapped, BlocksFor(pos))
        && fs.blockFree == fs0.blockFree - (Owned(nd.mapped) - Owned(nd0.mapped)))
    && (forall b :: 0 <= b < fs.area && b < |fs.disk| ==> fs.disk[b] == fs0.disk[b])
    && TabsKept(fs0, fs, ino)
  }

  /** The blocks of other files' tables hold what they held. */
  ghost predicate TabsKept(fs0: Fs, fs: Fs, ino: nat) {
    |fs.disk| == |fs0.disk| && forall j :: j != ino && 0 < At(fs0, j, Tab) < |fs.disk| ==> fs.disk[At(fs0, j, Tab)] == fs0.disk[At(fs0, j, Tab)]
  }

  lemma StepTabs(fs0: Fs, fs: Fs, fs1: Fs, ino: nat, l: nat, blk: seq<Byte>)
    requires Grown(fs0, fs, ino, l) && Mapped(fs, fs1, ino, l / BLOCK) && l / BLOCK < MAXFILE && At(fs1, ino, SlotOf(l / BLOCK)) < |fs1.disk|
    ensures TabsKept(fs0, fs1.(disk := fs1.disk[At(fs1, ino, SlotOf(l / BLOCK)) := blk]), ino)
  {
    hide FsOk, At, FreeKept;
    var b := At(fs1, ino, SlotOf(l / BLOCK));
    forall j: nat | j != ino && At(fs0, j, Tab) != 0 ensures At(fs0, j, Tab) != b {
      TabSame(fs0, fs1, j);
      NotTab(fs1, ino, SlotOf(l / BLOCK), j);
    }
  }

  lemma NotTab(fs: Fs, i: nat, s: Slot, j: nat)
    requires FsOk(fs) && s != Tab && At(fs, i, s) != 0
    ensures At(fs, j, Tab) != At(fs, i, s)
  {
    hide FsOk, At;
    if At(fs, j, Tab) == At(fs, i, s) { DistinctSlot(fs, i, s, j, Tab); }
  }

  /** Where the table is does not depend on the disk. */
  lemma TabSame(fs0: Fs, fs1: Fs, j: nat)
    requires j in fs0.inodes <==> j in fs1.inodes
    requires j in fs0.inodes ==> fs1.inodes[j] == fs0.inodes[j]
    ensures At(fs1, j, Tab) == At(fs0, j, Tab)
  {
  }

  lemma TabsTrans(fs0: Fs, fs1: Fs, fs2: Fs, ino: nat)
    requires TabsKept(fs0, fs1, ino) && TabsKept(fs1, fs2, ino) && fs1.inodes.Keys == fs0.inodes.Keys
    requires forall i :: i in fs0.inodes && i != ino ==> fs1.inodes[i] == fs0.inodes[i]
    ensures TabsKept(fs0, fs2, ino)
  {
    hide At;
    forall j: nat | j != ino ensures At(fs1, j, Tab) == At(fs0, j, Tab) { TabSame(fs0, fs1, j); }
  }

  lemma StepBytes(fs0: Fs, fs: Fs, fs1: Fs, fs2: Fs, ino: nat, off: nat, pos: nat, data: seq<Byte>, m: nat, b: nat)
    requires off <= pos && pos + m <= off + |data| && pos % BLOCK + m <= BLOCK && pos / BLOCK < MAXFILE
    requires 0 < b < |fs1.disk| && |fs1.disk[b]| == BLOCK && b == At(fs1, ino, SlotOf(pos / BLOCK))
    requires fs2 == Store(fs1, b, pos % BLOCK, data[pos - off..pos - off + m])
    requires ino in fs0.inodes && fs0.inodes.Keys == fs.inodes.Keys && pos <= BLOCK * fs.inodes[ino].mapped
    requires forall i :: i in fs0.inodes ==> fs0.inodes[i].mapped <= fs.inodes[i].mapped
    requires FsOk(fs) && FsOk(fs1)
    requires Written(fs0, fs, ino, off, pos, data) && Mapped(fs, fs1, ino, pos / BLOCK)
    ensures Written(fs0, fs2, ino, off, pos + m, data)
  {
    hide FsOk, At, Mapped, FileByte, Splice;
    var l, o, d := pos / BLOCK, pos % BLOCK, data[pos - off..pos - off + m];
    forall i: nat, p: nat | i in fs0.inodes && 0 <= p < BLOCK * fs0.inodes[i].mapped && !(i == ino && off <= p < pos + m)
      ensures FileByte(fs2, i, p) == FileByte(fs0, i, p)
    {
      MappedByte(fs, fs1, ino, l, i, p);
      StoreByte(fs1, ino, l, o, d, i, p);
    }
    forall p: nat | off <= p < pos + m ensures FileByte(fs2, ino, p) == data[p - off] {
      StoreByte(fs1, ino, l, o, d, ino, p);
      if p < pos { MappedByte(fs, fs1, ino, l, ino, p); }
    }
  }

  lemma BlocksStep(pos: nat, m: nat)
    requires 0 < m && pos % BLOCK + m <= BLOCK
    ensures BlocksFor(pos + m) == pos / BLOCK + 1
  {
  }

  lemma StepGrown(fs0: Fs, fs: Fs, fs1: Fs, ino: nat, pos: nat, m: nat, b: nat, blk: seq<Byte>)
    requires Grown(fs0, fs, ino, pos) && Mapped(fs, fs1, ino, pos / BLOCK) && 0 < m && pos % BLOCK + m <= BLOCK
    requires fs.area <= b < |fs1.disk| && pos <= BLOCK * fs.inodes[ino].mapped && FreeKept(fs1, fs1.(disk := fs1.disk[b := blk]))
    requires pos / BLOCK < MAXFILE && b == At(fs1, ino, SlotOf(pos / BLOCK))
    ensures Grown(fs0, fs1.(disk := fs1.disk[b := blk]), ino, pos + m)
  {
    hide At, FsOk, FreeKept, TabsKept;
    StepTabs(fs0, fs, fs1, ino, pos, blk);
    FreeKeptTrans(fs0, fs, fs1);
    FreeKeptTrans(fs0, fs1, fs1.(disk := fs1.disk[b := blk]));
    SameLength(fs, fs1);
    BlocksStep(pos, m);
    assert BlocksFor(pos) <= pos / BLOCK + 1;
  }

  /** What efs_i_read returns: clamped to the size, and to the mapped blocks. */
  function ReadLen(nd: Inode, offset: nat, len: nat): nat {
    if offset > nd.size || offset + len >= TWO32 then 0
    else Min(Min(len, nd.size - offset), if BLOCK * nd.mapped > offset then BLOCK * nd.mapped - offset else 0)
  }

  predicate Refused(nd: Inode, offset: nat, len: nat) {
    offset > nd.size || offset + len >= TWO32 || offset + len > MAXFILE * BLOCK
  }

  /** The blocks a write up to byte `end` has to take. */
  function Need(nd: Inode, end: nat): int {
    Owned(Max(nd.mapped, BlocksFor(end))) - Owned(nd.mapped)
  }

  lemma Reflexive(fs: Fs, ino: nat)
    requires ino in fs.inodes
    ensures Same(fs, fs, ino)
  {
    hide At;
  }

  lemma SameTrans(fs0: Fs, fs1: Fs, fs2: Fs, ino: nat)
    requires Same(fs0, fs1, ino) && Same(fs1, fs2, ino)
    ensures Same(fs0, fs2, ino)
  {
    hide At;
  }

  lemma Usable(fs: Fs, ino: nat)
    requires FsOk(fs) && ino in fs.inodes
    ensures fs.bm.Safe() && InodeShape(fs.inodes[ino]) && fs.bm.size <= |fs.disk| && fs.inodes[ino].mapped <= MAXFILE
  {
    hide At;
    assert PrefixOk(fs, ino);
  }

  lemma LookupFacts(fs: Fs, ino: nat, l: nat)
    requires FsOk(fs) && ino in fs.inodes
    ensures fs.inodes[ino].mapped <= MAXFILE
    ensures l < fs.inodes[ino].mapped <==> (if l < MAXFILE then At(fs, ino, SlotOf(l)) else 0) != 0
    ensures l < fs.inodes[ino].mapped ==> At(fs, ino, SlotOf(l)) < |fs.disk| && |fs.disk[At(fs, ino, SlotOf(l))]| == BLOCK
  {
    hide At;
    assert PrefixOk(fs, ino);
  }

  lemma SameBlock(fs: Fs, ino: nat, pos: nat, d: nat)
    requires pos % BLOCK + d < BLOCK
    requires 0 < At(fs, ino, SlotOf(pos / BLOCK)) < |fs.disk| && |fs.disk[At(fs, ino, SlotOf(pos / BLOCK))]| == BLOCK
    ensures fs.disk[At(fs, ino, SlotOf(pos / BLOCK))][pos % BLOCK + d] == FileByte(fs, ino, pos + d)
  {
    hide At;
    assert (pos + d) / BLOCK == pos / BLOCK && (pos + d) % BLOCK == pos % BLOCK + d;
  }

  /** `n` bytes of the file from position `pos` on. */
  function Slice(fs: Fs, ino: nat, pos: nat, n: nat): (r: seq<Byte>)
    ensures |r| == n
  {
    if n == 0 then [] else Slice(fs, ino, pos, n - 1) + [FileByte(fs, ino, pos + n - 1)]
  }

  lemma {:induction false} SliceMore(fs: Fs, ino: nat, pos: nat, n: nat, m: nat)
    ensures Slice(fs, ino, pos, n) + Slice(fs, ino, pos + n, m) == Slice(fs, ino, pos, n + m)
    decreases m
  {
    hide FileByte;
    if m > 0 { SliceMore(fs, ino, pos, n, m - 1); }
  }

  lemma {:induction false} SliceAt(fs: Fs, ino: nat, pos: nat, n: nat, k: nat)
    requires k < n
    ensures Slice(fs, ino, pos, n)[k] == FileByte(fs, ino, pos + k)
    decreases n
  {
    hide FileByte;
    if k < n - 1 { SliceAt(fs, ino, pos, n - 1, k); }
  }

  /** One round of the read loop: the bytes of the block of the position, or none. */
  lemma ReadRound(fs0: Fs, fs: Fs, ino: nat, pos: nat, m: nat)
    requires FsOk(fs0) && FsOk(fs) && Same(fs0, fs, ino) && pos % BLOCK + m <= BLOCK
    ensures Ready(fs, ino) && fs.disk == fs0.disk && ino in fs0.inodes
    ensures var (fs1, r) := Bmap(fs, ino, pos / BLOCK, false);
            && FsOk(fs1) && Same(fs0, fs1, ino) && r.Block?
            && (r.bno == 0 <==> pos / BLOCK >= fs0.inodes[ino].mapped)
            && (r.bno != 0 ==>
                  r.bno < |fs.disk| && |fs.disk[r.bno]| == BLOCK && fs.disk[r.bno][pos % BLOCK..pos % BLOCK + m] == Slice(fs0, ino, pos, m))
  {
    hide FsOk, At, FileByte, Bmap, SlotOf;
    Usable(fs, ino);
    BmapLookup(fs, ino, pos / BLOCK);
    var (fs1, r) := Bmap(fs, ino, pos / BLOCK, false);
    SameTrans(fs0, fs, fs1, ino);
    LookupFacts(fs0, ino, pos / BLOCK);
    if r.bno != 0 {
      var x, y := fs.disk[r.bno][pos % BLOCK..pos % BLOCK + m], Slice(fs0, ino, pos, m);
      forall d: nat | d < m ensures x[d] == y[d] { SameBlock(fs0, ino, pos, d); SliceAt(fs0, ino, pos, m, d); }
    }
  }

  lemma FreeSame(words: seq<W.Word>, words': seq<W.Word>, lo: nat, hi: nat)
    requires 0 < lo <= hi <= 64 * |words| && |words'| == |words| && B.AllSet(words, 1, lo)
    requires B.Free(words', 1, hi) == B.Free(words, 1, hi)
    ensures B.AllSet(words', 1, lo)
  {
    forall k: nat | 1 <= k < lo ensures B.Bit(words', k) {
      assert k !in B.Free(words, 1, hi);
      assert k !in B.Free(words', 1, hi);
    }
  }

  /** A finished write: its range, the size, and nothing else. */
  ghost predicate After(fs0: Fs, fs: Fs, ino: nat, off: nat, data: seq<Byte>) {
    && Grown(fs0, fs, ino, off + |data|) && Written(fs0, fs, ino, off, off + |data|, data)
    && fs.inodes[ino].size == Max(fs0.inodes[ino].size, off + |data|)
  }

  lemma WriteStart(fs: Fs, ino: nat, off: nat, data: seq<Byte>)
    requires ino in fs.inodes && off <= BLOCK * fs.inodes[ino].mapped && fs.bm.Safe() && fs.bm.size <= |fs.disk|
    ensures Grown(fs, fs, ino, off) && Written(fs, fs, ino, off, off, data)
  {
    hide FileByte, Owned;
    assert BlocksFor(off) <= fs.inodes[ino].mapped;
  }

  lemma OwnedGrows(m: nat, n: nat)
    requires m <= n
    ensures Owned(m) <= Owned(n)
  {
  }

  /** One call of efs_i_bmap in the write loop. */
  lemma WriteMap(fs0: Fs, fs: Fs, ino: nat, pos: nat, end: nat)
    requires FsOk(fs) && fs.bm.Safe() && Grown(fs0, fs, ino, pos) && ino in fs.inodes && InodeShape(fs.inodes[ino])
    requires pos < end <= MAXFILE * BLOCK && (end > NDIRECT * BLOCK ==> NextTableZero(fs, ino))
    ensures var (fs1, r) := Bmap(fs, ino, pos / BLOCK, true);
            && (r == Panic ==> fs0.blockFree < Need(fs0.inodes[ino], end))
            && (r != Panic ==>
                  && Mapped(fs, fs1, ino, pos / BLOCK) && r == Block(At(fs1, ino, SlotOf(pos / BLOCK))) && r.bno != 0
                  && fs.area <= r.bno < |fs1.disk| && |fs1.disk[r.bno]| == BLOCK
                  && FsOk(fs1) && fs1.bm.Safe()
                  && fs1.inodes.Keys == fs.inodes.Keys && fs1.inodes[ino].size == fs.inodes[ino].size)
  {
    hide FsOk, At, Bmap, NextTableZero, Owned, Grown;
    var l := pos / BLOCK;
    GrownFacts(fs0, fs, ino, pos);
    assert l <= fs.inodes[ino].mapped && l < BlocksFor(end);
    BmapAlloc(fs, ino, l);
    BmapPanics(fs, ino, l);
    var (fs1, r) := Bmap(fs, ino, l, true);
    if r == Panic {
      OwnedGrows(l + 1, Max(fs0.inodes[ino].mapped, BlocksFor(end)));
    } else {
      Usable(fs1, ino);
      DataBlock(fs1, ino, SlotOf(l));
    }
  }

  lemma GrownFacts(fs0: Fs, fs: Fs, ino: nat, pos: nat)
    requires Grown(fs0, fs, ino, pos)
    ensures ino in fs.inodes && fs.inodes[ino].mapped == Max(fs0.inodes[ino].mapped, BlocksFor(pos))
    ensures fs.blockFree == fs0.blockFree - (Owned(fs.inodes[ino].mapped) - Owned(fs0.inodes[ino].mapped))
    ensures fs0.inodes.Keys == fs.inodes.Keys && forall i :: i in fs0.inodes ==> fs0.inodes[i].mapped <= fs.inodes[i].mapped
    ensures fs.area == fs0.area && pos <= BLOCK * fs.inodes[ino].mapped
  {
  }

  lemma DataBlock(fs: Fs, ino: nat, s: Slot)
    requires FsOk(fs) && At(fs, ino, s) != 0
    ensures fs.area <= At(fs, ino, s) < |fs.disk| && |fs.disk[At(fs, ino, s)]| == BLOCK
  {
    hide At;
  }

  /** One round of the write loop. */
  lemma WriteStep(fs0: Fs, fs: Fs, fs1: Fs, fs2: Fs, ino: nat, off: nat, pos: nat, data: seq<Byte>, m: nat, b: nat)
    requires off <= pos && pos + m <= off + |data| && pos % BLOCK + m <= BLOCK && pos / BLOCK < MAXFILE && 0 < m
    requires 0 < b < |fs1.disk| && |fs1.disk[b]| == BLOCK && b == At(fs1, ino, SlotOf(pos / BLOCK)) && fs.area <= b
    requires fs2 == Store(fs1, b, pos % BLOCK, data[pos - off..pos - off + m])
    requires FsOk(fs) && FsOk(fs1) && fs.bm.Safe() && fs1.bm.Safe() && ino in fs.inodes
    requires Grown(fs0, fs, ino, pos) && Written(fs0, fs, ino, off, pos, data) && Mapped(fs, fs1, ino, pos / BLOCK)
    ensures FsOk(fs2) && fs2.bm == fs1.bm && |fs2.disk| == |fs1.disk| && ino in fs2.inodes
    ensures NextTableZero(fs, ino) ==> NextTableZero(fs2, ino)
    ensures Grown(fs0, fs2, ino, pos + m) && Written(fs0, fs2, ino, off, pos + m, data)
  {
    hide FsOk, At, FreeKept, Written, Mapped, Grown, Splice, NextTableZero;
    GrownFacts(fs0, fs, ino, pos);
    StoreOk(fs1, ino, pos / BLOCK, pos % BLOCK, data[pos - off..pos - off + m]);
    StepBytes(fs0, fs, fs1, fs2, ino, off, pos, data, m, b);
    StepGrown(fs0, fs, fs1, ino, pos, m, b, fs2.disk[b]);
    TableStays(fs, fs1, fs2, ino, pos / BLOCK);
  }

  lemma SameLength(fs: Fs, fs1: Fs)
    requires FreeKept(fs, fs1)
    ensures |fs1.disk| == |fs.disk|
  {
  }

  /** The block that is to become the table stays the same and stays zero. */
  lemma TableStays(fs: Fs, fs1: Fs, fs2: Fs, ino: nat, l: nat)
    requires FsOk(fs) && fs.bm.Safe() && ino in fs.inodes && Mapped(fs, fs1, ino, l) && l <= fs.inodes[ino].mapped
    requires FreeKept(fs1, fs2) && fs2.bm == fs1.bm && fs2.inodes == fs1.inodes
    ensures ino in fs2.inodes && (NextTableZero(fs, ino) ==> NextTableZero(fs2, ino))
  {
    hide At, Shape, Taken, Distinct, Prefixes, B.Alloc, Zeroed;
    var m := fs2.inodes[ino].mapped;
    if m <= NDIRECT && NextTableZero(fs, ino) {
      var b := NthFree(fs2.bm, NDIRECT - m);
      assert b == NthFree(fs.bm, NDIRECT - fs.inodes[ino].mapped);
      NthFreeIs(fs2.bm, NDIRECT - m);
    }
  }

  /** Setting the size at the end touches no block. */
  lemma WriteEnd(fs0: Fs, fs: Fs, ino: nat, off: nat, data: seq<Byte>)
    requires FsOk(fs) && fs.bm.Safe()
    requires Grown(fs0, fs, ino, off + |data|) && Written(fs0, fs, ino, off, off + |data|, data) && fs.inodes[ino].size == fs0.inodes[ino].size
    ensures fs0.blockFree >= Need(fs0.inodes[ino], off + |data|)
    ensures var fs1 := SetInode(fs, ino, fs.inodes[ino].(size := Max(fs.inodes[ino].size, off + |data|)));
            && FsOk(fs1) && After(fs0, fs1, ino, off, data) && fs1.bm == fs.bm
            && (ino in fs.inodes && NextTableZero(fs, ino) ==> NextTableZero(fs1, ino))
  {
    hide FsOk, At, FileByte;
    var nd := fs.inodes[ino].(size := Max(fs.inodes[ino].size, off + |data|));
    MetaOk(fs, ino, nd);
    forall i: nat, p: nat ensures FileByte(SetInode(fs, ino, nd), i, p) == FileByte(fs, i, p) { MetaByte(fs, ino, nd, i, p); }
  }

  /** `nd` and `nd'` differ in type, size, link or reference count only. */
  predicate MetaOnly(nd: Inode, nd': Inode) { nd' == nd.(kind := nd'.kind, size := nd'.size, nlink := nd'.nlink, refcnt := nd'.refcnt) }

  lemma MetaAt(fs: Fs, ino: nat, nd: Inode, i: nat, s: Slot)
    requires ino in fs.inodes && MetaOnly(fs.inodes[ino], nd)
    ensures At(SetInode(fs, ino, nd), i, s) == At(fs, i, s)
  {
  }

  lemma MetaByte(fs: Fs, ino: nat, nd: Inode, i: nat, p: nat)
    requires ino in fs.inodes && MetaOnly(fs.inodes[ino], nd)
    ensures FileByte(SetInode(fs, ino, nd), i, p) == FileByte(fs, i, p)
  {
    hide At;
    MetaAt(fs, ino, nd, i, SlotOf(p / BLOCK));
  }

  /** They play no part in the block map. */
  lemma MetaOk(fs: Fs, ino: nat, nd: Inode)
    requires FsOk(fs) && ino in fs.inodes && MetaOnly(fs.inodes[ino], nd)
    ensures FsOk(SetInode(fs, ino, nd)) && fs.blockFree >= 0
  {
    hide At;
    var fs1 := SetInode(fs, ino, nd);
    forall i, s ensures At(fs1, i, s) == At(fs, i, s) { MetaAt(fs, ino, nd, i, s); }
    forall i | i in fs1.inodes ensures PrefixOk(fs1, i) { assert PrefixOk(fs, i); }
  }

  function EmptyInode(kind: nat, dev: nat): Inode { Inode(kind, dev, 0, seq(NDIRECT + 1, (i: nat) => 0 as nat), None, 1, 0, 0) }

  lemma NewAt(fs: Fs, ino: nat, kind: nat, dev: nat, i: nat, s: Slot)
    requires ino !in fs.inodes
    ensures At(SetInode(fs, ino, EmptyInode(kind, dev)), i, s) == At(fs, i, s)
  {
  }

  /** A new inode records no block. */
  lemma NewOk(fs: Fs, ino: nat, kind: nat, dev: nat)
    requires ino !in fs.inodes && FsOk(fs)
    ensures FsOk(SetInode(fs, ino, EmptyInode(kind, dev)))
  {
    hide At, PrefixOk;
    var fs1 := SetInode(fs, ino, EmptyInode(kind, dev));
    forall i, s ensures At(fs1, i, s) == At(fs, i, s) { NewAt(fs, ino, kind, dev, i, s); }
    forall i | i in fs1.inodes ensures PrefixOk(fs1, i) {
      if i != ino { PrefixSame(fs, fs1, i); } else { EmptyPrefix(fs1, ino, kind, dev); }
    }
  }

  lemma EmptyPrefix(fs: Fs, ino: nat, kind: nat, dev: nat)
    requires ino in fs.inodes && fs.inodes[ino] == EmptyInode(kind, dev)
    ensures PrefixOk(fs, ino)
  {
  }

  lemma NewByte(fs: Fs, ino: nat, dev: nat, i: nat, p: nat)
    requires ino !in fs.inodes
    ensures FileByte(SetInode(fs, ino, EmptyInode(0, dev)), i, p) == FileByte(fs, i, p)
  {
    hide At;
    NewAt(fs, ino, 0, dev, i, SlotOf(p / BLOCK));
  }

  lemma LookupByte(fs: Fs, fs': Fs, ino: nat, j: nat, p: nat)
    requires Same(fs, fs', ino)
    ensures FileByte(fs', j, p) == FileByte(fs, j, p)
  {
    hide At;
  }

  // ---- efs_i_write as a function ----

  datatype Outcome = Stopped | Returned(n: int)

  /** What efs_i_bmap needs to run at all. */
  predicate Ready(fs: Fs, ino: nat) { fs.bm.Safe() && ino in fs.inodes && InodeShape(fs.inodes[ino]) }

  lemma BmapReady(fs: Fs, ino: nat, l: nat, alloc: bool)
    requires Ready(fs, ino)
    ensures Ready(Bmap(fs, ino, l, alloc).0, ino) && Bmap(fs, ino, l, alloc).0.disk == fs.disk
  {
    hide B.Alloc, Table;
    B.AllocSafe(fs.bm);
    B.AllocSafe(B.Alloc(fs.bm).1);
  }

  /** The bytes of one round of the loop. */
  function Chunk(pos: nat, n: nat): (m: nat)
    requires n > 0
    ensures 0 < m <= n && pos % BLOCK + m <= BLOCK
  {
    Min(n, BLOCK - pos % BLOCK)
  }

  /** Where the write loop ends: the state, the position, and whether it stopped the kernel. */
  datatype Progress = Progress(fs: Fs, pos: nat, stopped: bool)

  /** The loop of efs_i_write; a block number outside the device stops it. */
  function WriteLoop(fs: Fs, ino: nat, pos: nat, data: seq<Byte>): (p: Progress)
    requires Ready(fs, ino)
    ensures Ready(p.fs, ino)
    decreases |data|
  {
    if data == [] then Progress(fs, pos, false)
    else
      BmapReady(fs, ino, pos / BLOCK, true);
      var (fs1, b) := Bmap(fs, ino, pos / BLOCK, true);
      if b.Panic? then Progress(fs1, pos, true)
      else if b.bno == 0 then Progress(fs1, pos, false)
      else if b.bno >= |fs1.disk| || |fs1.disk[b.bno]| != BLOCK then Progress(fs1, pos, true)
      else
        var m := Chunk(pos, |data|);
        WriteLoop(Store(fs1, b.bno, pos % BLOCK, data[..m]), ino, pos + m, data[m..])
  }

  /** efs_i_write */
  function WriteAll(fs: Fs, ino: nat, off: nat, data: seq<Byte>): (r: (Fs, Outcome))
    requires Ready(fs, ino)
    ensures Ready(r.0, ino)
  {
    if Refused(fs.inodes[ino], off, |data|) then (fs, Returned(-1))
    else
      var p := WriteLoop(fs, ino, off, data);
      if p.stopped then (p.fs, Stopped)
      else (SetInode(p.fs, ino, p.fs.inodes[ino].(size := Max(p.fs.inodes[ino].size, p.pos))), Returned(p.pos - off))
  }

  /** One round of the loop. */
  lemma LoopRound(fs: Fs, ino: nat, pos: nat, data: seq<Byte>)
    requires Ready(fs, ino) && data != []
    ensures Ready(Bmap(fs, ino, pos / BLOCK, true).0, ino)
    ensures var (fs1, b) := Bmap(fs, ino, pos / BLOCK, true);
            var m := Chunk(pos, |data|);
            WriteLoop(fs, ino, pos, data) ==
            if b.Panic? || (b.bno != 0 && (b.bno >= |fs1.disk| || |fs1.disk[b.bno]| != BLOCK)) then Progress(fs1, pos, true)
            else if b.bno == 0 then Progress(fs1, pos, false)
            else WriteLoop(Store(fs1, b.bno, pos % BLOCK, data[..m]), ino, pos + m, data[m..])
  {
    hide Bmap, Ready;
    BmapReady(fs, ino, pos / BLOCK, true);
  }

  lemma LoopEnd(fs: Fs, ino: nat, pos: nat, data: seq<Byte>)
    requires Ready(fs, ino) && data == []
    ensures WriteLoop(fs, ino, pos, data) == Progress(fs, pos, false)
  {
  }

  lemma WriteRefused(fs: Fs, ino: nat, off: nat, data: seq<Byte>)
    requires Ready(fs, ino)
    ensures Refused(fs.inodes[ino], off, |data|) ==> WriteAll(fs, ino, off, data) == (fs, Returned(-1))
    ensures !Refused(fs.inodes[ino], off, |data|) && WriteLoop(fs, ino, off, data).stopped ==>
              WriteAll(fs, ino, off, data) == (WriteLoop(fs, ino, off, data).fs, Stopped)
  {
    hide WriteLoop, InodeShape;
  }

  lemma WriteAllIs(fs0: Fs, fs: Fs, ino: nat, off: nat, data: seq<Byte>, pos: nat)
    requires Ready(fs0, ino) && !Refused(fs0.inodes[ino], off, |data|) && WriteLoop(fs0, ino, off, data) == Progress(fs, pos, false)
    ensures ino in fs.inodes
    ensures WriteAll(fs0, ino, off, data).1 == Returned(pos - off)
    ensures WriteAll(fs0, ino, off, data).0 == if pos > fs.inodes[ino].size then SetInode(fs, ino, fs.inodes[ino].(size := pos)) else fs
  {
    hide WriteLoop, InodeShape;
    assert fs.inodes == fs.inodes[ino := fs.inodes[ino]];
  }

  lemma StoreIs(fs: Fs, b: nat, o: nat, d: seq<Byte>)
    requires b < |fs.disk| && |fs.disk[b]| == BLOCK && o + |d| <= BLOCK
    ensures Store(fs, b, o, d) == fs.(disk := fs.disk[b := Splice(fs.disk[b], o, d)])
  {
  }

  /** What a caller can check before a write: the offset is not beyond the mapped blocks,
      and, if the 13th block will be reached, the block to become the table is zero. */
  predicate WriteReady(fs: Fs, ino: nat, off: nat, len: nat)
    requires Ready(fs, ino)
  {
    !Refused(fs.inodes[ino], off, len) ==>
      off <= BLOCK * fs.inodes[ino].mapped && (off + len > NDIRECT * BLOCK ==> NextTableZero(fs, ino))
  }

  /** The loop from position `pos` on. */
  lemma {:induction false} WriteLoopOk(fs0: Fs, fs: Fs, ino: nat, off: nat, pos: nat, data: seq<Byte>)
    requires off <= pos <= off + |data| <= MAXFILE * BLOCK && FsOk(fs) && Ready(fs, ino)
    requires Grown(fs0, fs, ino, pos) && Written(fs0, fs, ino, off, pos, data) && fs.inodes[ino].size == fs0.inodes[ino].size
    requires off + |data| > NDIRECT * BLOCK ==> NextTableZero(fs, ino)
    ensures var p := WriteLoop(fs, ino, pos, data[pos - off..]);
            && (p.stopped <==> fs0.blockFree < Need(fs0.inodes[ino], off + |data|))
            && (!p.stopped ==>
                  && p.pos == off + |data| && FsOk(p.fs) && Grown(fs0, p.fs, ino, p.pos) && Written(fs0, p.fs, ino, off, p.pos, data)
                  && p.fs.inodes[ino].size == fs0.inodes[ino].size && (NextTableZero(fs, ino) ==> NextTableZero(p.fs, ino)))
    decreases off + |data| - pos
  {
    hide FsOk, At, Bmap, NextTableZero, Written, Splice, Mapped, Grown, Need, SlotOf, FileByte;
    var rest := data[pos - off..];
    if pos == off + |data| {
      NeedMet(fs0, fs, ino, pos);
    } else {
      WriteMap(fs0, fs, ino, pos, off + |data|);
      BmapReady(fs, ino, pos / BLOCK, true);
      var (fs1, b) := Bmap(fs, ino, pos / BLOCK, true);
      if b != Panic {
        var m := Chunk(pos, |rest|);
        assert rest[..m] == data[pos - off..pos - off + m] && rest[m..] == data[pos + m - off..];
        var fs2 := Store(fs1, b.bno, pos % BLOCK, rest[..m]);
        WriteStep(fs0, fs, fs1, fs2, ino, off, pos, data, m, b.bno);
        WriteLoopOk(fs0, fs2, ino, off, pos + m, data);
      }
    }
  }

  lemma NeedMet(fs0: Fs, fs: Fs, ino: nat, pos: nat)
    requires FsOk(fs) && Grown(fs0, fs, ino, pos)
    ensures fs0.blockFree >= Need(fs0.inodes[ino], pos)
  {
    hide At, FileByte, FreeKept;
  }

  /** efs_i_write on a consistent file system: it refuses exactly the calls out of range,
      stops exactly when the blocks it needs are not free, and otherwise does its work. */
  ghost predicate WriteOutcome(fs: Fs, ino: nat, off: nat, data: seq<Byte>, fs1: Fs, r: Outcome)
    requires Ready(fs, ino)
  {
    && (r == Returned(-1) <==> Refused(fs.inodes[ino], off, |data|)) && (r == Returned(-1) ==> fs1 == fs)
    && (r == Stopped <==> !Refused(fs.inodes[ino], off, |data|) && fs.blockFree < Need(fs.inodes[ino], off + |data|))
    && (r != Stopped && r != Returned(-1) ==>
          && r == Returned(|data|) && FsOk(fs1) && Ready(fs1, ino) && After(fs, fs1, ino, off, data)
          && (NextTableZero(fs, ino) ==> NextTableZero(fs1, ino)))
  }

  lemma WriteAllOk(fs: Fs, ino: nat, off: nat, data: seq<Byte>)
    requires FsOk(fs) && Ready(fs, ino) && WriteReady(fs, ino, off, |data|)
    ensures WriteOutcome(fs, ino, off, data, WriteAll(fs, ino, off, data).0, WriteAll(fs, ino, off, data).1)
  {
    hide FsOk, WriteLoop, NextTableZero, Written, Grown, Need, After, FileByte;
    if !Refused(fs.inodes[ino], off, |data|) {
      Usable(fs, ino);
      WriteStart(fs, ino, off, data);
      assert data[off - off..] == data;
      WriteLoopOk(fs, fs, ino, off, off, data);
      var p := WriteLoop(fs, ino, off, data);
      if !p.stopped { WriteEnd(fs, p.fs, ino, off, data); }
    }
  }
}
