/** What single operations of easyfs do to files as byte sequences. */
module EasyFsTheorems {
  import opened Basics
  import B = Bitmap
  import opened EasyFs
  import opened EasyFsProofs
  import opened EasyFsFree
  import opened EasyFsWrites
  import opened EasyFsSync

  /** A successful write replaces or extends exactly its range of its own file and leaves
      every other file as it was. */
  lemma WriteContents(fs0: Fs, fs: Fs, ino: nat, off: nat, data: seq<Byte>)
    requires After(fs0, fs, ino, off, data) && Covered(fs0, ino) && off <= fs0.inodes[ino].size
    ensures fs.inodes.Keys == fs0.inodes.Keys && ino in fs.inodes && Covered(fs, ino)
    ensures Contents(fs, ino) == Overwrite(Contents(fs0, ino), off, data)
    ensures forall i :: i in fs0.inodes && i != ino && Covered(fs0, i) ==> Covered(fs, i) && Contents(fs, i) == Contents(fs0, i)
  {
    hide Written, Contents, Covered, Overwrite, BlocksFor, Owned;
    WriteOwn(fs0, fs, ino, off, data);
    forall i | i in fs0.inodes && i != ino && Covered(fs0, i) ensures Covered(fs, i) && Contents(fs, i) == Contents(fs0, i) {
      WriteOther(fs0, fs, ino, off, data, i);
    }
  }

  lemma WriteOwn(fs0: Fs, fs: Fs, ino: nat, off: nat, data: seq<Byte>)
    requires After(fs0, fs, ino, off, data) && Covered(fs0, ino) && off <= fs0.inodes[ino].size
    ensures fs.inodes.Keys == fs0.inodes.Keys && Covered(fs, ino) && Contents(fs, ino) == Overwrite(Contents(fs0, ino), off, data)
  {
    hide FileByte, Overwrite, Owned;
    GrownFacts(fs0, fs, ino, off + |data|);
    var s, w := Contents(fs, ino), Overwrite(Contents(fs0, ino), off, data);
    forall p: nat | p < |s| ensures s[p] == w[p] { OverwriteAt(Contents(fs0, ino), off, data, p); }
  }

  lemma WriteOther(fs0: Fs, fs: Fs, ino: nat, off: nat, data: seq<Byte>, i: nat)
    requires After(fs0, fs, ino, off, data) && i in fs0.inodes && i != ino && Covered(fs0, i)
    ensures i in fs.inodes && Covered(fs, i) && Contents(fs, i) == Contents(fs0, i)
  {
    hide FileByte, Owned, BlocksFor;
  }

  lemma OverwriteAt(s: seq<Byte>, off: nat, d: seq<Byte>, p: nat)
    requires off <= |s| && p < Max(|s|, off + |d|)
    ensures Overwrite(s, off, d)[p] == if off <= p < off + |d| then d[p - off] else s[p]
  {
  }

  /** efs_i_read returns exactly the slice clamped to the size. */
  lemma ReadContents(fs: Fs, ino: nat, off: nat, len: nat)
    requires ino in fs.inodes && Covered(fs, ino) && off <= fs.inodes[ino].size && off + len < TWO32
    ensures Slice(fs, ino, off, ReadLen(fs.inodes[ino], off, len)) == Contents(fs, ino)[off..Min(off + len, fs.inodes[ino].size)]
  {
    hide FileByte;
    var n := ReadLen(fs.inodes[ino], off, len);
    var x, y := Slice(fs, ino, off, n), Contents(fs, ino)[off..Min(off + len, fs.inodes[ino].size)];
    forall k: nat | k < n ensures x[k] == y[k] { SliceAt(fs, ino, off, n, k); }
  }

  /** Equal bytes below the size are equal contents. */
  lemma ContentsSame(fs: Fs, fs': Fs, i: nat)
    requires i in fs.inodes && i in fs'.inodes && fs'.inodes[i].size == fs.inodes[i].size
    requires forall p :: 0 <= p < fs.inodes[i].size ==> FileByte(fs', i, p) == FileByte(fs, i, p)
    ensures Contents(fs', i) == Contents(fs, i)
  {
    hide FileByte;
  }

  // ---- a reused block as table ----

  /** efs_i_bmap does not clear a block it takes for a table.  When a file gets its 13th
      block the file system stays consistent exactly when the block taken for the table
      reads as zeros; freed blocks keep their contents, so after an unlink it may not. */
  lemma StaleTable(fs: Fs, ino: nat)
    requires FsOk(fs) && ino in fs.inodes && InodeShape(fs.inodes[ino]) && fs.inodes[ino].mapped == NDIRECT && fs.blockFree >= 2
    ensures fs.bm.Safe() && 0 < TakeBlock(fs).0 < |fs.disk|
    ensures FsOk(Bmap(fs, ino, NDIRECT, true).0) <==> Zeroed(fs.disk[TakeBlock(fs).0])
  {
    hide At, FsOk, Bits, NextTableZero, Bmap, Mapped, Zeroed;
    TakeFacts(fs, ino);
    if Zeroed(fs.disk[TakeBlock(fs).0]) {
      ZeroNext(fs, ino);
      BmapAlloc(fs, ino, NDIRECT);
      BmapPanics(fs, ino, NDIRECT);
      MappedOk(fs, Bmap(fs, ino, NDIRECT, true).0, ino, NDIRECT);
    } else {
      StaleBreaks(fs, ino);
    }
  }

  lemma ZeroNext(fs: Fs, ino: nat)
    requires fs.bm.Safe() && ino in fs.inodes && fs.inodes[ino].mapped == NDIRECT && 0 < TakeBlock(fs).0 < |fs.disk|
    ensures NextTableZero(fs, ino) <==> Zeroed(fs.disk[TakeBlock(fs).0])
  {
  }

  lemma MappedOk(fs: Fs, fs': Fs, ino: nat, l: nat)
    requires Mapped(fs, fs', ino, l)
    ensures FsOk(fs')
  {
    hide At, FsOk, FreeKept;
  }

  /** A nonzero word in the new table leaves the file with a block it never asked for. */
  lemma StaleBreaks(fs: Fs, ino: nat)
    requires FsOk(fs) && ino in fs.inodes && InodeShape(fs.inodes[ino]) && fs.inodes[ino].mapped == NDIRECT && fs.blockFree >= 2 && fs.bm.Safe()
    requires 0 < TakeBlock(fs).0 < |fs.disk| && |fs.disk[TakeBlock(fs).0]| == BLOCK && !Zeroed(fs.disk[TakeBlock(fs).0])
    ensures !FsOk(Bmap(fs, ino, NDIRECT, true).0)
  {
    hide At, FsOk, Entry, Bits, Zeroed, PrefixOk;
    TableLoaded(fs, ino);
    TakeFacts(fs, ino);
    var blk := fs.disk[TakeBlock(fs).0];
    var fs2 := LoadTable(NeedTable(fs, ino).0, ino);
    TakeBlockOk(fs2);
    var (fs3, r) := UseEntry(fs2, ino, 0, true);
    assert Bmap(fs, ino, NDIRECT, true) == (fs3, r);
    var j := NonzeroEntry(blk);
    EntryIs(fs3, ino, if Entry(blk, 0) != 0 then 0 else j);
    TabIs(fs3, ino);
    if FsOk(fs3) { SlotFacts(fs3, ino, NDIRECT + j); }
  }

  lemma NonzeroEntry(blk: seq<Byte>) returns (j: nat)
    requires |blk| == BLOCK && !Zeroed(blk)
    ensures j < NINDIRECT && Entry(blk, j) != 0
  {
    var k: nat :| k < |blk| && blk[k] != 0;
    j := k / 4;
    EntryBytes(blk, j);
    assert 4 * j + k % 4 == k;
    assert ByteOf(Entry(blk, j), k % 4) == blk[k];
  }

  lemma TableLoaded(fs: Fs, ino: nat)
    requires FsOk(fs) && ino in fs.inodes && InodeShape(fs.inodes[ino]) && fs.inodes[ino].mapped == NDIRECT && fs.blockFree >= 1
    ensures var (fs1, r) := NeedTable(fs, ino);
            && r != Panic && ino in fs1.inodes && InodeShape(fs1.inodes[ino])
            && var fs2 := LoadTable(fs1, ino);
               && fs2.bm.Safe() && Bits(fs2) && fs2.blockFree == fs.blockFree - 1 && InodeShape(fs2.inodes[ino]) && fs2.inodes[ino].indir.Some?
    ensures 0 < TakeBlock(fs).0 < |fs.disk| && |fs.disk[TakeBlock(fs).0]| == BLOCK
    ensures forall j: nat :: j < NINDIRECT ==>
              LoadTable(NeedTable(fs, ino).0, ino).inodes[ino].indir.value[j] == Entry(fs.disk[TakeBlock(fs).0], j)
  {
    hide At, FsOk, Entry;
    TakeFacts(fs, ino);
    TakeBlockOk(fs);
  }

  /** Mapping the 13th block stops the kernel exactly when there is no block for the table,
      or none for the data and the new table's first word is zero: a stale word spares the
      second allocation. */
  lemma TablePanic(fs: Fs, ino: nat)
    requires FsOk(fs) && ino in fs.inodes && InodeShape(fs.inodes[ino]) && fs.inodes[ino].mapped == NDIRECT && fs.bm.Safe()
    ensures fs.blockFree >= 1 ==> 0 < TakeBlock(fs).0 < |fs.disk| && |fs.disk[TakeBlock(fs).0]| == BLOCK
    ensures Bmap(fs, ino, NDIRECT, true).1 == Panic <==>
            fs.blockFree < 1 || (fs.blockFree < 2 && Entry(fs.disk[TakeBlock(fs).0], 0) == 0)
  {
    hide At, FsOk, Entry, Bits, Zeroed, PrefixOk;
    if fs.blockFree >= 1 {
      TakeFacts(fs, ino);
      TableLoaded(fs, ino);
      TakeBlockOk(LoadTable(NeedTable(fs, ino).0, ino));
    } else {
      NoneLeft(fs, ino);
    }
  }

  lemma NoneLeft(fs: Fs, ino: nat)
    requires FsOk(fs) && ino in fs.inodes && InodeShape(fs.inodes[ino]) && fs.inodes[ino].mapped == NDIRECT && fs.bm.Safe() && fs.blockFree < 1
    ensures Bmap(fs, ino, NDIRECT, true).1 == Panic
  {
    SlotFacts(fs, ino, 0);
    TakeBlockOk(fs);
    hide At;
    assert PrefixOk(fs, ino);
    TabIs(fs, ino);
  }

  lemma TakeFacts(fs: Fs, ino: nat)
    requires FsOk(fs) && ino in fs.inodes && fs.inodes[ino].mapped == NDIRECT && fs.blockFree >= 1
    ensures fs.bm.Safe() && InodeShape(fs.inodes[ino]) && Bits(fs)
    ensures fs.inodes[ino].addrs[NDIRECT] == 0 && fs.inodes[ino].indir.None?
    ensures 0 < TakeBlock(fs).0 < |fs.disk| && |fs.disk[TakeBlock(fs).0]| == BLOCK
  {
    SlotFacts(fs, ino, 0);
    TakeBlockOk(fs);
    hide At;
  }

  /** On an image whose free blocks read as zeros every file's next table does. */
  lemma ZeroImage(fs: Fs, ino: nat)
    requires FsOk(fs) && ino in fs.inodes && fs.bm.Safe() && fs.bm.size <= |fs.disk| && FreeZero(fs)
    ensures NextTableZero(fs, ino)
  {
    hide At, Zeroed, Taken, Distinct, Prefixes, B.Alloc;
    if fs.inodes[ino].mapped <= NDIRECT { NthFreeIs(fs.bm, NDIRECT - fs.inodes[ino].mapped); }
  }

  lemma KeptZeros(fs0: Fs, fs: Fs)
    requires FreeKept(fs0, fs) && FreeZero(fs0)
    ensures FreeZero(fs)
  {
    hide Zeroed;
    forall b: nat | 0 < b < fs.bm.size && !B.Bit(fs.bm.words, b) ensures Zeroed(fs.disk[b]) {
      assert !B.Bit(fs0.bm.words, b) && fs.disk[b] == fs0.disk[b];
    }
  }

  /** After an unlink, free blocks read as zeros only if what the file held was zeros. */
  lemma UnlinkDirties(fs: Fs, fs': Fs, ino: nat)
    requires FsOk(fs) && ino in fs.inodes && InodeShape(fs.inodes[ino]) && fs.inodes[ino].mapped <= MAXFILE
    requires Freeing(fs, fs', Freed(fs.inodes[ino])) && fs.bm.Safe() && fs'.bm.Safe() && FreeZero(fs)
    ensures FreeZero(Without(fs', ino)) <==> forall b :: b in Freed(fs.inodes[ino]) ==> b < |fs.disk| && Zeroed(fs.disk[b])
  {
    hide At, FsOk, Freed, Zeroed, B.Free;
    var freed := Freed(fs.inodes[ino]);
    forall b: nat | 0 < b < fs.bm.size ensures B.Bit(fs'.bm.words, b) <==> B.Bit(fs.bm.words, b) && b !in freed {
      BitFree(fs, fs', freed, b);
    }
  }
}
