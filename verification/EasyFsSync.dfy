/** Writing inodes back: efs_i_update under the files, for live inodes and for dead ones. */
module EasyFsSync {
  import opened Basics
  import B = Bitmap
  import opened EasyFs
  import opened EasyFsProofs
  import opened EasyFsFree
  import opened InodeArea

  /** efs_i_update of inode `nd` with number `ino`. */
  function SyncFs(fs: Fs, start: nat, ino: nat, nd: Inode): Fs
    requires Blocks(fs.disk) && InodeShape(nd)
  {
    fs.(disk := IUpdate(fs.disk, start, ToDisk(ino, nd), nd.indir))
  }

  predicate Storable(fs: Fs, start: nat, ino: nat, nd: Inode) {
    InodeShape(nd) && Layout(fs.disk, start, fs.area, ToDisk(ino, nd), nd.indir)
  }

  /** The numbers of an inode fit 32 bits, and it has a link. */
  predicate Small(nd: Inode) { nd.size < TWO32 && nd.kind < TWO32 && nd.dev < TWO32 && 0 < nd.nlink < TWO32 }

  /** A live inode of a device with 32-bit block numbers can be stored. */
  lemma LiveStorable(fs: Fs, start: nat, ino: nat)
    requires FsOk(fs) && ino in fs.inodes && |fs.disk| <= TWO32 && Small(fs.inodes[ino]) && ino < TWO32
    requires Place(start, ino) + INODE_SIZE <= fs.area * BLOCK
    ensures Storable(fs, start, ino, fs.inodes[ino])
  {
    var nd := fs.inodes[ino];
    hide At, Prefixes, Place;
    SlotFacts(fs, ino, 0);
    forall i: nat | i <= NDIRECT ensures nd.addrs[i] < TWO32 && (nd.addrs[i] != 0 ==> fs.area <= nd.addrs[i] < |fs.disk|) { AddrIs(fs, ino, i); }
    if nd.indir.Some? {
      forall j: nat | j < NINDIRECT ensures nd.indir.value[j] < TWO32 { TableIs(fs, ino, j); }
    }
  }

  /** Nothing a file shows has changed. */
  ghost predicate SameView(fs: Fs, fs': Fs) {
    && fs' == fs.(disk := fs'.disk)
    && (forall i, s :: At(fs', i, s) == At(fs, i, s))
    && (forall i, p :: i in fs.inodes && 0 <= p < BLOCK * fs.inodes[i].mapped ==> FileByte(fs', i, p) == FileByte(fs, i, p))
  }

  /** Someone reads block `t` of the disk: as data, or as a table that is not in memory. */
  ghost predicate Read(fs: Fs, t: nat) {
    exists i, s :: i in fs.inodes && At(fs, i, s) == t && (s == Tab ==> fs.inodes[i].indir.None?)
  }

  /** Overwriting a block that nobody reads, or with what it holds, shows nowhere. */
  lemma UnreadAt(fs: Fs, fs': Fs, t: nat, i: nat, s: Slot)
    requires FsOk(fs) && fs' == fs.(disk := fs'.disk) && |fs'.disk| == |fs.disk| && Blocks(fs'.disk)
    requires forall b :: fs.area <= b < |fs.disk| && b != t ==> fs'.disk[b] == fs.disk[b]
    requires fs.area <= t < |fs.disk| ==> fs'.disk[t] == fs.disk[t] || !Read(fs, t)
    ensures At(fs', i, s) == At(fs, i, s)
  {
    if i in fs.inodes && s.Ind? && fs.inodes[i].indir.None? {
      var tb := At(fs, i, Tab);
      TabBlock(fs, i);
      assert tb == t && tb != 0 ==> Read(fs, t);
    }
  }

  lemma TabBlock(fs: Fs, i: nat)
    requires FsOk(fs) && i in fs.inodes
    ensures InodeShape(fs.inodes[i]) && At(fs, i, Tab) == fs.inodes[i].addrs[NDIRECT]
    ensures At(fs, i, Tab) != 0 ==> fs.area <= At(fs, i, Tab) < |fs.disk| && |fs.disk[At(fs, i, Tab)]| == BLOCK
  {
    TabIs(fs, i);
    hide At;
  }

  lemma UnreadByte(fs: Fs, fs': Fs, t: nat, i: nat, p: nat)
    requires FsOk(fs) && fs' == fs.(disk := fs'.disk) && |fs'.disk| == |fs.disk| && Blocks(fs'.disk)
    requires forall b :: fs.area <= b < |fs.disk| && b != t ==> fs'.disk[b] == fs.disk[b]
    requires fs.area <= t < |fs.disk| ==> fs'.disk[t] == fs.disk[t] || !Read(fs, t)
    requires At(fs', i, SlotOf(p / BLOCK)) == At(fs, i, SlotOf(p / BLOCK)) && i in fs.inodes
    ensures FileByte(fs', i, p) == FileByte(fs, i, p)
  {
    hide At;
    var b := At(fs, i, SlotOf(p / BLOCK));
    assert b != 0 ==> fs.area <= b < |fs.disk|;
    assert b == t && b != 0 ==> Read(fs, t) by { assert SlotOf(p / BLOCK) != Tab; }
  }

  lemma Unread(fs: Fs, fs': Fs, t: nat)
    requires FsOk(fs) && fs' == fs.(disk := fs'.disk) && |fs'.disk| == |fs.disk| && Blocks(fs'.disk)
    requires forall b :: fs.area <= b < |fs.disk| && b != t ==> fs'.disk[b] == fs.disk[b]
    requires fs.area <= t < |fs.disk| ==> fs'.disk[t] == fs.disk[t] || !Read(fs, t)
    ensures SameView(fs, fs')
  {
    hide FsOk, At, FileByte, Read;
    forall i, s ensures At(fs', i, s) == At(fs, i, s) { UnreadAt(fs, fs', t, i, s); }
    forall i: nat, p: nat | i in fs.inodes ensures FileByte(fs', i, p) == FileByte(fs, i, p) { UnreadByte(fs, fs', t, i, p); }
  }

  /** A state with the same view obeys the same invariant. */
  lemma ViewOk(fs: Fs, fs': Fs)
    requires FsOk(fs) && SameView(fs, fs') && Blocks(fs'.disk) && |fs'.disk| == |fs.disk|
    ensures FsOk(fs')
  {
    hide At, FileByte, PrefixOk;
    forall i | i in fs'.inodes ensures PrefixOk(fs', i) { PrefixSame(fs, fs', i); }
  }

  /** The blocks after writing inode `nd` back. */
  lemma SyncBlocks(fs: Fs, start: nat, ino: nat, nd: Inode)
    requires Storable(fs, start, ino, nd)
    ensures var fs' := SyncFs(fs, start, ino, nd);
            && |fs'.disk| == |fs.disk| && Blocks(fs'.disk)
            && forall b :: fs.area <= b < |fs.disk| ==>
                 fs'.disk[b] == if nd.indir.Some? && b == nd.addrs[NDIRECT] then Encode(nd.indir.value) else fs.disk[b]
  {
    hide IUpdate, Encode, Place;
    forall b | fs.area <= b < |fs.disk|
      ensures SyncFs(fs, start, ino, nd).disk[b] == if nd.indir.Some? && b == nd.addrs[NDIRECT] then Encode(nd.indir.value) else fs.disk[b]
    {
      UpdateBlock(fs.disk, start, fs.area, ToDisk(ino, nd), nd.indir, b);
    }
  }

  /** Nobody else reads the table of an inode that has it in memory. */
  lemma OwnTable(fs: Fs, ino: nat)
    requires FsOk(fs) && ino in fs.inodes && InodeShape(fs.inodes[ino]) && fs.inodes[ino].indir.Some? && fs.inodes[ino].addrs[NDIRECT] != 0
    ensures !Read(fs, fs.inodes[ino].addrs[NDIRECT])
  {
    TabIs(fs, ino);
    hide At, FsOk;
    var t := fs.inodes[ino].addrs[NDIRECT];
    forall i, s | i in fs.inodes && At(fs, i, s) == t ensures s == Tab && fs.inodes[i].indir.Some? { DistinctSlot(fs, ino, Tab, i, s); }
  }

  /** Writing a live inode back changes no file and keeps the invariant. */
  lemma SyncLive(fs: Fs, start: nat, ino: nat)
    requires FsOk(fs) && ino in fs.inodes && Storable(fs, start, ino, fs.inodes[ino])
    ensures var fs' := SyncFs(fs, start, ino, fs.inodes[ino]); FsOk(fs') && SameView(fs, fs') && FreeKept(fs, fs')
  {
    hide FsOk, SameView, Read, IUpdate, Encode, FreeKept, Place;
    var nd := fs.inodes[ino];
    var fs' := SyncFs(fs, start, ino, nd);
    SyncBlocks(fs, start, ino, nd);
    AreaPositive(fs);
    if nd.indir.Some? {
      OwnTable(fs, ino);
      Unread(fs, fs', nd.addrs[NDIRECT]);
    } else {
      Unread(fs, fs', 0);
    }
    ViewOk(fs, fs');
    LiveKeepsFree(fs, fs', ino);
  }

  lemma AreaPositive(fs: Fs)
    requires FsOk(fs)
    ensures 0 < fs.area <= |fs.disk|
  {
    hide At;
  }

  lemma LiveKeepsFree(fs: Fs, fs': Fs, ino: nat)
    requires FsOk(fs) && ino in fs.inodes && InodeShape(fs.inodes[ino]) && fs' == fs.(disk := fs'.disk) && |fs'.disk| == |fs.disk|
    requires forall b :: fs.area <= b < |fs.disk| && b != fs.inodes[ino].addrs[NDIRECT] ==> fs'.disk[b] == fs.disk[b]
    ensures FreeKept(fs, fs')
  {
    TabIs(fs, ino);
    hide At;
  }

  // ---- inodes that are no longer live ----

  /** Writing the unlinked inode `nd` back shows nowhere. */
  ghost predicate Harmless(fs: Fs, nd: Inode)
    requires InodeShape(nd) && (nd.indir.Some? ==> nd.addrs[NDIRECT] < |fs.disk|)
  {
    nd.indir.None? || fs.disk[nd.addrs[NDIRECT]] == Encode(nd.indir.value) || !Read(fs, nd.addrs[NDIRECT])
  }

  lemma EncodeDecode(blk: seq<Byte>)
    requires |blk| == BLOCK
    ensures Encode(Decode(blk)) == blk
  {
    forall k: nat | k < BLOCK ensures ByteOf(Decode(blk)[k / 4], k % 4) == blk[k] { EntryBytes(blk, k / 4); assert 4 * (k / 4) + k % 4 == k; }
  }

  lemma EntryBytes(blk: seq<Byte>, i: nat)
    requires |blk| == BLOCK && i < NINDIRECT
    ensures forall r :: 0 <= r < 4 ==> ByteOf(Entry(blk, i), r) == blk[4 * i + r]
  {
    var w: nat, x: nat, y: nat, z: nat := blk[4 * i], blk[4 * i + 1], blk[4 * i + 2], blk[4 * i + 3];
    var v := Entry(blk, i);
    assert v / 0x100 == x + 0x100 * y + 0x1_0000 * z && v / 0x1_0000 == y + 0x100 * z && v / 0x100_0000 == z;
  }

  /** Overwriting a block that a file reads with something else shows. */
  lemma ReadShows(fs: Fs, fs': Fs, t: nat, table: seq<nat>)
    requires FsOk(fs) && fs' == fs.(disk := fs'.disk) && |fs'.disk| == |fs.disk| && 0 < t < |fs.disk| && Read(fs, t)
    requires |table| == NINDIRECT && (forall j :: 0 <= j < NINDIRECT ==> table[j] < TWO32)
    requires fs'.disk[t] == Encode(table) && fs.disk[t] != Encode(table) && |fs.disk[t]| == BLOCK
    ensures !SameView(fs, fs')
  {
    hide At, FsOk, Encode;
    var i, s :| i in fs.inodes && At(fs, i, s) == t && (s == Tab ==> fs.inodes[i].indir.None?);
    if s == Tab {
      if SameView(fs, fs') { TablesAgree(fs, fs', i, t, table); }
    } else {
      DataShows(fs, fs', t, table, i, s);
    }
  }

  lemma TablesAgree(fs: Fs, fs': Fs, i: nat, t: nat, table: seq<nat>)
    requires FsOk(fs) && SameView(fs, fs') && i in fs.inodes && fs.inodes[i].indir.None? && At(fs, i, Tab) == t && |fs'.disk| == |fs.disk| && 0 < t < |fs.disk|
    requires |table| == NINDIRECT && (forall j :: 0 <= j < NINDIRECT ==> table[j] < TWO32) && fs'.disk[t] == Encode(table) && |fs.disk[t]| == BLOCK
    ensures fs.disk[t] == Encode(table)
  {
    TabBlock(fs, i);
    TableRoundTrip(table);
    forall j: nat | j < NINDIRECT ensures Decode(fs.disk[t])[j] == table[j] { assert At(fs', i, Ind(j)) == At(fs, i, Ind(j)); }
    EncodeDecode(fs.disk[t]);
    assert Decode(fs.disk[t]) == table;
  }

  lemma DataShows(fs: Fs, fs': Fs, t: nat, table: seq<nat>, i: nat, s: Slot)
    requires FsOk(fs) && fs' == fs.(disk := fs'.disk) && |fs'.disk| == |fs.disk| && 0 < t < |fs.disk| && i in fs.inodes && At(fs, i, s) == t && s != Tab
    requires |table| == NINDIRECT && fs'.disk[t] == Encode(table) && fs.disk[t] != Encode(table) && |fs.disk[t]| == BLOCK
    ensures !SameView(fs, fs')
  {
    InRange(fs, i, s);
    hide At, Encode;
    var l := if s.Dir? then s.i else NDIRECT + s.j;
    assert SlotOf(l) == s && l < MAXFILE;
    assert PrefixOk(fs, i);
    var k := Differs(fs.disk[t], Encode(table));
    var p := l * BLOCK + k;
    assert p / BLOCK == l && p % BLOCK == k;
    assert SameView(fs, fs') ==> FileByte(fs', i, p) == FileByte(fs, i, p);
  }

  lemma Differs(a: seq<Byte>, b: seq<Byte>) returns (k: nat)
    requires |a| == |b| && a != b
    ensures k < |a| && a[k] != b[k]
  {
    k :| k < |a| && a[k] != b[k];
  }

  /** A dead inode that is written back leaves all files as they are exactly when its table
      is not in memory, or nobody reads the table's old block, or that block holds the very
      same table. */
  lemma SyncDead(fs: Fs, start: nat, ino: nat, nd: Inode)
    requires FsOk(fs) && Storable(fs, start, ino, nd)
    ensures SameView(fs, SyncFs(fs, start, ino, nd)) <==> Harmless(fs, nd)
    ensures Harmless(fs, nd) ==> FsOk(SyncFs(fs, start, ino, nd))
  {
    hide FsOk, SameView, Read, IUpdate, Encode, Place;
    var fs' := SyncFs(fs, start, ino, nd);
    SyncBlocks(fs, start, ino, nd);
    AreaPositive(fs);
    if Harmless(fs, nd) {
      Unread(fs, fs', if nd.indir.Some? then nd.addrs[NDIRECT] else 0);
      ViewOk(fs, fs');
    } else {
      ReadShows(fs, fs', nd.addrs[NDIRECT], nd.indir.value);
    }
  }
}
