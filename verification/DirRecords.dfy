/** Directories on disk: 24-byte records in a file, and efs_d_update. */
module DirRecords {
  import opened Basics
  import opened EasyFs
  import opened EasyFsProofs
  import opened EasyFsWrites

  const DIRENT: nat := 24
  const NAMELEN: nat := 16
  const F_DIR: nat := 2

  /** The records that fit a file. */
  const RECORDS: nat := MAXFILE * BLOCK / DIRENT

  type Name = s: seq<Byte> | |s| == NAMELEN witness seq(NAMELEN, (i: nat) => 0 as Byte)

  /** struct easy_dirent */
  datatype Dirent = Dirent(ino: nat, kind: nat, name: Name)

  // ---- records ----

  function DirBytes(d: Dirent): (b: seq<Byte>)
    ensures |b| == DIRENT
  {
    seq(DIRENT, k requires 0 <= k < DIRENT => if k < 4 then ByteOf(d.ino, k) else if k < 8 then ByteOf(d.kind, k - 4) else d.name[k - 8])
  }

  function Word(b: seq<Byte>, o: nat): nat
    requires o + 4 <= |b|
  {
    var w: nat, x: nat, y: nat, z: nat := b[o], b[o + 1], b[o + 2], b[o + 3];
    w + 0x100 * x + 0x1_0000 * y + 0x100_0000 * z
  }

  function FromBytes(b: seq<Byte>): Dirent
    requires |b| == DIRENT
  {
    Dirent(Word(b, 0), Word(b, 4), b[8..])
  }

  lemma DirentRoundTrip(d: Dirent)
    requires d.ino < TWO32 && d.kind < TWO32
    ensures FromBytes(DirBytes(d)) == d
  {
    WordBytes(d.ino);
    WordBytes(d.kind);
    assert DirBytes(d)[8..] == d.name;
  }

  lemma BytesRoundTrip(b: seq<Byte>)
    requires |b| == DIRENT
    ensures DirBytes(FromBytes(b)) == b && InWords([FromBytes(b)])
  {
    var d := FromBytes(b);
    WordSplit(b, 0);
    WordSplit(b, 4);
    assert forall k :: 0 <= k < DIRENT ==> DirBytes(d)[k] == b[k];
  }

  lemma WordSplit(b: seq<Byte>, o: nat)
    requires o + 4 <= |b|
    ensures forall k :: 0 <= k < 4 ==> ByteOf(Word(b, o), k) == b[o + k]
  {
    var w: nat, x: nat, y: nat, z: nat := b[o], b[o + 1], b[o + 2], b[o + 3];
    var v := Word(b, o);
    assert v / 0x100 == x + 0x100 * y + 0x1_0000 * z && v / 0x1_0000 == y + 0x100 * z && v / 0x100_0000 == z;
  }

  /** The directory's file holds the records of `cs`, one after the other. */
  ghost predicate Listed(fs: Fs, ino: nat, cs: seq<Dirent>) {
    ino in fs.inodes && fs.inodes[ino].size == DIRENT * |cs| && Covered(fs, ino) && Records(fs, ino, cs)
  }

  ghost predicate Records(fs: Fs, ino: nat, cs: seq<Dirent>) {
    forall i, k :: 0 <= i < |cs| && 0 <= k < DIRENT ==> FileByte(fs, ino, DIRENT * i + k) == DirBytes(cs[i])[k]
  }

  lemma NoRecords(fs: Fs, ino: nat)
    ensures Records(fs, ino, [])
  {
  }

  lemma AddRecord(fs: Fs, ino: nat, cs: seq<Dirent>, d: Dirent)
    requires Records(fs, ino, cs) && forall k :: 0 <= k < DIRENT ==> FileByte(fs, ino, DIRENT * |cs| + k) == DirBytes(d)[k]
    ensures Records(fs, ino, cs + [d])
  {
    hide FileByte, DirBytes;
  }

  /** Both numbers of every record fit 32 bits. */
  predicate InWords(cs: seq<Dirent>) {
    forall i :: 0 <= i < |cs| ==> cs[i].ino < TWO32 && cs[i].kind < TWO32
  }

  /** One file holds one record sequence. */
  lemma ListedUnique(fs: Fs, ino: nat, cs: seq<Dirent>, ds: seq<Dirent>)
    requires Listed(fs, ino, cs) && Listed(fs, ino, ds) && InWords(cs) && InWords(ds)
    ensures cs == ds
  {
    hide FileByte, DirBytes, FromBytes;
    forall i: nat | i < |cs| ensures cs[i] == ds[i] {
      assert forall k :: 0 <= k < DIRENT ==> DirBytes(cs[i])[k] == FileByte(fs, ino, DIRENT * i + k);
      assert DirBytes(cs[i]) == DirBytes(ds[i]);
      DirentRoundTrip(cs[i]);
      DirentRoundTrip(ds[i]);
    }
  }

  // ---- what stays ----

  /** Every file outside `ex` is as it was: its inode and its bytes. */
  ghost predicate Kept(fs0: Fs, fs: Fs, ex: set<nat>) {
    && (forall i :: i in fs0.inodes && i !in ex ==> i in fs.inodes && fs.inodes[i] == fs0.inodes[i])
    && (forall i, p :: i in fs0.inodes && i !in ex && 0 <= p < BLOCK * fs0.inodes[i].mapped ==> FileByte(fs, i, p) == FileByte(fs0, i, p))
  }

  lemma KeptTrans(fs0: Fs, fs1: Fs, fs2: Fs, ex: set<nat>, ex': set<nat>)
    requires Kept(fs0, fs1, ex) && Kept(fs1, fs2, ex')
    ensures Kept(fs0, fs2, ex + ex')
  {
    hide FileByte;
    forall i, p | i in fs0.inodes && i !in ex + ex' && 0 <= p < BLOCK * fs0.inodes[i].mapped ensures FileByte(fs2, i, p) == FileByte(fs0, i, p) {
      assert FileByte(fs1, i, p) == FileByte(fs0, i, p);
    }
  }

  /** In particular its contents. */
  lemma KeptContents(fs0: Fs, fs: Fs, ex: set<nat>, i: nat)
    requires Kept(fs0, fs, ex) && i in fs0.inodes && i !in ex && Covered(fs0, i)
    ensures i in fs.inodes && Contents(fs, i) == Contents(fs0, i)
  {
    hide FileByte;
    assert Contents(fs, i) == Contents(fs0, i);
  }

  lemma SameKept(fs0: Fs, fs: Fs, ino: nat)
    requires Same(fs0, fs, ino)
    ensures Kept(fs0, fs, {ino})
  {
    hide FileByte;
    forall i: nat, p: nat ensures FileByte(fs, i, p) == FileByte(fs0, i, p) { LookupByte(fs0, fs, ino, i, p); }
  }

  lemma AfterKept(fs0: Fs, fs: Fs, ino: nat, off: nat, data: seq<Byte>)
    requires After(fs0, fs, ino, off, data)
    ensures fs.inodes.Keys == fs0.inodes.Keys && Kept(fs0, fs, {ino})
  {
    hide FileByte;
  }

  lemma MetaKept(fs: Fs, ino: nat, nd: Inode)
    requires ino in fs.inodes && MetaOnly(fs.inodes[ino], nd)
    ensures Kept(fs, SetInode(fs, ino, nd), {ino})
  {
    hide FileByte;
    forall i: nat, p: nat ensures FileByte(SetInode(fs, ino, nd), i, p) == FileByte(fs, i, p) { MetaByte(fs, ino, nd, i, p); }
  }

  lemma NewKept(fs: Fs, ino: nat, dev: nat)
    requires ino !in fs.inodes
    ensures Kept(fs, SetInode(fs, ino, EmptyInode(0, dev)), {})
  {
    hide FileByte;
    forall i: nat, p: nat ensures FileByte(SetInode(fs, ino, EmptyInode(0, dev)), i, p) == FileByte(fs, i, p) { NewByte(fs, ino, dev, i, p); }
  }

  lemma KeptAt(fs0: Fs, fs: Fs, ex: set<nat>, i: nat)
    requires Kept(fs0, fs, ex) && i in fs0.inodes && i !in ex
    ensures i in fs.inodes && fs.inodes[i] == fs0.inodes[i]
  {
    hide FileByte;
  }

  // ---- efs_d_update ----

  /** Records [0, n) are in the file, as far as a file can reach. */
  ghost predicate ListedUpTo(fs: Fs, ino: nat, cs: seq<Dirent>, n: nat) {
    && n <= |cs| && ino in fs.inodes
    && (DIRENT * n <= MAXFILE * BLOCK ==> DIRENT * n <= BLOCK * fs.inodes[ino].mapped)
    && forall i, k :: 0 <= i < n && DIRENT * (i + 1) <= MAXFILE * BLOCK && 0 <= k < DIRENT
         ==> FileByte(fs, ino, DIRENT * i + k) == DirBytes(cs[i])[k] && DIRENT * (i + 1) <= BLOCK * fs.inodes[ino].mapped
  }

  lemma StoreRecord(fs0: Fs, fs: Fs, ino: nat, cs: seq<Dirent>, n: nat)
    requires n < |cs| && ListedUpTo(fs0, ino, cs, n) && After(fs0, fs, ino, DIRENT * n, DirBytes(cs[n])) && DIRENT * (n + 1) <= MAXFILE * BLOCK
    ensures ListedUpTo(fs, ino, cs, n + 1)
  {
    hide FileByte, DirBytes, Owned;
    GrownFacts(fs0, fs, ino, DIRENT * n + DIRENT);
    forall i: nat, k: nat | i < n + 1 && k < DIRENT ensures FileByte(fs, ino, DIRENT * i + k) == DirBytes(cs[i])[k] {
      if i < n {
        assert FileByte(fs0, ino, DIRENT * i + k) == DirBytes(cs[i])[k];
        assert DIRENT * i + k < DIRENT * n;
      }
    }
  }

  lemma SkipRecord(fs: Fs, ino: nat, cs: seq<Dirent>, n: nat)
    requires n < |cs| && ListedUpTo(fs, ino, cs, n) && DIRENT * (n + 1) > MAXFILE * BLOCK
    ensures ListedUpTo(fs, ino, cs, n + 1)
  {
    hide FileByte, DirBytes;
  }

  /** All records are in the file exactly when a file is long enough for them. */
  lemma AllListed(fs: Fs, ino: nat, cs: seq<Dirent>)
    requires FsOk(fs) && ListedUpTo(fs, ino, cs, |cs|) && fs.inodes[ino].size == DIRENT * |cs|
    ensures Listed(fs, ino, cs) <==> DIRENT * |cs| <= MAXFILE * BLOCK
  {
    Usable(fs, ino);
    hide FileByte, DirBytes, FsOk;
    if DIRENT * |cs| <= MAXFILE * BLOCK {
      forall i, k | 0 <= i < |cs| && 0 <= k < DIRENT ensures FileByte(fs, ino, DIRENT * i + k) == DirBytes(cs[i])[k] {
        assert DIRENT * (i + 1) <= MAXFILE * BLOCK;
      }
    }
  }

  /** The bytes of the first `n` records that fit. */
  function Extent(n: nat): nat { DIRENT * Min(n, RECORDS) }

  /** efs_d_update from record `i` on; the results of the writes are not looked at. */
  function UpdateFrom(fs: Fs, ino: nat, cs: seq<Dirent>, i: nat): (r: (Fs, bool))
    requires Ready(fs, ino) && i <= |cs|
    ensures Ready(r.0, ino)
    decreases |cs| - i
  {
    if i == |cs| then (fs, false)
    else
      var (fs1, o) := WriteAll(fs, ino, DIRENT * i, DirBytes(cs[i]));
      if o == Stopped then (fs1, true) else UpdateFrom(fs1, ino, cs, i + 1)
  }

  /** Some record from `i` on was written: then the inode is marked dirty. */
  predicate Touches(fs: Fs, ino: nat, cs: seq<Dirent>, i: nat)
    requires Ready(fs, ino) && i <= |cs|
    decreases |cs| - i
  {
    if i == |cs| then false
    else
      var (fs1, o) := WriteAll(fs, ino, DIRENT * i, DirBytes(cs[i]));
      o != Stopped && (o != Returned(-1) || Touches(fs1, ino, cs, i + 1))
  }

  lemma UpdateRound(fs: Fs, ino: nat, cs: seq<Dirent>, i: nat)
    requires Ready(fs, ino) && i < |cs|
    ensures var (fs1, o) := WriteAll(fs, ino, DIRENT * i, DirBytes(cs[i]));
            && (o == Stopped ==> UpdateFrom(fs, ino, cs, i) == (fs1, true) && !Touches(fs, ino, cs, i))
            && (o != Stopped ==> UpdateFrom(fs, ino, cs, i) == UpdateFrom(fs1, ino, cs, i + 1))
            && (o != Stopped ==> Touches(fs, ino, cs, i) == (o != Returned(-1) || Touches(fs1, ino, cs, i + 1)))
  {
    hide WriteAll, DirBytes, InodeShape;
  }

  lemma UpdateEnd(fs: Fs, ino: nat, cs: seq<Dirent>)
    requires Ready(fs, ino)
    ensures UpdateFrom(fs, ino, cs, |cs|) == (fs, false) && !Touches(fs, ino, cs, |cs|)
  {
  }

  /** What a part of efs_d_update changes: blocks may be added to the directory's file. */
  ghost predicate Extended(fs0: Fs, fs: Fs, ino: nat, end: nat) {
    && ino in fs0.inodes && fs.inodes.Keys == fs0.inodes.Keys && fs.area == fs0.area && FreeKept(fs0, fs) && TabsKept(fs0, fs, ino)
    && Kept(fs0, fs, {ino})
    && (forall i :: i in fs0.inodes && i != ino ==> fs.inodes[i] == fs0.inodes[i])
    && (forall b :: 0 <= b < fs.area && b < |fs.disk| ==> fs.disk[b] == fs0.disk[b])
    && var nd, nd0 := fs.inodes[ino], fs0.inodes[ino];
       && nd == nd0.(addrs := nd.addrs, indir := nd.indir, mapped := nd.mapped)
       && nd.mapped == Max(nd0.mapped, BlocksFor(end)) && fs.blockFree == fs0.blockFree - Need(nd0, end)
  }

  /** After `i` records: where the directory's file stands against the start. */
  ghost predicate Updating(fs0: Fs, fs: Fs, ino: nat, cs: seq<Dirent>, i: nat) {
    && i <= |cs| && FsOk(fs) && Ready(fs, ino) && Ready(fs0, ino) && ListedUpTo(fs, ino, cs, i) && fs.inodes[ino].size == DIRENT * |cs|
    && Extended(fs0, fs, ino, Extent(i))
  }

  /** Without enough free blocks the kernel stops; otherwise every other file stays as it
      is, and the file holds the records exactly when it can hold so many. */
  ghost predicate UpdateOutcome(fs: Fs, ino: nat, cs: seq<Dirent>, fs1: Fs, stopped: bool)
    requires Ready(fs, ino)
  {
    && (stopped <==> fs.blockFree < Need(fs.inodes[ino], Extent(|cs|)))
    && (!stopped ==> FsOk(fs1) && Extended(fs, fs1, ino, Extent(|cs|)))
    && (!stopped ==> (Listed(fs1, ino, cs) <==> DIRENT * |cs| <= MAXFILE * BLOCK))
  }

  /** Need in two steps. */
  lemma NeedMore(nd0: Inode, nd: Inode, e: nat, e': nat)
    requires e <= e' && nd.mapped == Max(nd0.mapped, BlocksFor(e))
    ensures Need(nd, e') == Need(nd0, e') - Need(nd0, e) >= 0
    ensures Max(nd.mapped, BlocksFor(e')) == Max(nd0.mapped, BlocksFor(e'))
  {
  }

  /** One record. */
  lemma UpdateStep(fs0: Fs, fs: Fs, ino: nat, cs: seq<Dirent>, i: nat)
    requires Updating(fs0, fs, ino, cs, i) && i < |cs| && (DIRENT * |cs| > NDIRECT * BLOCK ==> NextTableZero(fs, ino))
    ensures var (fs1, o) := WriteAll(fs, ino, DIRENT * i, DirBytes(cs[i]));
            && (o == Stopped ==> fs0.blockFree < Need(fs0.inodes[ino], Extent(i + 1)))
            && (o != Stopped ==> Updating(fs0, fs1, ino, cs, i + 1) && (NextTableZero(fs, ino) ==> NextTableZero(fs1, ino)))
  {
    hide FsOk, FileByte, DirBytes, WriteAll, NextTableZero, After, ListedUpTo, Extended, InodeShape, Need;
    var data := DirBytes(cs[i]);
    var (fs1, o) := WriteAll(fs, ino, DIRENT * i, data);
    NextReady(fs, ino, cs, i);
    WriteAllOk(fs, ino, DIRENT * i, data);
    if DIRENT * (i + 1) > MAXFILE * BLOCK {
      SkipRecord(fs, ino, cs, i);
    } else {
      ExtendedNeed(fs0, fs, ino, Extent(i), Extent(i + 1));
      if o != Stopped {
        StoreRecord(fs, fs1, ino, cs, i);
        ExtendedMore(fs0, fs, fs1, ino, Extent(i), data);
      }
    }
  }

  lemma ExtendedNeed(fs0: Fs, fs: Fs, ino: nat, e: nat, e': nat)
    requires Extended(fs0, fs, ino, e) && e <= e'
    ensures ino in fs.inodes && Need(fs.inodes[ino], e') == Need(fs0.inodes[ino], e') - Need(fs0.inodes[ino], e)
    ensures fs.blockFree == fs0.blockFree - Need(fs0.inodes[ino], e)
  {
    hide Kept, TabsKept, FreeKept;
    NeedMore(fs0.inodes[ino], fs.inodes[ino], e, e');
  }

  lemma ExtendedMore(fs0: Fs, fs: Fs, fs1: Fs, ino: nat, e: nat, data: seq<Byte>)
    requires Extended(fs0, fs, ino, e) && After(fs, fs1, ino, e, data) && e + |data| <= fs.inodes[ino].size
    ensures Extended(fs0, fs1, ino, e + |data|) && fs1.inodes[ino].size == fs.inodes[ino].size
  {
    hide FileByte, Written, FreeKept, TabsKept, Kept, BlocksFor, Owned;
    AfterKept(fs, fs1, ino, e, data);
    KeptTrans(fs0, fs, fs1, {ino}, {ino});
    assert {ino} + {ino} == {ino};
    FreeKeptTrans(fs0, fs, fs1);
    TabsTrans(fs0, fs, fs1, ino);
    SameLength(fs, fs1);
    NeedMore(fs0.inodes[ino], fs.inodes[ino], e, e + |data|);
  }

  lemma NextReady(fs: Fs, ino: nat, cs: seq<Dirent>, i: nat)
    requires Ready(fs, ino) && i < |cs| && ListedUpTo(fs, ino, cs, i) && fs.inodes[ino].size == DIRENT * |cs|
    requires DIRENT * |cs| > NDIRECT * BLOCK ==> NextTableZero(fs, ino)
    ensures WriteReady(fs, ino, DIRENT * i, DIRENT)
    ensures Refused(fs.inodes[ino], DIRENT * i, DIRENT) <==> DIRENT * (i + 1) > MAXFILE * BLOCK
  {
    hide FileByte, DirBytes, NextTableZero, InodeShape;
  }

  lemma {:induction false} UpdateOk(fs0: Fs, fs: Fs, ino: nat, cs: seq<Dirent>, i: nat)
    requires Updating(fs0, fs, ino, cs, i) && (DIRENT * |cs| > NDIRECT * BLOCK ==> NextTableZero(fs, ino))
    ensures Ready(fs0, ino) && UpdateOutcome(fs0, ino, cs, UpdateFrom(fs, ino, cs, i).0, UpdateFrom(fs, ino, cs, i).1)
    decreases |cs| - i
  {
    hide FsOk, FileByte, DirBytes, WriteAll, NextTableZero, ListedUpTo, Listed, Extended, Need, InodeShape;
    if i == |cs| {
      AllListed(fs, ino, cs);
      FreeCount(fs);
      ExtendedNeed(fs0, fs, ino, Extent(i), Extent(i));
    } else {
      UpdateStep(fs0, fs, ino, cs, i);
      var (fs1, o) := WriteAll(fs, ino, DIRENT * i, DirBytes(cs[i]));
      if o == Stopped {
        NeedGrows(fs0.inodes[ino], Extent(i + 1), Extent(|cs|));
      } else {
        UpdateOk(fs0, fs1, ino, cs, i + 1);
      }
    }
  }

  lemma FreeCount(fs: Fs)
    requires FsOk(fs)
    ensures fs.blockFree >= 0
  {
    hide At;
  }

  lemma NeedGrows(nd: Inode, e: nat, e': nat)
    requires e <= e'
    ensures Need(nd, e) <= Need(nd, e')
  {
  }

  lemma BitsFit(fs: Fs)
    requires FsOk(fs)
    ensures fs.bm.size <= |fs.disk|
  {
    hide At;
  }

  lemma UpdateStart(fs: Fs, ino: nat, cs: seq<Dirent>)
    requires FsOk(fs) && Ready(fs, ino) && fs.inodes[ino].size == DIRENT * |cs|
    ensures Updating(fs, fs, ino, cs, 0)
  {
    hide FsOk, FileByte, DirBytes, At;
    assert BlocksFor(0) == 0;
    BitsFit(fs);
  }
}
