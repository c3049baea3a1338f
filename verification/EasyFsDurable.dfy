/** Which changes reach the disk: the dirty list over runs, and what a remount finds. */
module EasyFsDurable {
  import opened Basics
  import B = Bitmap
  import opened EasyFs
  import opened EasyFsProofs
  import opened EasyFsFree
  import opened EasyFsWrites
  import opened InodeArea
  import opened EasyFsSync
  import opened EasyFsTheorems
  import opened DirRecords
  import opened EasyFsRuns
  import opened EasyFsRunProofs
  import opened EasyFsRunTheorems
  import opened EasyFsRemount

  ghost predicate OnDisk(w: World, j: nat)
    requires j in w.fs.inodes
  {
    Storable(w.fs, w.start, j, w.fs.inodes[j]) && Stored(w.fs, w.start, j)
  }

  /** Inode `j` is on the disk as it is in memory, or efs_sync will come to it. */
  ghost predicate Durable(w: World, j: nat)
    requires j in w.fs.inodes
  {
    Live(j) in w.dirty || OnDisk(w, j)
  }

  ghost predicate AllDurable(w: World) { forall j :: j in w.fs.inodes ==> Durable(w, j) }

  /** The operation changes `j` without marking it (the size of a directory, a link that is
      not the last), or a dead inode overwrites its record or its table. */
  ghost predicate Forgets(w: World, op: Op, j: nat)
    requires Defined(w, op) && j in w.fs.inodes && InodeShape(w.fs.inodes[j])
  {
    Live(j) !in w.dirty &&
    match op
    case SizeOp(i, n) => i == j && n != w.fs.inodes[i].size
    case UnlinkOp(i) => i == j && !UnlinkRefused(w.fs.inodes[i], i)
    case SyncOp => w.dirty[0].Gone? && !Spares(w.fs, w.dirty[0].ino, w.dirty[0].nd, j)
    case _ => false
  }

  // ---- one operation ----

  /** Nothing that `j` is filled from has changed. */
  lemma StoredSame(fs: Fs, fs': Fs, start: nat, j: nat)
    requires j in fs.inodes && j in fs'.inodes && fs'.inodes[j] == fs.inodes[j]
    requires Storable(fs, start, j, fs.inodes[j]) && Storable(fs', start, j, fs'.inodes[j]) && Stored(fs, start, j)
    requires fs'.area == fs.area && |fs'.disk| == |fs.disk| && forall b :: 0 <= b < fs.area && b < |fs.disk| ==> fs'.disk[b] == fs.disk[b]
    requires fs.inodes[j].indir.Some? ==> fs'.disk[fs.inodes[j].addrs[NDIRECT]] == fs.disk[fs.inodes[j].addrs[NDIRECT]]
    ensures Stored(fs', start, j)
  {
    hide IFill, Encode, DShape;
    FillSame(fs.disk, fs'.disk, start, fs.area, j);
  }

  lemma FillSame(disk: seq<seq<Byte>>, disk': seq<seq<Byte>>, start: nat, area: nat, j: nat)
    requires Blocks(disk) && Blocks(disk') && |disk'| == |disk| && area <= |disk| && Place(start, j) + INODE_SIZE <= area * BLOCK
    requires forall b :: 0 <= b < area ==> disk'[b] == disk[b]
    ensures Place(start, j) + RECORD <= BLOCK * |disk| && IFill(disk', start, j) == IFill(disk, start, j)
  {
    var p := Place(start, j);
    hide Place;
    forall q: nat | q < p + RECORD ensures ByteAt(disk', q) == ByteAt(disk, q) { assert q / BLOCK < area; }
    forall k: nat | k < WORDS ensures ReadWords(disk', p)[k] == ReadWords(disk, p)[k] { }
    assert ReadWords(disk', p) == ReadWords(disk, p);
  }

  /** After the operation the world is consistent, so `j` has its place. */
  lemma PlaceAfter(w: World, op: Op, j: nat)
    requires WorldOk(w) && Defined(w, op) && Guard(w, op) && j in Do(w, op).fs.inodes
    ensures var w' := Do(w, op); w'.start == w.start && WorldOk(w') && Storable(w'.fs, w.start, j, w'.fs.inodes[j])
  {
    hide WorldOk, Do, Guard, Storable, Files, Apply, Total, Leak;
    StepKeeps(w, op);
    LiveStored(Do(w, op), j);
  }

  /** Only inode `i` and data blocks of file `i` have changed. */
  lemma OtherStored(w: World, op: Op, i: nat, j: nat)
    requires WorldOk(w) && Defined(w, op) && Guard(w, op) && j in w.fs.inodes && j != i && OnDisk(w, j)
    requires var fs' := Do(w, op).fs;
             && j in fs'.inodes && fs'.inodes[j] == w.fs.inodes[j] && fs'.area == w.fs.area && TabsKept(w.fs, fs', i)
             && forall b :: 0 <= b < w.fs.area && b < |fs'.disk| ==> fs'.disk[b] == w.fs.disk[b]
    ensures OnDisk(Do(w, op), j)
  {
    hide FsOk, Do, Guard, Stored, InodeMapOk, DirtyOk, AllCovered, AllSmall;
    PlaceAfter(w, op, j);
    var t := w.fs.inodes[j].addrs[NDIRECT];
    TabBlock(w.fs, j);
    StoredSame(w.fs, Do(w, op).fs, w.start, j);
  }

  /** Marked inodes stay marked until efs_sync comes to them. */
  lemma MarkStays(w: World, op: Op, j: nat)
    requires Defined(w, op) && Live(j) in w.dirty && !op.SyncOp? && (op.UnlinkOp? ==> op.ino != j || !LastLink(w.fs.inodes[j], j))
    ensures Live(j) in Do(w, op).dirty
  {
    hide WriteAll, UpdateFrom, Touches, Bmap, UnlinkFs, Bury, B.Alloc, B.Release;
    if op.UnlinkOp? && op.ino != j { BuryIs(w.dirty, op.ino, Remains(w.fs.inodes[op.ino])); }
  }

  lemma WriteDurable(w: World, i: nat, off: nat, data: seq<Byte>, j: nat)
    requires WorldOk(w) && Defined(w, WriteOp(i, off, data)) && Guard(w, WriteOp(i, off, data)) && j in w.fs.inodes && OnDisk(w, j)
    ensures j in Do(w, WriteOp(i, off, data)).fs.inodes && Durable(Do(w, WriteOp(i, off, data)), j)
  {
    hide FsOk, WriteAll, NextTableZero, Written, TabsKept, Need, FreeKept, InodeMapOk, DirtyOk, Stored, Storable, Mark;
    LiveFacts(w, i);
    CoveredReady(w.fs, i, off, |data|);
    WriteAllOk(w.fs, i, off, data);
    if !Refused(w.fs.inodes[i], off, |data|) {
      MarkIs(w.dirty, i);
      if j != i { OtherStored(w, WriteOp(i, off, data), i, j); }
    }
  }

  lemma MarkIs(dirty: seq<Item>, i: nat)
    ensures Live(i) in Mark(dirty, i) && forall it :: it in dirty ==> it in Mark(dirty, i)
  {
  }

  lemma UpdateDurable(w: World, i: nat, cs: seq<Dirent>, j: nat)
    requires WorldOk(w) && Defined(w, UpdateOp(i, cs)) && Guard(w, UpdateOp(i, cs)) && j in w.fs.inodes && OnDisk(w, j)
    ensures j in Do(w, UpdateOp(i, cs)).fs.inodes && Durable(Do(w, UpdateOp(i, cs)), j)
  {
    hide FsOk, UpdateFrom, NextTableZero, TabsKept, Need, FreeKept, InodeMapOk, DirtyOk;
    hide Stored, Storable, Mark, Kept, Touches, AllCovered, AllSmall, BlocksFor;
    Updated(w, i, cs);
    TouchIff(w, i, cs);
    MarkIs(w.dirty, i);
    if j != i { OtherStored(w, UpdateOp(i, cs), i, j); }
  }

  /** efs_d_update marks the directory's inode exactly when there are children. */
  lemma TouchIff(w: World, i: nat, cs: seq<Dirent>)
    requires WorldOk(w) && Defined(w, UpdateOp(i, cs)) && Guard(w, UpdateOp(i, cs))
    ensures Touches(w.fs, i, cs, 0) <==> cs != []
    ensures cs == [] ==> UpdateFrom(w.fs, i, cs, 0).0 == w.fs
  {
    hide FsOk, NextTableZero, Need, WriteAll, InodeMapOk, DirtyOk, AllCovered, AllSmall, Updating, ListedUpTo, After;
    if cs != [] {
      UpdateStart(w.fs, i, cs);
      ListedNow(w.fs, i, cs);
      NextReady(w.fs, i, cs, 0);
      WriteAllOk(w.fs, i, 0, DirBytes(cs[0]));
      NeedGrows(w.fs.inodes[i], DIRENT, Extent(|cs|));
    }
  }

  lemma ListedNow(fs: Fs, i: nat, cs: seq<Dirent>)
    requires Updating(fs, fs, i, cs, 0)
    ensures ListedUpTo(fs, i, cs, 0)
  {
    hide FsOk, Extended, ListedUpTo;
  }

  lemma ReadDurable(w: World, i: nat, l: nat, j: nat)
    requires WorldOk(w) && Defined(w, ReadOp(i, l)) && j in w.fs.inodes && OnDisk(w, j)
    ensures j in Do(w, ReadOp(i, l)).fs.inodes && Durable(Do(w, ReadOp(i, l)), j)
  {
    hide FsOk, Bmap, InodeMapOk, DirtyOk, AllCovered, AllSmall, IFill, Encode, DShape, Place, At;
    BmapLookup(w.fs, i, l);
    PlaceAfter(w, ReadOp(i, l), j);
    LoadedTable(w.fs, i, l);
  }

  /** The table a lookup loads is the one on the disk. */
  lemma LoadedTable(fs: Fs, i: nat, l: nat)
    requires FsOk(fs) && Ready(fs, i)
    ensures var fs' := Bmap(fs, i, l, false).0;
            i in fs'.inodes && (fs'.inodes[i].indir == fs.inodes[i].indir
            || (fs'.inodes[i].indir.Some? && fs.inodes[i].addrs[NDIRECT] < |fs.disk| && fs.disk[fs.inodes[i].addrs[NDIRECT]] == Encode(fs'.inodes[i].indir.value)))
  {
    hide FsOk, Encode, Decode, At, B.Alloc;
    TabBlock(fs, i);
    var t := fs.inodes[i].addrs[NDIRECT];
    if t != 0 { EncodeDecode(fs.disk[t]); }
  }

  lemma SyncDurable(w: World, j: nat)
    requires WorldOk(w) && Defined(w, SyncOp) && Guard(w, SyncOp) && j in w.fs.inodes && Ready(w.fs, j) && Durable(w, j)
    ensures j in Do(w, SyncOp).fs.inodes && (Durable(Do(w, SyncOp), j) <==> !Forgets(w, SyncOp, j))
  {
    hide FsOk, InodeMapOk, DirtyOk, AllCovered, AllSmall, Stored, Storable, Layout, Spares, IUpdate, Harmless;
    HeadOk(w);
    LiveStored(w, j);
    var it, w' := w.dirty[0], Do(w, SyncOp);
    HeadOrTail(w.dirty, Live(j));
    if it == Live(j) {
      SyncStores(w.fs, w.start, j);
    } else if Live(j) !in w.dirty {
      if it.Live? { SyncKeepsOther(w.fs, w.start, it.ino, j); } else { DeadKeepsIff(w.fs, w.start, it.ino, it.nd, j); }
    }
  }

  lemma HeadOrTail<T>(s: seq<T>, x: T)
    requires s != []
    ensures x in s <==> x == s[0] || x in s[1..]
  {
  }

  /** Type, size, link or reference count of `i` change, on disk nothing does. */
  lemma MetaDurable(w: World, op: Op, i: nat, nd: Inode, j: nat)
    requires WorldOk(w) && Defined(w, op) && Guard(w, op) && i in w.fs.inodes && j in w.fs.inodes && OnDisk(w, j)
    requires MetaOnly(w.fs.inodes[i], nd) && Do(w, op).fs == SetInode(w.fs, i, nd)
    ensures OnDisk(Do(w, op), j) <==> (j == i ==> ToDisk(i, nd) == ToDisk(i, w.fs.inodes[i]))
  {
    hide FsOk, Do, Guard, InodeMapOk, DirtyOk, AllCovered, AllSmall, IFill, Encode, DShape, Place;
    PlaceAfter(w, op, j);
  }

  lemma UnlinkDurable(w: World, i: nat, j: nat)
    requires WorldOk(w) && Defined(w, UnlinkOp(i)) && Guard(w, UnlinkOp(i)) && j in w.fs.inodes && j in Do(w, UnlinkOp(i)).fs.inodes && OnDisk(w, j)
    ensures OnDisk(Do(w, UnlinkOp(i)), j) <==> j != i || UnlinkRefused(w.fs.inodes[i], i)
  {
    hide FsOk, InodeMapOk, DirtyOk, AllCovered, Stored, Storable, FreedList, ReleaseAll, Bury, B.Release, InodeShape;
    if LastLink(w.fs.inodes[i], i) {
      LastOk(w.fs, i);
      SameTabs(w.fs, Do(w, UnlinkOp(i)).fs, i);
      OtherStored(w, UnlinkOp(i), i, j);
    } else if !UnlinkRefused(w.fs.inodes[i], i) {
      LiveFacts(w, i);
      MetaDurable(w, UnlinkOp(i), i, w.fs.inodes[i].(nlink := w.fs.inodes[i].nlink - 1), j);
    }
  }

  lemma SameTabs(fs: Fs, fs': Fs, i: nat)
    requires fs'.disk == fs.disk
    ensures TabsKept(fs, fs', i)
  {
    hide At;
  }

  /** Whether an inode that is durable stays so: exactly when the operation does not forget
      it. */
  lemma DurableIff(w: World, op: Op, j: nat)
    requires WorldOk(w) && Defined(w, op) && Guard(w, op) && j in w.fs.inodes && Durable(w, j) && j in Do(w, op).fs.inodes
    ensures Ready(w.fs, j) && (Durable(Do(w, op), j) <==> !Forgets(w, op, j))
  {
    hide WorldOk, Guard, WriteAll, UpdateFrom, Touches, Bmap, UnlinkFs, Bury, Mark, B.Alloc, B.Release, SyncFs, OnDisk, InodeShape, EmptyInode;
    LiveFacts(w, j);
    if op.SyncOp? {
      SyncDurable(w, j);
    } else if Live(j) in w.dirty {
      Survives(w, op, j);
      MarkStays(w, op, j);
    } else {
      QuietDurable(w, op, j);
    }
  }

  /** An inode that is live after an unlink did not lose its last link. */
  lemma Survives(w: World, op: Op, j: nat)
    requires WorldOk(w) && Defined(w, op) && Guard(w, op) && j in Do(w, op).fs.inodes
    ensures op.UnlinkOp? ==> op.ino != j || !LastLink(w.fs.inodes[j], j)
  {
    hide FsOk, InodeMapOk, DirtyOk, AllCovered, AllSmall, FreedList, ReleaseAll, Bury;
    hide B.Release, InodeShape, NextTableZero, Harmless, WriteAll, UpdateFrom, Touches, Bmap, Mark;
    if op.UnlinkOp? && LastLink(w.fs.inodes[op.ino], op.ino) { LastOk(w.fs, op.ino); }
  }

  lemma QuietDurable(w: World, op: Op, j: nat)
    requires WorldOk(w) && Defined(w, op) && Guard(w, op) && !op.SyncOp? && j in w.fs.inodes && Live(j) !in w.dirty && OnDisk(w, j)
    requires j in Do(w, op).fs.inodes && Ready(w.fs, j)
    ensures Durable(Do(w, op), j) <==> !Forgets(w, op, j)
  {
    hide FsOk, InodeMapOk, DirtyOk, AllCovered, AllSmall, WriteAll, UpdateFrom, Touches, Bmap;
    hide UnlinkFs, B.Alloc, B.Release, OnDisk, InodeShape, NextTableZero, Need, Mark, EmptyInode;
    match op
    case WriteOp(i, off, data) => WriteDurable(w, i, off, data, j);
    case ReadOp(i, l) => ReadDurable(w, i, l, j);
    case NewOp(i, dev) =>
      NewNumber(w, i, dev);
      SameTabs(w.fs, Do(w, op).fs, i);
      OtherStored(w, op, i, j);
    case TypeOp(i, kind) =>
      MarkIs(w.dirty, i);
      MetaDurable(w, op, i, w.fs.inodes[i].(kind := kind), j);
    case SizeOp(i, n) => MetaDurable(w, op, i, w.fs.inodes[i].(size := n), j);
    case UpdateOp(i, cs) => UpdateDurable(w, i, cs, j);
    case RefOp(i, up) => MetaDurable(w, op, i, w.fs.inodes[i].(refcnt := w.fs.inodes[i].refcnt + Count(up)), j);
    case UnlinkOp(i) =>
      UnlinkDurable(w, i, j);
      BuryIs(w.dirty, i, Remains(w.fs.inodes[i]));
  }
}
