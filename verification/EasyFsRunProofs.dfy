/** Every operation of easyfs keeps the invariant and does to the files what it should. */
module EasyFsRunProofs {
  import opened Basics
  import B = Bitmap
  import opened EasyFs
  import opened EasyFsProofs
  import opened EasyFsFree
  import opened EasyFsWrites
  import opened InodeArea
  import opened EasyFsSync
  import opened EasyFsTheorems
  import opened DirRecords
  import opened EasyFsRuns

  // ---- what the invariant gives ----

  lemma LiveFacts(w: World, i: nat)
    requires WorldOk(w) && i in w.fs.inodes
    ensures Ready(w.fs, i) && w.fs.inodes[i].mapped <= MAXFILE && Small(w.fs.inodes[i]) && (Regular(w.fs, i) ==> Covered(w.fs, i))
    ensures 0 < i < w.slots && B.Bit(w.inoMap.words, i) && w.inoMap.Safe() && w.fs.bm.size <= |w.fs.disk|
  {
    hide FsOk, DirtyOk;
    Usable(w.fs, i);
  }

  lemma WorldBlocks(w: World)
    requires WorldOk(w)
    ensures Blocks(w.fs.disk) && w.inoMap.Safe() && w.fs.bm.Safe()
  {
    hide At, DirtyOk;
  }

  /** The inode the operation works on is live. */
  predicate OnLive(w: World, op: Op) {
    match op
    case NewOp(_, _) => true
    case SyncOp => w.dirty != []
    case WriteOp(i, _, _) => i in w.fs.inodes
    case ReadOp(i, _) => i in w.fs.inodes
    case TypeOp(i, _) => i in w.fs.inodes
    case SizeOp(i, _) => i in w.fs.inodes
    case UpdateOp(i, _) => i in w.fs.inodes
    case RefOp(i, _) => i in w.fs.inodes
    case UnlinkOp(i) => i in w.fs.inodes
  }

  /** In a consistent world every operation on a live inode, and every round of efs_sync, is
      defined. */
  lemma AllDefined(w: World, op: Op)
    requires WorldOk(w) && OnLive(w, op)
    ensures Defined(w, op)
  {
    hide FsOk, Small, Covered, WorldOk;
    WorldBlocks(w);
    match op
    case NewOp(_, _) =>
    case SyncOp => HeadOk(w);
    case WriteOp(i, _, _) => LiveFacts(w, i);
    case ReadOp(i, _) => LiveFacts(w, i);
    case TypeOp(i, _) =>
    case SizeOp(i, _) =>
    case UpdateOp(i, _) => LiveFacts(w, i);
    case RefOp(i, _) =>
    case UnlinkOp(i) => LiveFacts(w, i);
  }

  /** What efs_sync writes has its place. */
  lemma HeadOk(w: World)
    requires WorldOk(w) && w.dirty != []
    ensures var it := w.dirty[0];
            ItemOk(w, it) && Writable(w.fs, it) && Storable(w.fs, w.start, it.ino, NodeOf(w.fs, it)) && 0 < it.ino < w.slots
  {
    hide FsOk, AllCovered, Layout, Place;
    assert w.dirty[0] in w.dirty;
    if w.dirty[0].Live? { LiveStored(w, w.dirty[0].ino); }
  }

  lemma LiveStored(w: World, i: nat)
    requires WorldOk(w) && i in w.fs.inodes
    ensures Storable(w.fs, w.start, i, w.fs.inodes[i]) && 0 < i < w.slots
  {
    hide FsOk, Place, DirtyOk, Storable, Small;
    LiveFacts(w, i);
    PlaceOf(w, i);
    LiveStorable(w.fs, w.start, i);
  }

  lemma PlaceOf(w: World, i: nat)
    requires InodeMapOk(w) && i < w.slots
    ensures Place(w.start, i) + INODE_SIZE <= w.fs.area * BLOCK && i < TWO32
  {
  }

  lemma FsBlocks(fs: Fs)
    requires FsOk(fs)
    ensures Blocks(fs.disk)
  {
    hide At;
  }

  // ---- the dirty list ----

  ghost predicate SameGround(w: World, w': World) {
    && w'.start == w.start && w'.slots == w.slots
    && w'.fs.area == w.fs.area && |w'.fs.disk| == |w.fs.disk| && Blocks(w'.fs.disk)
  }

  lemma ItemStays(w: World, w': World, it: Item)
    requires ItemOk(w, it) && SameGround(w, w') && (it.Live? ==> it.ino in w'.fs.inodes)
    ensures ItemOk(w', it)
  {
    hide DShape, Place;
  }

  /** Inodes may be added, and `i` may be marked. */
  lemma DirtyMarked(w: World, w': World, i: nat)
    requires DirtyOk(w) && SameGround(w, w') && (w'.dirty == w.dirty || (w'.dirty == Mark(w.dirty, i) && i in w'.fs.inodes))
    requires forall j :: j in w.fs.inodes ==> j in w'.fs.inodes
    ensures DirtyOk(w')
  {
    hide ItemOk;
    forall it | it in w'.dirty ensures ItemOk(w', it) {
      if it in w.dirty { LiveInodes(w, it); ItemStays(w, w', it); } else { IsLive(w', it); }
    }
  }

  lemma LiveInodes(w: World, it: Item)
    requires ItemOk(w, it)
    ensures it.Live? ==> it.ino in w.fs.inodes
  {
  }

  lemma IsLive(w: World, it: Item)
    requires it.Live? && it.ino in w.fs.inodes
    ensures ItemOk(w, it)
  {
  }

  // ---- the inode bitmap ----

  lemma MapSame(w: World, w': World)
    requires InodeMapOk(w) && w'.start == w.start && w'.slots == w.slots && w'.inoMap == w.inoMap && w'.inodeFree == w.inodeFree
    requires w'.fs.inodes.Keys == w.fs.inodes.Keys && w'.fs.area == w.fs.area
    ensures InodeMapOk(w')
  {
  }

  lemma TotalSame(fs: Fs, fs': Fs, n: nat)
    requires fs'.inodes.Keys == fs.inodes.Keys && forall i :: i in fs.inodes ==> fs'.inodes[i].mapped == fs.inodes[i].mapped
    ensures Total(fs', n) == Total(fs, n)
  {
    TotalChange(fs, fs', 0, n);
  }

  // ---- efs_i_write ----

  lemma WriteKeeps(w: World, i: nat, off: nat, data: seq<Byte>)
    requires WorldOk(w) && Defined(w, WriteOp(i, off, data)) && Guard(w, WriteOp(i, off, data))
    ensures Step(w, WriteOp(i, off, data), Do(w, WriteOp(i, off, data)))
  {
    hide FsOk, WriteAll, NextTableZero, After, Contents, Covered, Need, InodeMapOk, Total, DirtyOk, AllSmall, Overwrite, Mark;
    LiveFacts(w, i);
    var fs1 := WriteAll(w.fs, i, off, data).0;
    var w' := Do(w, WriteOp(i, off, data));
    CoveredReady(w.fs, i, off, |data|);
    WriteAllOk(w.fs, i, off, data);
    if Refused(w.fs.inodes[i], off, |data|) {
      RefusedSpec(w.fs, i, off, data);
      assert w' == w;
    } else {
      WriteContents(w.fs, fs1, i, off, data);
      WriteRecord(w.fs, fs1, i, off, data);
      FsBlocks(fs1);
      DirtyMarked(w, w', i);
      MapSame(w, w');
      SmallStays(w.fs, fs1, i);
      TotalChange(w.fs, fs1, i, w.slots);
      WriteFiles(w.fs, fs1, i, off, data);
    }
  }

  lemma CoveredReady(fs: Fs, i: nat, off: nat, len: nat)
    requires Ready(fs, i) && Covered(fs, i)
    requires !Refused(fs.inodes[i], off, len) ==> (off + len > NDIRECT * BLOCK ==> NextTableZero(fs, i))
    ensures WriteReady(fs, i, off, len)
  {
    hide NextTableZero;
  }

  lemma RefusedSpec(fs: Fs, i: nat, off: nat, data: seq<Byte>)
    requires i in fs.inodes && Refused(fs.inodes[i], off, |data|)
    ensures Apply(Files(fs), WriteOp(i, off, data)) == Files(fs)
  {
    hide FileByte;
  }

  /** What a write leaves of the inodes. */
  lemma WriteRecord(fs: Fs, fs': Fs, i: nat, off: nat, data: seq<Byte>)
    requires After(fs, fs', i, off, data) && off + |data| <= MAXFILE * BLOCK
    ensures fs'.area == fs.area && |fs'.disk| == |fs.disk| && fs'.inodes.Keys == fs.inodes.Keys && i in fs.inodes
    ensures forall j :: j in fs.inodes && j != i ==> fs'.inodes[j] == fs.inodes[j]
    ensures Small(fs.inodes[i]) ==> Small(fs'.inodes[i])
    ensures MetaSame(fs.inodes[i], fs'.inodes[i])
    ensures fs'.blockFree + Owned(fs'.inodes[i].mapped) == fs.blockFree + Owned(fs.inodes[i].mapped)
    ensures forall j: nat :: j != i ==> OwnedAt(fs', j) == OwnedAt(fs, j)
  {
    hide Written, BlocksFor, Owned, TabsKept;
  }

  predicate MetaSame(nd: Inode, nd': Inode) { nd'.kind == nd.kind && nd'.nlink == nd.nlink && nd'.refcnt == nd.refcnt }

  lemma WriteFiles(fs: Fs, fs': Fs, i: nat, off: nat, data: seq<Byte>)
    requires i in fs.inodes && Regular(fs, i) && fs'.inodes.Keys == fs.inodes.Keys && !Refused(fs.inodes[i], off, |data|)
    requires Contents(fs', i) == Overwrite(Contents(fs, i), off, data)
    requires forall j :: j in fs.inodes && j != i ==> fs'.inodes[j] == fs.inodes[j]
    requires forall j :: j in fs.inodes && j != i && Regular(fs, j) ==> Contents(fs', j) == Contents(fs, j)
    requires MetaSame(fs.inodes[i], fs'.inodes[i])
    ensures Files(fs') == Apply(Files(fs), WriteOp(i, off, data))
  {
    hide Contents, Overwrite;
  }

  lemma SmallStays(fs: Fs, fs': Fs, i: nat)
    requires AllSmall(fs) && fs'.inodes.Keys == fs.inodes.Keys && forall j :: j in fs.inodes && j != i ==> fs'.inodes[j] == fs.inodes[j]
    requires i in fs.inodes ==> Small(fs'.inodes[i])
    ensures AllSmall(fs')
  {
  }

  // ---- efs_d_update ----

  lemma UpdateKeeps(w: World, i: nat, cs: seq<Dirent>)
    requires WorldOk(w) && Defined(w, UpdateOp(i, cs)) && Guard(w, UpdateOp(i, cs))
    ensures Step(w, UpdateOp(i, cs), Do(w, UpdateOp(i, cs)))
    ensures UpdateOutcome(w.fs, i, cs, Do(w, UpdateOp(i, cs)).fs, false)
  {
    hide FsOk, UpdateFrom, Touches, NextTableZero, Contents, Covered, Need, InodeMapOk, Total, DirtyOk, AllSmall, Mark, Updating, Extended, Listed;
    LiveFacts(w, i);
    var w' := Do(w, UpdateOp(i, cs));
    UpdateStart(w.fs, i, cs);
    UpdateOk(w.fs, w.fs, i, cs, 0);
    ExtendedFacts(w.fs, w'.fs, i, Extent(|cs|));
    FsBlocks(w'.fs);
    DirtyMarked(w, w', i);
    MapSame(w, w');
    SmallStays(w.fs, w'.fs, i);
    TotalChange(w.fs, w'.fs, i, w.slots);
    OthersSame(w, w', i);
  }

  lemma ExtendedFacts(fs: Fs, fs': Fs, i: nat, end: nat)
    requires Extended(fs, fs', i, end)
    ensures fs'.area == fs.area && |fs'.disk| == |fs.disk| && fs'.inodes.Keys == fs.inodes.Keys && i in fs.inodes && Kept(fs, fs', {i})
    ensures forall j :: j in fs.inodes && j != i ==> fs'.inodes[j] == fs.inodes[j]
    ensures MetaSame(fs.inodes[i], fs'.inodes[i]) && fs'.inodes[i].size == fs.inodes[i].size
    ensures Small(fs.inodes[i]) ==> Small(fs'.inodes[i])
    ensures fs'.blockFree + Owned(fs'.inodes[i].mapped) == fs.blockFree + Owned(fs.inodes[i].mapped)
    ensures forall j: nat :: j != i ==> OwnedAt(fs', j) == OwnedAt(fs, j)
  {
    hide BlocksFor, Owned, TabsKept, Kept;
  }

  /** Only the directory `i` has changed. */
  lemma OthersSame(w: World, w': World, i: nat)
    requires AllCovered(w.fs) && i in w.fs.inodes && w.fs.inodes[i].kind == F_DIR && Kept(w.fs, w'.fs, {i})
    requires w'.fs.inodes.Keys == w.fs.inodes.Keys && w'.fs.inodes[i].kind == F_DIR
    ensures AllCovered(w'.fs) && Files(w'.fs) == Files(w.fs)
  {
    hide FileByte, Contents, Covered, Kept;
    forall j | j in w.fs.inodes && j != i ensures w'.fs.inodes[j] == w.fs.inodes[j] && (Regular(w.fs, j) ==> Covered(w'.fs, j) && Contents(w'.fs, j) == Contents(w.fs, j)) {
      KeptAt(w.fs, w'.fs, {i}, j);
      if Regular(w.fs, j) {
        KeptContents(w.fs, w'.fs, {i}, j);
        CoveredSame(w.fs, w'.fs, j);
      }
    }
  }

  lemma CoveredSame(fs: Fs, fs': Fs, j: nat)
    requires j in fs.inodes && j in fs'.inodes && fs'.inodes[j] == fs.inodes[j]
    ensures Covered(fs', j) == Covered(fs, j)
  {
  }

  // ---- steps that change type, size or links of one inode ----

  lemma MetaWorld(w: World, w': World, i: nat, nd: Inode)
    requires WorldOk(w) && i in w.fs.inodes && MetaOnly(w.fs.inodes[i], nd) && Small(nd) && w' == w.(fs := SetInode(w.fs, i, nd), dirty := w'.dirty)
    requires w'.dirty == w.dirty || w'.dirty == Mark(w.dirty, i)
    requires nd.kind != F_DIR ==> nd.size <= BLOCK * nd.mapped
    ensures WorldOk(w') && Total(w'.fs, w.slots) == Total(w.fs, w.slots)
    ensures forall j :: j in w.fs.inodes && (j != i || nd.size == w.fs.inodes[i].size) ==> Contents(w'.fs, j) == Contents(w.fs, j)
  {
    hide FsOk, FileByte, Contents, Total, DirtyOk, InodeMapOk, Mark, Small;
    WorldBlocks(w);
    MetaOk(w.fs, i, nd);
    forall j | j in w.fs.inodes && (j != i || nd.size == w.fs.inodes[i].size) ensures Contents(w'.fs, j) == Contents(w.fs, j) { MetaContents(w.fs, i, nd, j); }
    forall j | j in w'.fs.inodes ensures (Regular(w'.fs, j) ==> Covered(w'.fs, j)) && Small(w'.fs.inodes[j]) { assert j != i && Regular(w.fs, j) ==> Covered(w.fs, j); }
    DirtyMarked(w, w', i);
    MapSame(w, w');
    TotalSame(w.fs, w'.fs, w.slots);
  }

  lemma MetaContents(fs: Fs, ino: nat, nd: Inode, j: nat)
    requires ino in fs.inodes && MetaOnly(fs.inodes[ino], nd) && j in fs.inodes && (j != ino || nd.size == fs.inodes[ino].size)
    ensures Contents(SetInode(fs, ino, nd), j) == Contents(fs, j)
  {
    hide FileByte;
    var fs' := SetInode(fs, ino, nd);
    forall p: nat ensures FileByte(fs', j, p) == FileByte(fs, j, p) { MetaByte(fs, ino, nd, j, p); }
  }

  lemma TypeKeeps(w: World, i: nat, kind: nat)
    requires WorldOk(w) && Defined(w, TypeOp(i, kind)) && Guard(w, TypeOp(i, kind))
    ensures Step(w, TypeOp(i, kind), Do(w, TypeOp(i, kind)))
  {
    hide FsOk, FileByte, Contents, Total, DirtyOk, InodeMapOk, Mark, WorldOk;
    LiveFacts(w, i);
    var w' := Do(w, TypeOp(i, kind));
    MetaWorld(w, w', i, w.fs.inodes[i].(kind := kind));
  }

  lemma SizeKeeps(w: World, i: nat, n: nat)
    requires WorldOk(w) && Defined(w, SizeOp(i, n)) && Guard(w, SizeOp(i, n))
    ensures Step(w, SizeOp(i, n), Do(w, SizeOp(i, n)))
  {
    hide FsOk, FileByte, Contents, Total, DirtyOk, InodeMapOk, WorldOk;
    LiveFacts(w, i);
    var w' := Do(w, SizeOp(i, n));
    MetaWorld(w, w', i, w.fs.inodes[i].(size := n));
  }

  lemma RefKeeps(w: World, i: nat, up: bool)
    requires WorldOk(w) && Defined(w, RefOp(i, up)) && Guard(w, RefOp(i, up))
    ensures Step(w, RefOp(i, up), Do(w, RefOp(i, up)))
  {
    hide FsOk, FileByte, Contents, Total, DirtyOk, InodeMapOk, WorldOk;
    LiveFacts(w, i);
    var w', n := Do(w, RefOp(i, up)), w.fs.inodes[i].refcnt + Count(up);
    MetaWorld(w, w', i, w.fs.inodes[i].(refcnt := n));
    assert Regular(w.fs, i) ==> Files(w'.fs) == Files(w.fs)[i := Files(w.fs)[i].(refs := n)];
    assert !Regular(w.fs, i) ==> Files(w'.fs) == Files(w.fs);
  }

  // ---- steps that leave all files as they are ----

  /** The files, the inodes up to the loaded table, and the counts are the same. */
  lemma QuietKeeps(w: World, w': World, op: Op)
    requires WorldOk(w) && Defined(w, op) && (op.ReadOp? || op.SyncOp?) && FsOk(w'.fs)
    requires w'.start == w.start && w'.slots == w.slots && w'.inoMap == w.inoMap && w'.inodeFree == w.inodeFree
    requires (forall it :: it in w'.dirty ==> it in w.dirty) && w'.fs == w.fs.(disk := w'.fs.disk, inodes := w'.fs.inodes) && |w'.fs.disk| == |w.fs.disk|
    requires w'.fs.inodes.Keys == w.fs.inodes.Keys && forall i :: i in w.fs.inodes ==> w'.fs.inodes[i] == w.fs.inodes[i].(indir := w'.fs.inodes[i].indir)
    requires forall i, p :: i in w.fs.inodes && 0 <= p < BLOCK * w.fs.inodes[i].mapped ==> FileByte(w'.fs, i, p) == FileByte(w.fs, i, p)
    ensures Step(w, op, w')
  {
    hide FsOk, FileByte, InodeMapOk, ItemOk, Contents, Total, Small;
    WorldBlocks(w);
    FsBlocks(w'.fs);
    forall i | i in w.fs.inodes && Regular(w.fs, i) ensures Covered(w'.fs, i) && FileOf(w'.fs, i) == FileOf(w.fs, i) {
      assert Covered(w.fs, i);
      ContentsSame(w.fs, w'.fs, i);
    }
    assert Files(w'.fs) == Files(w.fs);
    TotalSame(w.fs, w'.fs, w.slots);
    forall it | it in w'.dirty ensures ItemOk(w', it) {
      LiveInodes(w, it);
      ItemStays(w, w', it);
    }
    MapSame(w, w');
    SmallSame(w.fs, w'.fs);
  }

  lemma SmallSame(fs: Fs, fs': Fs)
    requires AllSmall(fs) && fs'.inodes.Keys == fs.inodes.Keys && forall i :: i in fs.inodes ==> fs'.inodes[i] == fs.inodes[i].(indir := fs'.inodes[i].indir)
    ensures AllSmall(fs')
  {
  }

  lemma ReadKeeps(w: World, i: nat, l: nat)
    requires WorldOk(w) && Defined(w, ReadOp(i, l))
    ensures Step(w, ReadOp(i, l), Do(w, ReadOp(i, l)))
  {
    hide FsOk, Bmap, FileByte, At, AllCovered, AllSmall, InodeMapOk, DirtyOk;
    BmapLookup(w.fs, i, l);
    var fs1 := Bmap(w.fs, i, l, false).0;
    forall j: nat, p: nat ensures FileByte(fs1, j, p) == FileByte(w.fs, j, p) { LookupByte(w.fs, fs1, i, j, p); }
    QuietKeeps(w, Do(w, ReadOp(i, l)), ReadOp(i, l));
  }

  lemma SyncKeeps(w: World)
    requires WorldOk(w) && Defined(w, SyncOp) && Guard(w, SyncOp)
    ensures Step(w, SyncOp, Do(w, SyncOp))
    ensures SameView(w.fs, Do(w, SyncOp).fs)
  {
    hide FsOk, FileByte, At, AllCovered, AllSmall, InodeMapOk, DirtyOk, IUpdate, Storable, Harmless;
    HeadOk(w);
    if w.dirty[0].Live? {
      SyncLive(w.fs, w.start, w.dirty[0].ino);
    } else {
      SyncDead(w.fs, w.start, w.dirty[0].ino, w.dirty[0].nd);
    }
    QuietKeeps(w, Do(w, SyncOp), SyncOp);
  }

  // ---- efs_i_new ----

  lemma NewKeeps(w: World, i: nat, dev: nat)
    requires WorldOk(w) && Defined(w, NewOp(i, dev)) && Guard(w, NewOp(i, dev))
    ensures Step(w, NewOp(i, dev), Do(w, NewOp(i, dev)))
  {
    hide FsOk, At, FileByte, Contents, Total, DirtyOk, InodeMapOk, Mark, B.Alloc;
    WorldBlocks(w);
    NewNumber(w, i, dev);
    var w' := Do(w, NewOp(i, dev));
    NewOk(w.fs, i, 0, dev);
    forall j | j in w.fs.inodes ensures Contents(w'.fs, j) == Contents(w.fs, j) { NewSame(w.fs, i, dev, j); }
    forall j | j in w'.fs.inodes ensures (Regular(w'.fs, j) ==> Covered(w'.fs, j)) && Small(w'.fs.inodes[j]) {
      assert j != i && Regular(w.fs, j) ==> Covered(w.fs, j);
    }
    assert |Contents(w'.fs, i)| == 0;
    assert Files(w'.fs) == Files(w.fs)[i := File([], 1, 0)];
    DirtyMarked(w, w', i);
    TotalChange(w.fs, w'.fs, i, w.slots);
  }

  /** The number handed out is that of no live inode. */
  lemma NewNumber(w: World, i: nat, dev: nat)
    requires InodeMapOk(w) && Defined(w, NewOp(i, dev)) && Guard(w, NewOp(i, dev))
    ensures i !in w.fs.inodes && InodeMapOk(Do(w, NewOp(i, dev)))
  {
    hide Mark, EmptyInode, B.Alloc, B.Free, B.AllSet;
    var w' := Do(w, NewOp(i, dev));
    NumberTaken(w.inoMap, w.slots, i);
    forall j | j in w'.fs.inodes ensures 0 < j < w.slots && B.Bit(w'.inoMap.words, j) { assert j != i ==> B.Bit(w.inoMap.words, j); }
  }

  lemma NumberTaken(v: B.Value, n: nat, i: nat)
    requires v.Safe() && v.(size := n).Managed(1) && v.size <= n <= v.size + 1 && B.Alloc(v).0 == i
    ensures var v' := B.Alloc(v).1;
            && 0 < i < n && n <= 64 * |v.words| && !B.Bit(v.words, i)
            && v'.Safe() && v'.(size := n).Managed(1) && v'.size == v.size && v'.unused == v.unused - 1
            && |v'.words| == |v.words| && forall k: nat :: k < 64 * |v.words| ==> B.Bit(v'.words, k) == (k == i || B.Bit(v.words, k))
  {
    hide B.AllSet, B.Alloc;
    B.WiderAlloc(v, n);
    B.AllocLeast(v.(size := n), 1);
    CountDown(v, i);
  }

  lemma CountDown(v: B.Value, i: nat)
    requires v.Safe() && B.Alloc(v).0 == i
    ensures B.Alloc(v).1.unused == v.unused - 1 && B.Alloc(v).1.size == v.size && B.Alloc(v).1.Safe()
  {
    B.AllocSafe(v);
  }

  lemma NewSame(fs: Fs, ino: nat, dev: nat, i: nat)
    requires ino !in fs.inodes && i in fs.inodes
    ensures Contents(SetInode(fs, ino, EmptyInode(0, dev)), i) == Contents(fs, i)
  {
    hide FileByte;
    var fs' := SetInode(fs, ino, EmptyInode(0, dev));
    forall p: nat ensures FileByte(fs', i, p) == FileByte(fs, i, p) { NewByte(fs, ino, dev, i, p); }
  }

  // ---- efs_i_unlink ----

  lemma UnlinkKeeps(w: World, i: nat)
    requires WorldOk(w) && Defined(w, UnlinkOp(i)) && Guard(w, UnlinkOp(i))
    ensures Step(w, UnlinkOp(i), Do(w, UnlinkOp(i)))
  {
    hide FsOk, At, FileByte, Contents, Total, DirtyOk, InodeMapOk, AllCovered, AllSmall, FreedList, ReleaseAll, B.Release;
    WorldBlocks(w);
    if LastLink(w.fs.inodes[i], i) {
      LastKeeps(w, i);
    } else if !UnlinkRefused(w.fs.inodes[i], i) {
      DropKeeps(w, i);
    }
  }

  /** One link less, others remain. */
  lemma DropKeeps(w: World, i: nat)
    requires WorldOk(w) && Defined(w, UnlinkOp(i)) && !UnlinkRefused(w.fs.inodes[i], i) && w.fs.inodes[i].nlink != 1
    ensures Step(w, UnlinkOp(i), Do(w, UnlinkOp(i)))
  {
    hide FsOk, At, FileByte, Contents, Total, DirtyOk, InodeMapOk, WorldOk;
    LiveFacts(w, i);
    var w', n := Do(w, UnlinkOp(i)), w.fs.inodes[i].nlink - 1;
    MetaWorld(w, w', i, w.fs.inodes[i].(nlink := n));
    assert Regular(w.fs, i) ==> Files(w'.fs) == Files(w.fs)[i := Files(w.fs)[i].(links := n)];
    assert !Regular(w.fs, i) ==> Files(w'.fs) == Files(w.fs);
  }

  /** The last link goes: the blocks and the number are free, the inode is dead. */
  lemma LastKeeps(w: World, i: nat)
    requires WorldOk(w) && Defined(w, UnlinkOp(i)) && LastLink(w.fs.inodes[i], i) && i < w.inoMap.size
    ensures Step(w, UnlinkOp(i), Do(w, UnlinkOp(i)))
  {
    hide FsOk, At, FileByte, Contents, Total, DirtyOk, InodeMapOk, FreedList, ReleaseAll, Bury, B.Release, Freeing, Freed;
    WorldBlocks(w);
    var w' := Do(w, UnlinkOp(i));
    LastOk(w.fs, i);
    forall j | j in w'.fs.inodes ensures Contents(w'.fs, j) == Contents(w.fs, j) { UnlinkSame(w.fs, w'.fs, i, j); }
    forall j | j in w'.fs.inodes ensures (Regular(w'.fs, j) ==> Covered(w'.fs, j)) && Small(w'.fs.inodes[j]) {
      assert Regular(w.fs, j) ==> Covered(w.fs, j);
    }
    assert Regular(w.fs, i) ==> Files(w'.fs) == Files(w.fs) - {i};
    assert !Regular(w.fs, i) ==> Files(w'.fs) == Files(w.fs);
    LiveFacts(w, i);
    LastNumber(w, i);
    LastDirty(w, i);
    TotalChange(w.fs, w'.fs, i, w.slots);
  }

  lemma LastDirty(w: World, i: nat)
    requires WorldOk(w) && Defined(w, UnlinkOp(i)) && LastLink(w.fs.inodes[i], i)
    ensures DirtyOk(Do(w, UnlinkOp(i)))
  {
    hide FsOk, At, FreedList, ReleaseAll, Bury, B.Release, Freeing, Freed, ItemOk, Storable, AllCovered, AllSmall, InodeMapOk;
    var w' := Do(w, UnlinkOp(i));
    WorldBlocks(w);
    LastOk(w.fs, i);
    LiveStored(w, i);
    RemainsOk(w, i);
    BuryIs(w.dirty, i, Remains(w.fs.inodes[i]));
    forall it | it in w'.dirty ensures ItemOk(w', it) {
      if it in w.dirty { LiveInodes(w, it); }
      ItemStays(w, w', it);
    }
  }

  lemma RemainsOk(w: World, i: nat)
    requires i in w.fs.inodes && Storable(w.fs, w.start, i, w.fs.inodes[i]) && 0 < i < w.slots
    ensures ItemOk(w, Gone(i, Remains(w.fs.inodes[i])))
  {
  }

  lemma LastOk(fs: Fs, i: nat)
    requires FsOk(fs) && Ready(fs, i) && fs.inodes[i].mapped <= MAXFILE && LastLink(fs.inodes[i], i)
    ensures var fs' := UnlinkFs(fs, i);
            && FsOk(fs') && fs'.inodes == fs.inodes - {i} && fs'.(inodes := fs.inodes) == fs.(bm := fs'.bm, blockFree := fs'.blockFree)
            && fs'.blockFree == fs.blockFree + |FreedList(fs.inodes[i])|
  {
    hide FsOk, Freeing, FreedList, Freed, At;
    var l := FreedList(fs.inodes[i]);
    ReleaseOk(fs, i, |l|);
    assert l[..|l|] == l;
    ListIsFreed(fs.inodes[i]);
    UnlinkOk(fs, ReleaseAll(fs, l), i);
  }

  lemma LastNumber(w: World, i: nat)
    requires InodeMapOk(w) && Defined(w, UnlinkOp(i)) && LastLink(w.fs.inodes[i], i) && i < w.inoMap.size
    ensures InodeMapOk(Do(w, UnlinkOp(i)))
  {
    hide UnlinkFs, Bury, B.Release, B.Free, B.AllSet;
    assert B.Bit(w.inoMap.words, i);
    var w' := Do(w, UnlinkOp(i));
    NumberBack(w.inoMap, w.slots, i);
    UnlinkKeys(w.fs, i);
    forall j | j in w'.fs.inodes ensures B.Bit(w'.inoMap.words, j) { assert B.Bit(w.inoMap.words, j); }
  }

  lemma UnlinkKeys(fs: Fs, i: nat)
    requires Ready(fs, i) && fs.inodes[i].mapped <= MAXFILE && LastLink(fs.inodes[i], i)
    ensures UnlinkFs(fs, i).inodes == fs.inodes - {i} && UnlinkFs(fs, i).area == fs.area
  {
    hide FreedList;
  }

  lemma NumberBack(v: B.Value, n: nat, i: nat)
    requires v.Safe() && v.(size := n).Managed(1) && v.size <= n && 0 < i < v.size && B.Bit(v.words, i)
    ensures var v' := B.Release(v, i);
            && v'.Safe() && v'.(size := n).Managed(1) && v'.size == v.size && v'.unused == v.unused + 1
            && |v'.words| == |v.words| && forall k: nat :: k < 64 * |v.words| && k != i ==> B.Bit(v'.words, k) == B.Bit(v.words, k)
  {
    assert B.Release(v, i).(size := n) == B.Release(v.(size := n), i);
    B.ReleaseOne(v.(size := n), 1, i);
    B.ClearBit(v.words, i);
  }

  lemma UnlinkSame(fs: Fs, fs': Fs, ino: nat, i: nat)
    requires fs'.inodes == fs.inodes - {ino} && fs'.(inodes := fs.inodes) == fs.(bm := fs'.bm, blockFree := fs'.blockFree) && i in fs'.inodes
    ensures Contents(fs', i) == Contents(fs, i)
  {
    hide FileByte;
    forall p: nat ensures FileByte(fs', i, p) == FileByte(fs, i, p) { UnlinkByte(fs, fs', ino, i, p); }
  }

  lemma UnlinkByte(fs: Fs, fs': Fs, ino: nat, i: nat, p: nat)
    requires fs'.inodes == fs.inodes - {ino} && fs'.(inodes := fs.inodes) == fs.(bm := fs'.bm, blockFree := fs'.blockFree) && i != ino
    ensures FileByte(fs', i, p) == FileByte(fs, i, p)
  {
    hide At;
    var fs1 := fs.(bm := fs'.bm, blockFree := fs'.blockFree);
    assert fs' == Without(fs1, ino);
    WithoutAt(fs, fs1, ino, i, SlotOf(p / BLOCK));
  }

  /** Every operation. */
  lemma StepKeeps(w: World, op: Op)
    requires WorldOk(w) && Defined(w, op) && Guard(w, op)
    ensures Step(w, op, Do(w, op))
  {
    hide Step, WorldOk, Do, Guard;
    match op
    case WriteOp(i, off, data) => WriteKeeps(w, i, off, data);
    case ReadOp(i, l) => ReadKeeps(w, i, l);
    case NewOp(i, dev) => NewKeeps(w, i, dev);
    case TypeOp(i, kind) => TypeKeeps(w, i, kind);
    case SizeOp(i, n) => SizeKeeps(w, i, n);
    case UpdateOp(i, cs) => UpdateKeeps(w, i, cs);
    case RefOp(i, up) => RefKeeps(w, i, up);
    case UnlinkOp(i) => UnlinkKeeps(w, i);
    case SyncOp => SyncKeeps(w);
  }
}
