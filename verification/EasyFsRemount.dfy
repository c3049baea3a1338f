/** Remounting: forget the memory, fill the inodes afresh. */
module EasyFsRemount {
  import opened Basics
  import B = Bitmap
  import opened EasyFs
  import opened EasyFsProofs
  import opened EasyFsFree
  import opened EasyFsWrites
  import opened InodeArea
  import opened EasyFsSync
  import opened EasyFsTheorems

  /** Every live inode has its place and numbers of 32 bits. */
  ghost predicate Storables(fs: Fs, start: nat) {
    forall i :: i in fs.inodes ==> Storable(fs, start, i, fs.inodes[i]) && 0 <= fs.inodes[i].nlink < TWO32
  }

  /** What the disk holds of inode `i` is what the memory holds. */
  predicate Stored(fs: Fs, start: nat, i: nat)
    requires i in fs.inodes && Storable(fs, start, i, fs.inodes[i])
  {
    var nd := fs.inodes[i];
    && Place(start, i) + RECORD <= BLOCK * |fs.disk| && IFill(fs.disk, start, i) == ToDisk(i, nd)
    && (nd.indir.Some? ==> fs.disk[nd.addrs[NDIRECT]] == Encode(nd.indir.value))
  }

  lemma SyncStores(fs: Fs, start: nat, i: nat)
    requires i in fs.inodes && Storable(fs, start, i, fs.inodes[i])
    ensures var fs' := SyncFs(fs, start, i, fs.inodes[i]); Storable(fs', start, i, fs'.inodes[i]) && Stored(fs', start, i)
  {
    hide IUpdate, IFill, Encode, DShape, Place;
    var nd := fs.inodes[i];
    InPlace(fs.disk, start, fs.area, ToDisk(i, nd), nd.indir);
    UpdateFill(fs.disk, start, fs.area, ToDisk(i, nd), nd.indir);
    SyncBlocks(fs, start, i, nd);
  }

  /** Writing inode `i` back leaves what the disk holds of inode `j`. */
  lemma SyncKeepsOther(fs: Fs, start: nat, i: nat, j: nat)
    requires FsOk(fs) && i in fs.inodes && j in fs.inodes && i != j
    requires Storable(fs, start, i, fs.inodes[i]) && Storable(fs, start, j, fs.inodes[j]) && Stored(fs, start, j)
    ensures var fs' := SyncFs(fs, start, i, fs.inodes[i]); Storable(fs', start, j, fs'.inodes[j]) && Stored(fs', start, j)
  {
    hide IUpdate, IFill, Encode, DShape, FsOk, At;
    var nd := fs.inodes[i];
    UpdateOther(fs.disk, start, fs.area, ToDisk(i, nd), nd.indir, j);
    SyncBlocks(fs, start, i, nd);
    TabIs(fs, i);
    TabIs(fs, j);
    if nd.indir.Some? && fs.inodes[j].indir.Some? && nd.addrs[NDIRECT] == fs.inodes[j].addrs[NDIRECT] {
      DistinctSlot(fs, i, Tab, j, Tab);
    }
  }

  /** Writing the dead inode `nd` back under number `d` leaves what the disk holds of `j`:
      another number or the same record, and another table block or the same table. */
  predicate Spares(fs: Fs, d: nat, nd: Inode, j: nat)
    requires j in fs.inodes && InodeShape(fs.inodes[j]) && InodeShape(nd)
  {
    var me := fs.inodes[j];
    && (d == j ==> ToDisk(d, nd) == ToDisk(j, me))
    && (nd.indir.Some? && me.indir.Some? && nd.addrs[NDIRECT] == me.addrs[NDIRECT] ==> nd.indir == me.indir)
  }

  /** A stored inode stays stored exactly when the dead one spares it. */
  lemma DeadKeepsIff(fs: Fs, start: nat, d: nat, nd: Inode, j: nat)
    requires j in fs.inodes && Storable(fs, start, d, nd) && Storable(fs, start, j, fs.inodes[j]) && Stored(fs, start, j)
    ensures var fs' := SyncFs(fs, start, d, nd); Storable(fs', start, j, fs'.inodes[j]) && (Stored(fs', start, j) <==> Spares(fs, d, nd, j))
  {
    hide IUpdate, IFill, DShape, Encode, Decode;
    var me := fs.inodes[j];
    SyncBlocks(fs, start, d, nd);
    InPlace(fs.disk, start, fs.area, ToDisk(d, nd), nd.indir);
    if d == j {
      UpdateFill(fs.disk, start, fs.area, ToDisk(d, nd), nd.indir);
    } else {
      UpdateOther(fs.disk, start, fs.area, ToDisk(d, nd), nd.indir, j);
    }
    if nd.indir.Some? && me.indir.Some? { SameTable(nd.indir.value, me.indir.value); }
  }

  lemma SameTable(a: seq<nat>, b: seq<nat>)
    requires |a| == |b| == NINDIRECT && forall k :: 0 <= k < NINDIRECT ==> a[k] < TWO32 && b[k] < TWO32
    ensures Encode(a) == Encode(b) <==> a == b
  {
    hide Encode, Decode;
    TableRoundTrip(a);
    TableRoundTrip(b);
  }

  // ---- the fresh fill ----

  ghost predicate AllStored(fs: Fs, start: nat) {
    forall i :: i in fs.inodes ==> Storable(fs, start, i, fs.inodes[i]) && Stored(fs, start, i)
  }

  /** An inode as efs_i_get leaves it after efs_i_alloc and efs_i_fill; `mapped` is history. */
  function Filled(fs: Fs, start: nat, i: nat): Inode
    requires i in fs.inodes && Storable(fs, start, i, fs.inodes[i])
  {
    InPlace(fs.disk, start, fs.area, ToDisk(i, fs.inodes[i]), fs.inodes[i].indir);
    Fresh(IFill(fs.disk, start, i)).(mapped := fs.inodes[i].mapped)
  }

  /** The file system with every inode filled afresh. */
  ghost function Remounted(fs: Fs, start: nat): Fs
    requires Storables(fs, start)
  {
    fs.(inodes := map i | i in fs.inodes :: Filled(fs, start, i))
  }

  /** `m` shows the same inodes with the same block maps; only the loaded tables and the
      reference counts are gone. */
  ghost predicate SameFiles(fs: Fs, m: Fs) {
    && m.inodes.Keys == fs.inodes.Keys
    && (forall i :: i in fs.inodes ==> m.inodes[i] == fs.inodes[i].(indir := None, refcnt := 0))
    && (forall i, s :: At(m, i, s) == At(fs, i, s))
  }

  lemma FilledIs(fs: Fs, start: nat, i: nat)
    requires i in fs.inodes && Storable(fs, start, i, fs.inodes[i]) && Stored(fs, start, i) && 0 <= fs.inodes[i].nlink < TWO32
    ensures Filled(fs, start, i) == fs.inodes[i].(indir := None, refcnt := 0)
  {
    hide IFill, Encode, DShape, Place;
  }

  lemma RemountAt(fs: Fs, fs': Fs, start: nat, i: nat, s: Slot)
    requires FsOk(fs) && fs'.disk == fs.disk && fs'.inodes.Keys == fs.inodes.Keys
    requires i in fs.inodes ==>
               Storable(fs, start, i, fs.inodes[i]) && Stored(fs, start, i) && fs'.inodes[i] == fs.inodes[i].(indir := None, refcnt := 0)
    ensures At(fs', i, s) == At(fs, i, s)
  {
    hide IFill, Encode, DShape, Place, Decode;
    if i in fs.inodes && fs.inodes[i].indir.Some? && s.Ind? {
      TableRoundTrip(fs.inodes[i].indir.value);
      TabBlock(fs, i);
    }
  }

  /** A single stored inode is found with its block map and its bytes, whatever has become of
      the others. */
  lemma RemountOne(fs: Fs, start: nat, i: nat)
    requires FsOk(fs) && Storables(fs, start) && i in fs.inodes && Stored(fs, start, i)
    ensures var m := Remounted(fs, start);
            && m.inodes.Keys == fs.inodes.Keys && m.inodes[i] == fs.inodes[i].(indir := None, refcnt := 0)
            && (forall s :: At(m, i, s) == At(fs, i, s)) && forall p: nat :: FileByte(m, i, p) == FileByte(fs, i, p)
  {
    hide FsOk, At, Stored, Storable, Filled;
    var m := Remounted(fs, start);
    FilledIs(fs, start, i);
    forall s ensures At(m, i, s) == At(fs, i, s) { RemountAt(fs, m, start, i, s); }
  }

  lemma RemountedIs(fs: Fs, start: nat)
    requires AllStored(fs, start) && Storables(fs, start)
    ensures var m := Remounted(fs, start);
            && m == fs.(inodes := m.inodes) && m.inodes.Keys == fs.inodes.Keys
            && forall i :: i in fs.inodes ==> m.inodes[i] == fs.inodes[i].(indir := None, refcnt := 0)
  {
    hide Storable, Stored, Filled;
    forall i | i in fs.inodes ensures Remounted(fs, start).inodes[i] == fs.inodes[i].(indir := None, refcnt := 0) { FilledIs(fs, start, i); }
  }

  lemma StoredOne(fs: Fs, start: nat, i: nat)
    requires AllStored(fs, start)
    ensures i in fs.inodes ==> Storable(fs, start, i, fs.inodes[i]) && Stored(fs, start, i)
  {
    hide Storable, Stored;
  }

  /** After all live inodes were stored a remount finds the same files. */
  lemma RemountOk(fs: Fs, start: nat)
    requires FsOk(fs) && AllStored(fs, start) && Storables(fs, start)
    ensures var m := Remounted(fs, start); FsOk(m) && SameFiles(fs, m) && forall i: nat, p: nat :: FileByte(m, i, p) == FileByte(fs, i, p)
  {
    hide At, Stored, Storable, Storables, AllStored, Remounted;
    RemountedIs(fs, start);
    var m := Remounted(fs, start);
    forall i, s ensures At(m, i, s) == At(fs, i, s) {
      StoredOne(fs, start, i);
      RemountAt(fs, m, start, i, s);
    }
    forall i | i in m.inodes ensures PrefixOk(m, i) { assert PrefixOk(fs, i); }
  }

  /** A remount finds the same files exactly when every record on disk carries its number
      and every live inode is stored. */
  lemma RemountIff(fs: Fs, start: nat)
    requires FsOk(fs) && Storables(fs, start)
    ensures AllStored(fs, start) <==> SameFiles(fs, Remounted(fs, start)) && Numbered(fs, start)
  {
    hide At, FsOk, Stored, Storable, FileByte, Numbered, Filled;
    if AllStored(fs, start) {
      RemountOk(fs, start);
      NumbersKept(fs, start);
    } else if SameFiles(fs, Remounted(fs, start)) && Numbered(fs, start) {
      forall i | i in fs.inodes ensures Stored(fs, start, i) {
        assert Filled(fs, start, i) == Remounted(fs, start).inodes[i];
        StoredBack(fs, Remounted(fs, start), start, i);
      }
    }
  }

  ghost predicate Numbered(fs: Fs, start: nat)
    requires Storables(fs, start)
  {
    forall i :: i in fs.inodes ==> Place(start, i) + RECORD <= BLOCK * |fs.disk| && IFill(fs.disk, start, i).no == i
  }

  lemma NumbersKept(fs: Fs, start: nat)
    requires AllStored(fs, start) && Storables(fs, start)
    ensures Numbered(fs, start)
  {
    hide IFill, Encode, DShape, Place;
    forall i | i in fs.inodes ensures Place(start, i) + RECORD <= BLOCK * |fs.disk| && IFill(fs.disk, start, i).no == i { assert Stored(fs, start, i); }
  }

  lemma StoredBack(fs: Fs, m: Fs, start: nat, i: nat)
    requires FsOk(fs) && Storables(fs, start) && Numbered(fs, start) && i in fs.inodes && m.disk == fs.disk && m.inodes.Keys == fs.inodes.Keys
    requires m.inodes[i] == Filled(fs, start, i) == fs.inodes[i].(indir := None, refcnt := 0) && forall s :: At(m, i, s) == At(fs, i, s)
    ensures Storable(fs, start, i, fs.inodes[i]) && Stored(fs, start, i)
  {
    hide IFill, Encode, DShape, Place, Decode, FsOk;
    var nd := fs.inodes[i];
    assert Storable(fs, start, i, nd);
    if nd.indir.Some? { TableBack(fs, m, i); }
  }

  lemma TableBack(fs: Fs, m: Fs, i: nat)
    requires FsOk(fs) && i in fs.inodes && InodeShape(fs.inodes[i]) && fs.inodes[i].indir.Some? && m.disk == fs.disk && m.inodes.Keys == fs.inodes.Keys
    requires m.inodes[i] == fs.inodes[i].(indir := None, refcnt := 0) && forall s :: At(m, i, s) == At(fs, i, s)
    ensures var t := fs.inodes[i].addrs[NDIRECT]; t < |fs.disk| && fs.disk[t] == Encode(fs.inodes[i].indir.value)
  {
    var t, table := fs.inodes[i].addrs[NDIRECT], fs.inodes[i].indir.value;
    TabBlock(fs, i);
    TabIs(fs, i);
    hide FsOk, Encode;
    forall j: nat | j < NINDIRECT ensures Decode(fs.disk[t])[j] == table[j] { assert At(m, i, Ind(j)) == At(fs, i, Ind(j)); }
    EncodeDecode(fs.disk[t]);
    assert Decode(fs.disk[t]) == table;
  }
}
