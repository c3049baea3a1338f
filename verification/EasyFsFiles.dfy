/** The file system in memory: the operations of inode.c and super.c in place. */
module EasyFsFiles {
  import opened Basics
  import B = Bitmap
  import W = Word64
  import opened EasyFs
  import opened EasyFsProofs
  import opened EasyFsFree
  import opened EasyFsWrites
  import opened InodeArea
  import opened EasyFsSync
  import opened EasyFsRuns
  import opened EasyFsRunProofs

  /** efs_fill_imap and efs_fill_bmap: adopt a bitmap in memory, bit 0 excluded; `n` is one
      more than `count` if the count of free bits includes the bit `count`. */
  method FillMap(words: array<W.Word>, count: nat, free: int, ghost n: nat) returns (m: B.Map)
    requires 0 < count <= n <= count + 1 && n <= 64 * words.Length && free == |B.Free(words[..], 1, n)|
    requires n > count ==> B.Free(words[..], 1, count) != {}
    modifies words
    ensures fresh(m) && m.words == words && m.Val().Safe() && m.Val().(size := n).Managed(1) && m.size == count && m.unused == free
    ensures B.Free(words[..], 1, n) == old(B.Free(words[..], 1, n))
  {
    hide B.Free, B.Alloc, B.ResetCursor;
    m := new B.Map.InitZone(words, count);
    ghost var v := m.Val();
    m.BitmapResetAllo(1);
    m.unused := free;
    if n > count { B.ResetWider(v, 1, n, free); } else { B.ResetManaged(v, 1, free); }
    ResetSize(v);
  }

  lemma ResetSize(v: B.Value)
    requires v.Safe()
    ensures B.ResetCursor(v, 1).size == v.size && B.ResetCursor(v, 1).Safe()
  {
    B.AllocSafe(v.(allocation := 1));
  }

  class Efs {
    var disk: seq<seq<Byte>>
    const start: nat
    const area: nat
    const dev: nat
    const slots: nat
    const bm: B.Map
    var blockFree: int
    const inoMap: B.Map
    var inodeFree: int
    var inodes: map<nat, Inode>
    var dirty: seq<Item>

    ghost function State(): Fs
      reads this, bm, bm.words
    {
      Fs(disk, area, bm.Val(), blockFree, inodes)
    }

    ghost function Now(): World
      reads this, bm, bm.words, inoMap, inoMap.words
    {
      World(State(), start, slots, inoMap.Val(), inodeFree, dirty)
    }

    /** The two bitmaps lie in different memory. */
    ghost predicate Apart()
      reads bm, inoMap
    {
      bm != inoMap && bm.words != inoMap.words
    }

    ghost predicate Valid()
      reads this, bm, bm.words, inoMap, inoMap.words
    {
      Apart() && FsOk(State()) && InodeMapOk(Now()) && dev < TWO32
    }

    /** efs_fill_imap and efs_fill_bmap: adopt the bitmaps found on disk.  No inode is in
        memory yet.  The count of free inodes is exact, or one more with the number
        `inodeCount` included, as the image builder writes it. */
    constructor Mount(image: seq<seq<Byte>>, inodeArea: nat, blockArea: nat, devno: nat, iwords: array<W.Word>, inodeCount: nat, inodeSlots: nat,
                      ifree: int, words: array<W.Word>, blockCount: nat, free: int)
      requires forall b :: 0 <= b < |image| ==> |image[b]| == BLOCK
      requires 0 < blockArea <= blockCount <= |image| && blockCount <= 64 * words.Length
      requires B.AllSet(words[..], 1, blockArea) && free == |B.Free(words[..], 1, blockCount)|
      requires iwords != words && 0 < inodeCount <= inodeSlots <= inodeCount + 1 && inodeSlots <= 64 * iwords.Length && inodeSlots <= TWO32
      requires ifree == |B.Free(iwords[..], 1, inodeSlots)| && (inodeSlots > inodeCount ==> B.Free(iwords[..], 1, inodeCount) != {})
      requires inodeArea * BLOCK + inodeSlots * INODE_SIZE <= blockArea * BLOCK && devno < TWO32
      modifies words, iwords
      ensures Valid() && inodes == map[] && dirty == [] && disk == image && blockFree == free && inodeFree == ifree
      ensures bm.words == words && inoMap.words == iwords && fresh(bm) && fresh(inoMap)
      ensures start == inodeArea && area == blockArea && dev == devno && (|image| <= TWO32 ==> WorldOk(Now()))
      ensures B.Free(words[..], 1, blockCount) == old(B.Free(words[..], 1, blockCount))
      ensures B.Free(iwords[..], 1, inodeSlots) == old(B.Free(iwords[..], 1, inodeSlots))
    {
      disk, start, area, dev, slots := image, inodeArea, blockArea, devno, inodeSlots;
      blockFree, inodeFree := free, ifree;
      inodes, dirty := map[], [];
      var i := FillMap(iwords, inodeCount, ifree, inodeSlots);
      var b := FillMap(words, blockCount, free, blockCount);
      inoMap, bm := i, b;
      new;
      assert bm.Val() == bm.Val().(size := blockCount);
      FreeSame(old(words[..]), words[..], blockArea, blockCount);
      assert State().inodes == map[];
    }

    /** efs_bmap_alloc; -1 stands for the panic. */
    method BmapAlloc() returns (no: int)
      requires State().bm.Safe()
      modifies this`blockFree, bm, bm.words
      ensures bm.words == old(bm.words) && (no, State()) == TakeBlock(old(State()))
    {
      no := bm.BitmapAlloc();
      if no != -1 { blockFree := blockFree - 1; }
    }

    /** efs_i_bmap */
    method IBmap(ino: nat, lbno: nat, alloc: bool) returns (r: Found)
      requires State().bm.Safe() && ino in inodes && InodeShape(inodes[ino])
      modifies this`inodes, this`blockFree, bm, bm.words
      ensures bm.words == old(bm.words) && (State(), r) == Bmap(old(State()), ino, lbno, alloc)
    {
      hide FileByte, At, B.Alloc, Decode;
      B.AllocSafe(State().bm);
      if lbno < NDIRECT {
        var bno := inodes[ino].addrs[lbno];
        if bno == 0 {
          if !alloc { return Block(0); }
          var no := BmapAlloc();
          if no < 0 { return Panic; }
          bno := no;
          inodes := inodes[ino := inodes[ino].(addrs := inodes[ino].addrs[lbno := no], mapped := lbno + 1)];
        }
        return Block(bno);
      }
      if lbno - NDIRECT >= NINDIRECT { return Block(0); }
      r := IndirectBmap(ino, lbno - NDIRECT, alloc);
    }

    /** The indirect half of efs_i_bmap. */
    method IndirectBmap(ino: nat, j: nat, alloc: bool) returns (r: Found)
      requires State().bm.Safe() && ino in inodes && InodeShape(inodes[ino]) && j < NINDIRECT
      modifies this`inodes, this`blockFree, bm, bm.words
      ensures bm.words == old(bm.words) && (State(), r) == Bmap(old(State()), ino, NDIRECT + j, alloc)
    {
      hide FileByte, At, B.Alloc, Decode;
      B.AllocSafe(State().bm);
      if inodes[ino].addrs[NDIRECT] == 0 {
        if !alloc { return Block(0); }
        var no := BmapAlloc();
        if no < 0 { return Panic; }
        inodes := inodes[ino := inodes[ino].(addrs := inodes[ino].addrs[NDIRECT := no])];
      }
      if inodes[ino].indir.None? {
        inodes := inodes[ino := inodes[ino].(indir := Some(Table(disk, inodes[ino])))];
      }
      if inodes[ino].indir.value[j] == 0 {
        if !alloc { return Block(0); }
        B.AllocSafe(State().bm);
        var no := BmapAlloc();
        if no < 0 { return Panic; }
        inodes := inodes[ino := inodes[ino].(indir := Some(inodes[ino].indir.value[j := no]), mapped := NDIRECT + j + 1)];
      }
      r := Block(inodes[ino].indir.value[j]);
    }

    /** efs_i_read: `out` is what arrives in the caller's buffer, `ops` the lookups done. */
    method Read(ino: nat, offset: nat, len: nat) returns (tot: nat, out: seq<Byte>, ghost ops: seq<Op>)
      requires Apart() && FsOk(State()) && ino in inodes && inodes[ino].size < TWO32 && offset < TWO32 && len < TWO32
      modifies this`inodes, this`blockFree, bm, bm.words
      ensures bm.words == old(bm.words) && Same(old(State()), State(), ino) && FsOk(State())
      ensures tot == |out| == ReadLen(old(inodes[ino]), offset, len)
      ensures out == Slice(old(State()), ino, offset, tot)
      ensures RunAll(old(Now()), ops) == Some(Now()) && forall k :: 0 <= k < |ops| ==> ops[k].ReadOp? && ops[k].ino == ino
    {
      hide FsOk, FileByte, Bmap, RunAll, Same, InodeShape, Slice, B.Alloc;
      RunNone(Now());
      tot, out, ops := 0, [], [];
      Reflexive(State(), ino);
      if offset > inodes[ino].size || offset + len >= TWO32 { return; }
      var n := if offset + len > inodes[ino].size then inodes[ino].size - offset else len;
      var pos := offset;
      ghost var fs0 := State();
      while tot < n
        invariant bm.words == old(bm.words) && FsOk(State()) && Same(fs0, State(), ino)
        invariant pos == offset + tot && tot == |out| <= n && (tot > 0 ==> pos <= BLOCK * fs0.inodes[ino].mapped)
        invariant out == Slice(fs0, ino, offset, tot)
        invariant inoMap.Val() == old(inoMap.Val())
        invariant RunAll(old(Now()), ops) == Some(Now()) && forall k :: 0 <= k < |ops| ==> ops[k].ReadOp? && ops[k].ino == ino
      {
        ghost var w := Now();
        var m := Min(n - tot, BLOCK - pos % BLOCK);
        ReadRound(fs0, State(), ino, pos, m);
        var r := IBmap(ino, pos / BLOCK, false);
        ReadMore(old(Now()), ops, w, ino, pos / BLOCK);
        ops := ops + [ReadOp(ino, pos / BLOCK)];
        if r.bno == 0 { break; }
        SliceMore(fs0, ino, offset, tot, m);
        out := out + disk[r.bno][pos % BLOCK..pos % BLOCK + m];
        tot, pos := tot + m, pos + m;
      }
    }

    /** efs_i_write; a number outside the device stops the kernel.  In a consistent file
        system the whole range arrives, unless the blocks it needs are not there. */
    method Write(ino: nat, offset: nat, data: seq<Byte>) returns (r: Outcome)
      requires Apart() && Ready(State(), ino) && offset < TWO32 && |data| < TWO32
      modifies this`inodes, this`blockFree, this`disk, this`dirty, bm, bm.words
      ensures bm.words == old(bm.words) && (State(), r) == WriteAll(old(State()), ino, offset, data)
      ensures Now() == Do(old(Now()), WriteOp(ino, offset, data))
      ensures FsOk(old(State())) && WriteReady(old(State()), ino, offset, |data|) ==>
                WriteOutcome(old(State()), ino, offset, data, State(), r)
    {
      hide FsOk, WriteOutcome, WriteReady, WriteLoop, WriteAll, InodeShape, Mark, Do;
      ghost var fs0 := State();
      WriteIs(Now(), ino, offset, data);
      if FsOk(fs0) && WriteReady(fs0, ino, offset, |data|) { WriteAllOk(fs0, ino, offset, data); }
      WriteRefused(fs0, ino, offset, data);
      if offset > inodes[ino].size || offset + |data| >= TWO32 { return Returned(-1); }
      if offset + |data| > MAXFILE * BLOCK { return Returned(-1); }
      var pos, stopped := WriteBlocks(ino, offset, data);
      if stopped { return Stopped; }
      WriteAllIs(fs0, State(), ino, offset, data, pos);
      if pos > inodes[ino].size { inodes := inodes[ino := inodes[ino].(size := pos)]; }
      dirty := Mark(dirty, ino);
      r := Returned(pos - offset);
    }

    /** The loop of efs_i_write. */
    method WriteBlocks(ino: nat, offset: nat, data: seq<Byte>) returns (pos: nat, stopped: bool)
      requires Ready(State(), ino)
      modifies this`inodes, this`blockFree, this`disk, bm, bm.words
      ensures bm.words == old(bm.words) && WriteLoop(old(State()), ino, offset, data) == Progress(State(), pos, stopped) && pos >= offset
    {
      hide Bmap, WriteLoop, Store, Splice, InodeShape, B.Alloc;
      ghost var fs0 := State();
      var tot := 0;
      pos := offset;
      assert data[0..] == data;
      while tot < |data|
        invariant bm.words == old(bm.words) && pos == offset + tot && tot <= |data| && Ready(State(), ino)
        invariant WriteLoop(fs0, ino, offset, data) == WriteLoop(State(), ino, pos, data[tot..])
      {
        LoopRound(State(), ino, pos, data[tot..]);
        var b := IBmap(ino, pos / BLOCK, true);
        if b == Panic { return pos, true; }
        if b.bno == 0 { return pos, false; }
        if b.bno >= |disk| || |disk[b.bno]| != BLOCK { return pos, true; }
        var m := Min(|data| - tot, BLOCK - pos % BLOCK);
        assert data[tot..][..m] == data[tot..tot + m] && data[tot..][m..] == data[tot + m..];
        StoreIs(State(), b.bno, pos % BLOCK, data[tot..tot + m]);
        disk := disk[b.bno := Splice(disk[b.bno], pos % BLOCK, data[tot..tot + m])];
        tot, pos := tot + m, pos + m;
      }
      LoopEnd(State(), ino, pos, data[tot..]);
      stopped := false;
    }

    /** efs_i_new; -1 stands for the panic when no number is left. */
    method New() returns (ino: int)
      requires inoMap.Val().Safe() && Apart()
      modifies this`inodes, this`inodeFree, this`dirty, inoMap, inoMap.words
      ensures inoMap.words == old(inoMap.words) && ino == B.Alloc(old(inoMap.Val())).0 >= -1
      ensures Now() == if ino == -1 then old(Now()).(inoMap := B.Alloc(old(inoMap.Val())).1) else Do(old(Now()), NewOp(ino, dev))
    {
      hide B.Alloc;
      B.AllocSafe(inoMap.Val());
      ino := inoMap.BitmapAlloc();
      if ino == -1 { return; }
      inodeFree := inodeFree - 1;
      inodes := inodes[ino := EmptyInode(0, dev)];
      dirty := Mark(dirty, ino);
    }

    /** efs_i_type */
    method SetType(ino: nat, kind: nat)
      requires FsOk(State()) && ino in inodes
      modifies this`inodes, this`dirty
      ensures FsOk(State()) && Now() == Do(old(Now()), TypeOp(ino, kind))
    {
      hide FsOk, Mark;
      MetaOk(State(), ino, inodes[ino].(kind := kind));
      inodes := inodes[ino := inodes[ino].(kind := kind)];
      dirty := Mark(dirty, ino);
    }

    /** Set i_size; nothing is marked. */
    method SetSize(ino: nat, n: nat)
      requires FsOk(State()) && ino in inodes
      modifies this`inodes
      ensures FsOk(State()) && Now() == Do(old(Now()), SizeOp(ino, n))
    {
      hide FsOk;
      MetaOk(State(), ino, inodes[ino].(size := n));
      inodes := inodes[ino := inodes[ino].(size := n)];
    }

    /** efs_i_dup */
    method Dup(ino: nat)
      requires ino in inodes
      modifies this`inodes
      ensures inodes == old(inodes)[ino := old(inodes[ino]).(refcnt := old(inodes[ino].refcnt) + 1)]
      ensures Now() == Do(old(Now()), RefOp(ino, true))
    {
      inodes := inodes[ino := inodes[ino].(refcnt := inodes[ino].refcnt + 1)];
    }

    /** efs_i_put; a reference that is not there stops the kernel. */
    method Put(ino: nat) returns (r: Outcome)
      requires ino in inodes
      modifies this`inodes
      ensures r == Stopped <==> old(inodes[ino].refcnt) <= 0
      ensures r != Stopped ==> inodes == old(inodes)[ino := old(inodes[ino]).(refcnt := old(inodes[ino].refcnt) - 1)]
      ensures Now() == if r == Stopped then old(Now()) else Do(old(Now()), RefOp(ino, false))
    {
      if inodes[ino].refcnt <= 0 { return Stopped; }
      inodes := inodes[ino := inodes[ino].(refcnt := inodes[ino].refcnt - 1)];
      r := Returned(0);
    }

    /** efs_bmap_free */
    method BmapFree(bno: int) returns (panicked: bool)
      requires State().bm.Safe()
      modifies this`blockFree, bm, bm.words
      ensures bm.words == old(bm.words) && panicked == !CanFree(old(State()), bno)
      ensures State() == if panicked then old(State()) else GiveBack(old(State()), bno)
    {
      var free := bm.BitmapIsFree(bno);
      if free != 0 { return true; }
      blockFree := blockFree + 1;
      bm.BitmapFree(bno);
      panicked := false;
    }

    /** efs_i_data_free: every listed block is given back once; the panic is never reached. */
    method DataFree(ino: nat) returns (panicked: bool)
      requires FsOk(State()) && ino in inodes && InodeShape(inodes[ino]) && inodes[ino].mapped <= MAXFILE && State().bm.Safe()
      modifies this`blockFree, bm, bm.words
      ensures bm.words == old(bm.words) && !panicked
      ensures State() == ReleaseAll(old(State()), FreedList(inodes[ino]))
    {
      hide FsOk, At, CanFree, GiveBack, FreedList, B.Release;
      ghost var fs0 := State();
      var nd := inodes[ino];
      ghost var l := FreedList(nd);
      panicked := false;
      var i := 0;
      while i < NDIRECT + 1
        invariant bm.words == old(bm.words) && i <= DirCount(nd) && State() == ReleaseAll(fs0, l[..i]) && !panicked
      {
        AddrIs(fs0, ino, i);
        if nd.addrs[i] == 0 { break; }
        DirEntry(nd, i);
        ReleaseNext(fs0, ino, i);
        var stop := BmapFree(nd.addrs[i]);
        panicked := panicked || stop;
        i := i + 1;
      }
      if nd.indir.Some? {
        var t := nd.indir.value;
        var j := 0;
        while j < NINDIRECT
          invariant bm.words == old(bm.words) && j <= IndCount(nd) && State() == ReleaseAll(fs0, l[..DirCount(nd) + j]) && !panicked
        {
          TableIs(fs0, ino, j);
          if t[j] == 0 { break; }
          IndEntry(nd, j);
          ReleaseNext(fs0, ino, DirCount(nd) + j);
          var stop := BmapFree(t[j]);
          panicked := panicked || stop;
          j := j + 1;
        }
      }
      assert l[..|l|] == l;
    }

    /** efs_i_trunc */
    method Trunc(ino: nat) returns (panicked: bool)
      requires FsOk(State()) && ino in inodes && InodeShape(inodes[ino]) && inodes[ino].mapped <= MAXFILE && State().bm.Safe()
      modifies this`inodes, this`blockFree, this`dirty, bm, bm.words
      ensures bm.words == old(bm.words) && !panicked && dirty == Mark(old(dirty), ino)
      ensures State() == SetInode(ReleaseAll(old(State()), FreedList(old(inodes[ino]))), ino, old(inodes[ino]).(size := 0))
    {
      hide FsOk, ReleaseAll, FreedList, Mark;
      panicked := DataFree(ino);
      inodes := inodes[ino := inodes[ino].(size := 0)];
      dirty := Mark(dirty, ino);
    }

    /** efs_i_unlink; an inode whose last link goes leaves the map of live inodes and stays
        behind dirty.  `Stopped` stands for the panic of efs_imap_free. */
    method Unlink(ino: nat) returns (r: Outcome)
      requires Apart() && FsOk(State()) && Defined(Now(), UnlinkOp(ino))
      modifies this`inodes, this`blockFree, this`inodeFree, this`dirty, bm, bm.words, inoMap, inoMap.words
      ensures bm.words == old(bm.words) && inoMap.words == old(inoMap.words)
      ensures r == Stopped <==> old(LastLink(inodes[ino], ino) && !CanFree(State().(bm := inoMap.Val()), ino))
      ensures r == Returned(-1) <==> old(UnlinkRefused(inodes[ino], ino))
      ensures r != Stopped ==> (r == Returned(-1) || r == Returned(0)) && Now() == Do(old(Now()), UnlinkOp(ino))
    {
      hide FsOk, FreedList, ReleaseAll, InodeShape, B.Release, Mark, Bury;
      ghost var fs0 := State();
      if ino <= 1 { return Returned(-1); }
      var nd := inodes[ino];
      MetaOk(fs0, ino, nd.(nlink := nd.nlink - 1));
      inodes := inodes[ino := nd.(nlink := nd.nlink - 1)];
      if nd.nlink - 1 == 0 {
        if nd.refcnt > 0 {
          inodes := inodes[ino := inodes[ino].(nlink := inodes[ino].nlink + 1)];
          assert inodes == old(inodes);
          return Returned(-1);
        }
        FreedMeta(nd, inodes[ino]);
        ReleaseInodes(fs0, inodes, FreedList(nd));
        var stop := Trunc(ino);
        var free := inoMap.BitmapIsFree(ino);
        if free != 0 { return Stopped; }
        inodeFree := inodeFree + 1;
        inoMap.BitmapFree(ino);
        BuryMark(old(dirty), ino, inodes[ino]);
        dirty := Bury(dirty, ino, inodes[ino]);
        inodes := inodes - {ino};
      }
      r := Returned(0);
    }

    // ---- efs_sync ----

    /** efs_i_update: the record, and the table when it is in memory. */
    method IUpdateDisk(ino: nat, nd: Inode)
      requires Blocks(disk) && InodeShape(nd)
      modifies this`disk
      ensures State() == SyncFs(old(State()), start, ino, nd)
    {
      hide WriteAt, RecordBytes, Encode;
      disk := WriteAt(disk, Place(start, ino), RecordBytes(ToDisk(ino, nd)));
      if nd.indir.Some? { disk := WriteAt(disk, nd.addrs[NDIRECT] * BLOCK, Encode(nd.indir.value)); }
    }

    /** One round of efs_sync over the dirty inodes: the entry that was marked last. */
    method Sync()
      requires dirty != [] && 0 < dirty[0].ino && Defined(Now(), SyncOp)
      modifies this`disk, this`dirty
      ensures Now() == Do(old(Now()), SyncOp)
    {
      hide IUpdate;
      var it := dirty[0];
      IUpdateDisk(it.ino, if it.Live? then inodes[it.ino] else it.nd);
      dirty := dirty[1..];
    }

    /** The loop of efs_sync over the dirty inodes, live and dead. */
    method Flush()
      requires Blocks(disk) && forall it :: it in dirty ==> 0 < it.ino && Writable(State(), it)
      modifies this`disk, this`dirty
      ensures dirty == [] && DoAll(old(Now()), Rounds(|old(dirty)|)) == Some(Now())
    {
      hide Do;
      ghost var k := 0;
      while dirty != []
        invariant Blocks(disk) && (forall it :: it in dirty ==> 0 < it.ino && Writable(State(), it)) && k + |dirty| == |old(dirty)|
        invariant DoAll(old(Now()), Rounds(k)) == Some(Now())
        decreases |dirty|
      {
        ghost var w := Now();
        assert dirty[0] in dirty;
        Sync();
        RoundIs(w);
        RoundMore(old(Now()), k, w);
        k := k + 1;
      }
    }
  }

  /** `n` rounds of efs_sync. */
  function Rounds(n: nat): seq<Op> { seq(n, (k: nat) => SyncOp) }

  lemma RoundMore(w0: World, n: nat, w: World)
    requires DoAll(w0, Rounds(n)) == Some(w) && Defined(w, SyncOp)
    ensures DoAll(w0, Rounds(n + 1)) == Some(Do(w, SyncOp))
  {
    hide Do;
    assert Rounds(n + 1)[..n] == Rounds(n);
  }

  lemma RoundIs(w: World)
    requires Defined(w, SyncOp)
    ensures var w' := Do(w, SyncOp);
            && w'.dirty == w.dirty[1..] && Blocks(w'.fs.disk) && (forall it :: Writable(w.fs, it) ==> Writable(w'.fs, it))
            && forall it :: it in w'.dirty ==> it in w.dirty
  {
    hide IUpdate, InodeShape;
  }

  lemma WriteIs(w: World, i: nat, off: nat, data: seq<Byte>)
    requires Ready(w.fs, i)
    ensures var (fs, o) := WriteAll(w.fs, i, off, data);
            Do(w, WriteOp(i, off, data)) == w.(fs := fs, dirty := if o == Stopped || o == Returned(-1) then w.dirty else Mark(w.dirty, i))
  {
    hide WriteAll, InodeShape, Mark;
  }

  lemma ReadMore(w0: World, ops: seq<Op>, w: World, ino: nat, l: nat)
    requires RunAll(w0, ops) == Some(w) && Ready(w.fs, ino)
    ensures RunAll(w0, ops + [ReadOp(ino, l)]) == Some(w.(fs := Bmap(w.fs, ino, l, false).0))
  {
    hide Bmap, RunAll;
    RunMore(w0, ops, w, ReadOp(ino, l));
  }

  // ---- the list of blocks of efs_i_data_free ----

  lemma FreedMeta(nd: Inode, nd': Inode)
    requires MetaOnly(nd, nd') && InodeShape(nd) && nd.mapped <= MAXFILE
    ensures InodeShape(nd') && FreedList(nd') == FreedList(nd)
  {
  }

  lemma DirEntry(nd: Inode, i: nat)
    requires InodeShape(nd) && nd.mapped <= MAXFILE && i < DirCount(nd)
    ensures i < |FreedList(nd)| && FreedList(nd)[i] == nd.addrs[i]
  {
  }

  lemma IndEntry(nd: Inode, j: nat)
    requires InodeShape(nd) && nd.mapped <= MAXFILE && nd.indir.Some? && j < IndCount(nd)
    ensures DirCount(nd) + j < |FreedList(nd)| && FreedList(nd)[DirCount(nd) + j] == nd.indir.value[j]
  {
  }
}
