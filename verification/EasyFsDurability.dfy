/** Durability over runs: what efs_sync and a remount leave of the files. */
module EasyFsDurability {
  import opened Basics
  import B = Bitmap
  import opened EasyFs
  import opened EasyFsProofs
  import opened EasyFsFree
  import opened EasyFsWrites
  import opened InodeArea
  import opened EasyFsSync
  import opened EasyFsTheorems
  import opened DirRecords
  import opened EasyFsRuns
  import opened EasyFsRunProofs
  import opened EasyFsRunTheorems
  import opened EasyFsRemount
  import opened EasyFsDurable

  // ---- one inode over a run ----

  /** Inode `j` is live in the states from `m` to `k`, and no operation in between forgets it. */
  ghost predicate Remembered(ws: seq<World>, ops: seq<Op>, j: nat, m: nat, k: nat)
    requires IsTrace(ws, ops) && m <= k <= |ops|
  {
    && (forall t :: m <= t <= k ==> j in ws[t].fs.inodes)
    && (forall t :: m <= t < k ==> InodeShape(ws[t].fs.inodes[j]) && !Forgets(ws[t], ops[t], j))
  }

  /** Then it is on the disk or on the dirty list at the end if it was at the start. */
  lemma {:induction false} RunDurable(ws: seq<World>, ops: seq<Op>, j: nat, m: nat, k: nat)
    requires IsRun(ws, ops) && WorldOk(ws[0]) && m <= k <= |ops| && Remembered(ws, ops, j, m, k) && Durable(ws[m], j)
    ensures Durable(ws[k], j)
    decreases k
  {
    hide WorldOk, Do, Guard, Durable, Forgets;
    if m < k {
      RunDurable(ws, ops, j, m, k - 1);
      RunContents(ws, ops, k - 1);
      assert ws[k] == Do(ws[k - 1], ops[k - 1]) && j in ws[k].fs.inodes;
      DurableIff(ws[k - 1], ops[k - 1], j);
    }
  }

  /** Since it was last marked, or since the start of the run if it was durable there, no
      operation forgot `j`. */
  ghost predicate Reached(ws: seq<World>, ops: seq<Op>, j: nat)
    requires IsTrace(ws, ops)
  {
    exists m: nat :: m <= |ops| && Remembered(ws, ops, j, m, |ops|) && (Live(j) in ws[m].dirty || (m == 0 && Durable(ws[0], j)))
  }

  lemma ReachedDurable(ws: seq<World>, ops: seq<Op>, j: nat)
    requires IsRun(ws, ops) && WorldOk(ws[0]) && Reached(ws, ops, j)
    ensures j in ws[|ops|].fs.inodes && Durable(ws[|ops|], j)
  {
    hide WorldOk, Do, Guard, Forgets, OnDisk;
    var m: nat :| m <= |ops| && Remembered(ws, ops, j, m, |ops|) && (Live(j) in ws[m].dirty || (m == 0 && Durable(ws[0], j)));
    RunDurable(ws, ops, j, m, |ops|);
  }

  // ---- what a remount finds ----

  /** The files as a remount finds them: nobody has them open. */
  function Closed(files: map<nat, File>): map<nat, File> { map i | i in files :: files[i].(refs := 0) }

  /** The world after a remount. */
  ghost function Reborn(w: World): World
    requires Storables(w.fs, w.start)
  {
    w.(fs := Remounted(w.fs, w.start), dirty := [])
  }

  /** When efs_sync has emptied the dirty list, a remount finds every file that was reached as
      a plain map of files would hold it, whatever has become of the others. */
  lemma FileRemount(ws: seq<World>, ops: seq<Op>, j: nat)
    requires IsRun(ws, ops) && WorldOk(ws[0]) && ws[|ops|].dirty == [] && Reached(ws, ops, j) && Regular(ws[|ops|].fs, j)
    ensures var w := ws[|ops|];
            && Storables(w.fs, w.start) && j in ApplyAll(Files(ws[0].fs), ops)
            && var m := Remounted(w.fs, w.start);
               j in m.inodes && FileOf(m, j) == ApplyAll(Files(ws[0].fs), ops)[j].(refs := 0)
  {
    hide WorldOk, Do, Guard, FsOk, Storables, Remounted, Reached, Contents;
    ReachedDurable(ws, ops, j);
    RunContents(ws, ops, |ops|);
    assert ops[..|ops|] == ops;
    OneFile(ws[|ops|], j);
  }

  lemma OneFile(w: World, j: nat)
    requires WorldOk(w) && j in w.fs.inodes && Durable(w, j) && w.dirty == []
    ensures Storables(w.fs, w.start)
    ensures var m := Remounted(w.fs, w.start); j in m.inodes && FileOf(m, j) == FileOf(w.fs, j).(refs := 0)
  {
    hide FsOk, Stored, FileByte, InodeMapOk, DirtyOk, At, Contents, Remounted, Storable, AllCovered;
    AllPlaced(w);
    RemountOne(w.fs, w.start, j);
    ContentsSame(w.fs, Remounted(w.fs, w.start), j);
  }

  lemma AllPlaced(w: World)
    requires WorldOk(w)
    ensures Storables(w.fs, w.start)
  {
    hide FsOk, InodeMapOk, DirtyOk, AllCovered, Storable;
    forall i | i in w.fs.inodes ensures Storable(w.fs, w.start, i, w.fs.inodes[i]) && 0 <= w.fs.inodes[i].nlink < TWO32 { LiveStored(w, i); }
  }

  /** When every inode was reached, the remounted world is consistent, holds exactly the files
      a plain map of files would hold, and its directories hold the children they were last
      stored with: the next run starts from here. */
  lemma RunRemount(ws: seq<World>, ops: seq<Op>, dirs: map<nat, seq<Dirent>>)
    requires IsRun(ws, ops) && WorldOk(ws[0]) && Holds(ws[0].fs, dirs) && ws[|ops|].dirty == []
    requires forall j :: j in ws[|ops|].fs.inodes ==> Reached(ws, ops, j)
    ensures var w := ws[|ops|];
            && Storables(w.fs, w.start)
            && var w' := Reborn(w);
               && WorldOk(w') && AllDurable(w') && SameFiles(w.fs, w'.fs)
               && Files(w'.fs) == Closed(ApplyAll(Files(ws[0].fs), ops)) && Holds(w'.fs, RelistAll(dirs, ops))
  {
    hide WorldOk, Do, Guard, Files, SameFiles, Storables, Reborn, Reached, Durable, Holds;
    forall j | j in ws[|ops|].fs.inodes ensures Durable(ws[|ops|], j) { ReachedDurable(ws, ops, j); }
    RunContents(ws, ops, |ops|);
    RunListings(ws, ops, dirs, |ops|);
    assert ops[..|ops|] == ops;
    RemountWorld(ws[|ops|], RelistAll(dirs, ops));
  }

  lemma RemountWorld(w: World, dirs: map<nat, seq<Dirent>>)
    requires WorldOk(w) && AllDurable(w) && w.dirty == [] && Holds(w.fs, dirs)
    ensures Storables(w.fs, w.start)
    ensures var w' := Reborn(w);
            WorldOk(w') && AllDurable(w') && SameFiles(w.fs, w'.fs) && Files(w'.fs) == Closed(Files(w.fs)) && Holds(w'.fs, dirs)
  {
    hide FsOk, Storables, Stored, FileByte, At, Contents, Remounted, Storable, InodeMapOk, DirtyOk, Records, AllDurable, AllStored, Small;
    AllPlaced(w);
    EmptyList(w);
    RemountOk(w.fs, w.start);
    var w' := Reborn(w);
    forall i | i in w.fs.inodes ensures Contents(w'.fs, i) == Contents(w.fs, i) { ContentsSame(w.fs, w'.fs, i); }
    assert Files(w'.fs) == Closed(Files(w.fs));
    DiskSame(w);
    MapSame(w, w');
    NoneDirty(w');
    SmallAgain(w.fs, w'.fs);
    forall i | i in w'.fs.inodes ensures Durable(w', i) { StoredAgain(w, i); }
    AllAre(w');
    forall i | i in dirs && i in w'.fs.inodes
      ensures w'.fs.inodes[i].kind == F_DIR && DIRENT * |dirs[i]| <= BLOCK * w'.fs.inodes[i].mapped && Records(w'.fs, i, dirs[i])
    {
      RecordsSame(w.fs, w'.fs, i, dirs[i]);
    }
  }

  lemma DiskSame(w: World)
    requires Storables(w.fs, w.start)
    ensures Reborn(w).fs == w.fs.(inodes := Reborn(w).fs.inodes)
  {
  }

  lemma NoneDirty(w: World)
    requires w.dirty == []
    ensures DirtyOk(w)
  {
  }

  lemma AllAre(w: World)
    requires forall j :: j in w.fs.inodes ==> Durable(w, j)
    ensures AllDurable(w)
  {
    hide Durable;
  }

  lemma SmallAgain(fs: Fs, m: Fs)
    requires AllSmall(fs) && m.inodes.Keys == fs.inodes.Keys && forall i :: i in fs.inodes ==> m.inodes[i] == fs.inodes[i].(indir := None, refcnt := 0)
    ensures AllSmall(m)
  {
  }

  lemma StoredAgain(w: World, i: nat)
    requires Storables(w.fs, w.start) && AllStored(w.fs, w.start) && i in w.fs.inodes
    ensures i in Reborn(w).fs.inodes && Durable(Reborn(w), i)
  {
    hide IFill, Encode, Place, DShape;
    FilledIs(w.fs, w.start, i);
  }

  lemma EmptyList(w: World)
    requires AllDurable(w) && w.dirty == []
    ensures AllStored(w.fs, w.start)
  {
    hide Storable, Stored;
    forall i | i in w.fs.inodes ensures Storable(w.fs, w.start, i, w.fs.inodes[i]) && Stored(w.fs, w.start, i) { assert Durable(w, i); }
  }

  // ---- creating, updating, writing back ----

  /** The last change of `j` that marks nothing, a size or a link, was not followed by one that
      marks it: a directory update with children, a type, a creation. */
  predicate Pending(ops: seq<Op>, j: nat)
    decreases |ops|
  {
    if ops == [] then false
    else
      var op := ops[|ops| - 1];
      if (op.SizeOp? || op.UnlinkOp?) && op.ino == j then true
      else if (op.NewOp? || op.TypeOp? || (op.UpdateOp? && op.cs != [])) && op.ino == j then false
      else Pending(ops[..|ops| - 1], j)
  }

  /** No dead inode that is written back overwrites a live one that is not on the list. */
  ghost predicate SparesLive(ws: seq<World>, ops: seq<Op>)
    requires IsTrace(ws, ops)
  {
    forall k, j :: 0 <= k < |ops| && ops[k] == SyncOp && j in ws[k].fs.inodes ==> InodeShape(ws[k].fs.inodes[j]) && !Forgets(ws[k], SyncOp, j)
  }

  /** Over any such run every live inode without a pending change is durable, in every state. */
  lemma {:induction false} PendingOnly(ws: seq<World>, ops: seq<Op>, k: nat, j: nat)
    requires IsRun(ws, ops) && WorldOk(ws[0]) && AllDurable(ws[0]) && SparesLive(ws, ops) && k <= |ops| && j in ws[k].fs.inodes
    ensures Durable(ws[k], j) || Pending(ops[..k], j)
    decreases k
  {
    hide WorldOk, Do, Guard, Durable;
    if k > 0 {
      var w, op := ws[k - 1], ops[k - 1];
      assert ops[..k][..k - 1] == ops[..k - 1];
      RunContents(ws, ops, k - 1);
      if j !in w.fs.inodes {
        OnlyNew(w, op, j);
      } else {
        PendingOnly(ws, ops, k - 1, j);
        if Durable(w, j) { DurableIff(w, op, j); } else { Remarked(w, op, j); }
      }
    }
  }

  /** What marks an inode. */
  lemma Remarked(w: World, op: Op, j: nat)
    requires WorldOk(w) && Defined(w, op) && Guard(w, op) && j in Do(w, op).fs.inodes
    ensures (op.NewOp? || op.TypeOp? || (op.UpdateOp? && op.cs != [])) && op.ino == j ==> Durable(Do(w, op), j)
  {
    hide FsOk, InodeMapOk, AllCovered, AllSmall, DirtyOk, Touches, UpdateFrom, WriteAll, Bmap, UnlinkFs, NextTableZero, Need, OnDisk;
    MarkIs(w.dirty, j);
    if op.UpdateOp? && op.ino == j { TouchIff(w, j, op.cs); }
  }

  lemma OnlyNew(w: World, op: Op, j: nat)
    requires WorldOk(w) && Defined(w, op) && Guard(w, op) && j in Do(w, op).fs.inodes && j !in w.fs.inodes
    ensures Durable(Do(w, op), j)
  {
    hide WorldOk, Guard, Do, OnDisk;
    if op.NewOp? && op.ino == j { Remarked(w, op, j); } else { WasThere(w, op, j); }
  }

  /** efs_d_creat and efs_d_unlink, efs_d_update, passes of efs_sync, in any order: when the
      dirty list is empty, and every directory whose size changed was updated with children
      since, a remount finds all files and all directories. */
  lemma UpdatedRemount(ws: seq<World>, ops: seq<Op>, dirs: map<nat, seq<Dirent>>)
    requires IsRun(ws, ops) && WorldOk(ws[0]) && AllDurable(ws[0]) && Holds(ws[0].fs, dirs) && SparesLive(ws, ops) && ws[|ops|].dirty == []
    requires forall j :: j in ws[|ops|].fs.inodes ==> !Pending(ops, j)
    ensures var w := ws[|ops|];
            && Storables(w.fs, w.start)
            && var w' := Reborn(w);
               && WorldOk(w') && AllDurable(w') && SameFiles(w.fs, w'.fs)
               && Files(w'.fs) == Closed(ApplyAll(Files(ws[0].fs), ops)) && Holds(w'.fs, RelistAll(dirs, ops))
  {
    hide WorldOk, Do, Guard, Files, SameFiles, Storables, Reborn, SparesLive, Durable, Holds, Pending;
    assert ops[..|ops|] == ops;
    forall j | j in ws[|ops|].fs.inodes ensures Durable(ws[|ops|], j) { PendingOnly(ws, ops, |ops|, j); }
    RunContents(ws, ops, |ops|);
    RunListings(ws, ops, dirs, |ops|);
    RemountWorld(ws[|ops|], RelistAll(dirs, ops));
  }

  // ---- one pass of efs_sync over the dirty list ----

  ghost predicate AllSync(ops: seq<Op>) { forall k :: 0 <= k < |ops| ==> ops[k] == SyncOp }

  /** What can be checked before the pass: every dead inode on the list shows nowhere, and
      spares every live inode that is not written after it. */
  ghost predicate FlushOk(w: World) {
    forall k :: 0 <= k < |w.dirty| && w.dirty[k].Gone? ==> Unseen(w.fs, w.dirty[k]) && SparesAll(w, k)
  }

  ghost predicate SparesAll(w: World, k: nat)
    requires k < |w.dirty| && w.dirty[k].Gone?
  {
    && InodeShape(w.dirty[k].nd)
    && forall j :: j in w.fs.inodes && Live(j) !in w.dirty[k + 1..] ==>
         InodeShape(w.fs.inodes[j]) && Spares(w.fs, w.dirty[k].ino, w.dirty[k].nd, j)
  }

  /** After one round the condition holds for the rest of the list. */
  lemma FlushStep(w: World)
    requires WorldOk(w) && Defined(w, SyncOp) && FlushOk(w)
    ensures Guard(w, SyncOp) && FlushOk(Do(w, SyncOp)) && Do(w, SyncOp).dirty == w.dirty[1..]
    ensures forall j :: j in w.fs.inodes ==> InodeShape(w.fs.inodes[j]) && !Forgets(w, SyncOp, j)
  {
    hide FsOk, InodeMapOk, AllCovered, AllSmall, Spares, SparesAll, SyncFs, Storable, Unseen, InodeShape, SameView, DirtyOk, Step;
    HeadOk(w);
    assert w.dirty[0].Gone? ==> Unseen(w.fs, w.dirty[0]) && SparesAll(w, 0);
    IsGuarded(w);
    SyncKeeps(w);
    var w' := Do(w, SyncOp);
    SyncOnlyDisk(w);
    forall k | 0 <= k < |w'.dirty| && w'.dirty[k].Gone? ensures Unseen(w'.fs, w'.dirty[k]) && SparesAll(w', k) {
      assert w'.dirty[k] == w.dirty[k + 1] && SparesAll(w, k + 1);
      SparesSame(w, w', k);
      StaysUnseen(w, w.dirty[k + 1]);
    }
    forall j | j in w.fs.inodes ensures InodeShape(w.fs.inodes[j]) && !Forgets(w, SyncOp, j) {
      LiveFacts(w, j);
      NotForgotten(w, j);
    }
  }

  lemma SparesSame(w: World, w': World, k: nat)
    requires k + 1 < |w.dirty| && w'.dirty == w.dirty[1..] && w'.fs == w.fs.(disk := w'.fs.disk) && w.dirty[k + 1].Gone? && SparesAll(w, k + 1)
    ensures SparesAll(w', k)
  {
    hide InodeShape, ToDisk;
    assert w'.dirty[k + 1..] == w.dirty[k + 2..];
  }

  lemma NotForgotten(w: World, j: nat)
    requires Defined(w, SyncOp) && j in w.fs.inodes && InodeShape(w.fs.inodes[j]) && (w.dirty[0].Gone? ==> SparesAll(w, 0))
    ensures !Forgets(w, SyncOp, j)
  {
    hide InodeShape, Spares;
    HeadOrTail(w.dirty, Live(j));
  }

  lemma IsGuarded(w: World)
    requires Defined(w, SyncOp) && (w.dirty[0].Gone? ==> Unseen(w.fs, w.dirty[0]))
    ensures Guard(w, SyncOp)
  {
    hide Harmless, InodeShape;
  }

  lemma SyncOnlyDisk(w: World)
    requires Defined(w, SyncOp)
    ensures var w' := Do(w, SyncOp); w'.fs == w.fs.(disk := w'.fs.disk) && |w'.fs.disk| == |w.fs.disk| && w'.dirty == w.dirty[1..] && w'.start == w.start
  {
    hide IUpdate;
  }

  /** A block that some file reads keeps its contents over a guarded round. */
  lemma StaysUnseen(w: World, it: Item)
    requires WorldOk(w) && Defined(w, SyncOp) && Guard(w, SyncOp) && it in w.dirty && Unseen(w.fs, it) && SameView(w.fs, Do(w, SyncOp).fs)
    ensures Unseen(Do(w, SyncOp).fs, it)
  {
    hide FsOk, InodeMapOk, AllCovered, AllSmall, IUpdate, Encode, At, FileByte, Storable, SameView;
    SyncOnlyDisk(w);
    if it.Gone? && it.nd.indir.Some? {
      var t := it.nd.addrs[NDIRECT];
      ReadSame(w.fs, Do(w, SyncOp).fs, t);
      ItemTable(w, it);
      if Read(w.fs, t) { ReadKept(w, t); }
    }
  }

  lemma ItemTable(w: World, it: Item)
    requires ItemOk(w, it) && it.Gone? && it.nd.indir.Some?
    ensures w.fs.area <= it.nd.addrs[NDIRECT] < |w.fs.disk|
  {
    hide DShape, Place;
  }

  lemma ReadSame(fs: Fs, fs': Fs, t: nat)
    requires SameView(fs, fs')
    ensures Read(fs', t) == Read(fs, t)
  {
    hide At, FileByte;
    if Read(fs, t) {
      var i, s :| i in fs.inodes && At(fs, i, s) == t && (s == Tab ==> fs.inodes[i].indir.None?);
      assert At(fs', i, s) == t;
    }
    if Read(fs', t) {
      var i, s :| i in fs'.inodes && At(fs', i, s) == t && (s == Tab ==> fs'.inodes[i].indir.None?);
      assert At(fs, i, s) == t;
    }
  }

  lemma ReadKept(w: World, t: nat)
    requires WorldOk(w) && Defined(w, SyncOp) && Guard(w, SyncOp) && w.fs.area <= t < |w.fs.disk| && Read(w.fs, t)
    ensures var fs' := Do(w, SyncOp).fs; t < |fs'.disk| && fs'.disk[t] == w.fs.disk[t]
  {
    hide FsOk, InodeMapOk, AllCovered, AllSmall, IUpdate, Encode, Read, Layout, DirtyOk;
    HeadOk(w);
    var it := w.dirty[0];
    var nd := NodeOf(w.fs, it);
    SyncBlocks(w.fs, w.start, it.ino, nd);
    if it.Live? && nd.indir.Some? {
      TabNonzero(w.fs, it.ino);
      OwnTable(w.fs, it.ino);
    }
  }

  lemma TabNonzero(fs: Fs, i: nat)
    requires FsOk(fs) && i in fs.inodes && InodeShape(fs.inodes[i]) && fs.inodes[i].indir.Some?
    ensures fs.inodes[i].addrs[NDIRECT] != 0
  {
    TabIs(fs, i);
    hide At;
    assert PrefixOk(fs, i);
  }

  /** The pass writes every live inode of the list and every dead one, and a remount after it
      finds the files as they were. */
  lemma {:induction false} RemountKeeps(ws: seq<World>, ops: seq<Op>, dirs: map<nat, seq<Dirent>>)
    requires IsTrace(ws, ops) && AllSync(ops) && |ops| == |ws[0].dirty| && WorldOk(ws[0]) && AllDurable(ws[0]) && FlushOk(ws[0])
    requires Holds(ws[0].fs, dirs)
    ensures IsRun(ws, ops)
    ensures var w := ws[|ops|];
            && w.dirty == [] && Storables(w.fs, w.start)
            && var w' := Reborn(w);
               WorldOk(w') && AllDurable(w') && SameFiles(w.fs, w'.fs) && Files(w'.fs) == Closed(Files(ws[0].fs)) && Holds(w'.fs, dirs)
  {
    hide WorldOk, Do, Guard, SameFiles, Storables, Reborn, AllDurable, FlushOk, Files, Holds;
    forall k | 0 <= k < |ops| ensures Guard(ws[k], ops[k]) { FlushRun(ws, ops, k); FlushStep(ws[k]); }
    FlushRun(ws, ops, |ops|);
    RunContents(ws, ops, |ops|);
    RunListings(ws, ops, dirs, |ops|);
    SyncSpec(Files(ws[0].fs), ops);
    SyncListings(dirs, ops);
    assert ops[..|ops|] == ops;
    RemountWorld(ws[|ops|], dirs);
  }

  lemma {:induction false} FlushRun(ws: seq<World>, ops: seq<Op>, k: nat)
    requires IsTrace(ws, ops) && AllSync(ops) && |ops| == |ws[0].dirty| && WorldOk(ws[0]) && AllDurable(ws[0]) && FlushOk(ws[0]) && k <= |ops|
    ensures WorldOk(ws[k]) && AllDurable(ws[k]) && FlushOk(ws[k]) && ws[k].dirty == ws[0].dirty[k..]
    decreases k
  {
    hide WorldOk, Do, Guard, Durable, FlushOk, Forgets;
    if k > 0 {
      FlushRun(ws, ops, k - 1);
      var w := ws[k - 1];
      FlushStep(w);
      StepKeeps(w, SyncOp);
      StepWorld(w, SyncOp);
      forall j | j in ws[k].fs.inodes ensures Durable(ws[k], j) { SyncInodes(w); DurableIff(w, SyncOp, j); }
    }
  }

  lemma SyncInodes(w: World)
    requires Defined(w, SyncOp)
    ensures Do(w, SyncOp).fs.inodes == w.fs.inodes
  {
    hide IUpdate;
  }

  lemma {:induction false} SyncSpec(files: map<nat, File>, ops: seq<Op>)
    requires AllSync(ops)
    ensures ApplyAll(files, ops) == files
    decreases |ops|
  {
    if ops != [] { SyncSpec(files, ops[..|ops| - 1]); }
  }

  lemma {:induction false} SyncListings(dirs: map<nat, seq<Dirent>>, ops: seq<Op>)
    requires AllSync(ops)
    ensures RelistAll(dirs, ops) == dirs
    decreases |ops|
  {
    if ops != [] { SyncListings(dirs, ops[..|ops| - 1]); }
  }

  // ---- one creation ----

  ghost predicate AllLive(w: World) { forall it :: it in w.dirty ==> it.Live? }

  /** Without unlinks no dead inode comes on the list. */
  lemma {:induction false} LiveStays(ws: seq<World>, ops: seq<Op>, k: nat)
    requires IsTrace(ws, ops) && AllLive(ws[0]) && k <= |ops| && forall t :: 0 <= t < |ops| ==> !ops[t].UnlinkOp?
    ensures AllLive(ws[k])
    decreases k
  {
    hide Do, AllLive;
    if k > 0 {
      LiveStays(ws, ops, k - 1);
      LiveStep(ws[k - 1], ops[k - 1]);
    }
  }

  lemma LiveStep(w: World, op: Op)
    requires Defined(w, op) && AllLive(w) && !op.UnlinkOp?
    ensures AllLive(Do(w, op))
  {
    hide WriteAll, UpdateFrom, Touches, Bmap, B.Alloc, SyncFs, InodeShape, EmptyInode;
  }

  lemma NoDead(ws: seq<World>, ops: seq<Op>)
    requires IsRun(ws, ops) && WorldOk(ws[0]) && AllLive(ws[0]) && forall t :: 0 <= t < |ops| ==> !ops[t].UnlinkOp?
    ensures SparesLive(ws, ops)
  {
    hide Do, WorldOk, Guard;
    forall k, j | 0 <= k < |ops| && ops[k] == SyncOp && j in ws[k].fs.inodes ensures InodeShape(ws[k].fs.inodes[j]) && !Forgets(ws[k], SyncOp, j) {
      RunContents(ws, ops, k);
      LiveFacts(ws[k], j);
      LiveStays(ws, ops, k);
      assert ws[k].dirty[0] in ws[k].dirty;
    }
  }

  lemma {:induction false} PendingSync(ops: seq<Op>, passes: seq<Op>, j: nat)
    requires AllSync(passes)
    ensures Pending(ops + passes, j) == Pending(ops, j)
    decreases |passes|
  {
    if passes == [] {
      assert ops + passes == ops;
    } else {
      PendingSync(ops, passes[..|passes| - 1], j);
      assert (ops + passes)[..|ops + passes| - 1] == ops + passes[..|passes| - 1];
    }
  }

  lemma {:induction false} RelistSync(dirs: map<nat, seq<Dirent>>, ops: seq<Op>, passes: seq<Op>)
    requires AllSync(passes)
    ensures RelistAll(dirs, ops + passes) == RelistAll(dirs, ops)
    decreases |passes|
  {
    if passes == [] {
      assert ops + passes == ops;
    } else {
      RelistSync(dirs, ops, passes[..|passes| - 1]);
      assert (ops + passes)[..|ops + passes| - 1] == ops + passes[..|passes| - 1];
    }
  }

  /** What efs_d_creat and efs_d_update do in directory `i` that then has the children `cs`. */
  function Creation(n: nat, dev: nat, kind: nat, i: nat, cs: seq<Dirent>): seq<Op> {
    [NewOp(n, dev), TypeOp(n, kind), SizeOp(i, DIRENT * |cs|), UpdateOp(i, cs)]
  }

  lemma CreationSpec(n: nat, dev: nat, kind: nat, i: nat, cs: seq<Dirent>, j: nat)
    requires cs != []
    ensures !Pending(Creation(n, dev, kind, i, cs), j)
    ensures DIRENT * |cs| <= MAXFILE * BLOCK ==>
              i in RelistAll(map[], Creation(n, dev, kind, i, cs)) && RelistAll(map[], Creation(n, dev, kind, i, cs))[i] == cs
  {
    var ops := Creation(n, dev, kind, i, cs);
    var a, b, c := ops[..3], ops[..2], ops[..1];
    assert a[..2] == b && b[..1] == c && c[..0] == [];
    assert !Pending(c, j);
    assert !Pending(b, j);
  }

  /** A file is created in a directory, the directory is updated and efs_sync empties the
      list: after a remount the directory lists the new child and every file is there. */
  lemma CreatRemount(ws: seq<World>, ops: seq<Op>, n: nat, dev: nat, kind: nat, i: nat, cs: seq<Dirent>, passes: seq<Op>)
    requires IsRun(ws, ops) && WorldOk(ws[0]) && AllDurable(ws[0]) && AllLive(ws[0])
    requires ops == Creation(n, dev, kind, i, cs) + passes && cs != [] && AllSync(passes) && ws[|ops|].dirty == []
    ensures var w := ws[|ops|];
            && Storables(w.fs, w.start)
            && var w' := Reborn(w);
               && WorldOk(w') && AllDurable(w') && Files(w'.fs) == Closed(ApplyAll(Files(ws[0].fs), ops))
               && n in w'.fs.inodes && w'.fs.inodes[n].kind == kind
               && (DIRENT * |cs| <= MAXFILE * BLOCK ==> Listed(w'.fs, i, cs))
  {
    hide WorldOk, Do, Guard, Files, Storables, Reborn, SparesLive, AllDurable, Holds, Pending, RelistAll, Records, At, AllLive;
    NoDead(ws, ops);
    var c := Creation(n, dev, kind, i, cs);
    forall j ensures !Pending(ops, j) {
      CreationSpec(n, dev, kind, i, cs, j);
      PendingSync(c, passes, j);
    }
    NothingHeld(ws[0].fs);
    UpdatedRemount(ws, ops, map[]);
    RelistSync(map[], c, passes);
    CreationEnd(ws, ops, n, dev, kind, i, cs, passes);
    if DIRENT * |cs| <= MAXFILE * BLOCK {
      CreationSpec(n, dev, kind, i, cs, i);
      HeldListed(Reborn(ws[|ops|]).fs, RelistAll(map[], ops), i, cs);
    }
  }

  lemma NothingHeld(fs: Fs)
    ensures Holds(fs, map[])
  {
    hide Records;
  }

  lemma HeldListed(fs: Fs, dirs: map<nat, seq<Dirent>>, i: nat, cs: seq<Dirent>)
    requires Holds(fs, dirs) && i in dirs && dirs[i] == cs && i in fs.inodes && fs.inodes[i].size == DIRENT * |cs|
    ensures Listed(fs, i, cs)
  {
    hide Records;
  }

  /** The inodes of the directory and of the child at the end. */
  lemma CreationEnd(ws: seq<World>, ops: seq<Op>, n: nat, dev: nat, kind: nat, i: nat, cs: seq<Dirent>, passes: seq<Op>)
    requires IsRun(ws, ops) && WorldOk(ws[0]) && ops == Creation(n, dev, kind, i, cs) + passes && AllSync(passes)
    ensures var inodes := ws[|ops|].fs.inodes;
            i in inodes && inodes[i].size == DIRENT * |cs| && n in inodes && inodes[n].kind == kind
  {
    hide WorldOk, Guard, Do;
    assert ops[0] == NewOp(n, dev) && ops[1] == TypeOp(n, kind) && ops[2] == SizeOp(i, DIRENT * |cs|) && ops[3] == UpdateOp(i, cs);
    MetaSteps(ws[0], ws[1], ws[2], ws[3], n, dev, kind, i, DIRENT * |cs|);
    RunContents(ws, ops, 3);
    UpdateMeta(ws[3], i, cs, n);
    assert ws[4] == Do(ws[3], ops[3]);
    forall k | 0 <= k < |passes| ensures Defined(ws[4..][k], passes[k]) && ws[4..][k + 1] == Do(ws[4..][k], passes[k]) { assert ops[k + 4] == passes[k]; }
    InodesStay(ws[4..], passes, |passes|);
  }

  lemma MetaSteps(w0: World, w1: World, w2: World, w3: World, n: nat, dev: nat, kind: nat, i: nat, size: nat)
    requires Defined(w0, NewOp(n, dev)) && w1 == Do(w0, NewOp(n, dev)) && Defined(w1, TypeOp(n, kind)) && w2 == Do(w1, TypeOp(n, kind))
    requires Defined(w2, SizeOp(i, size)) && w3 == Do(w2, SizeOp(i, size))
    ensures i in w3.fs.inodes && w3.fs.inodes[i].size == size && n in w3.fs.inodes && w3.fs.inodes[n].kind == kind
  {
    hide B.Alloc;
  }

  lemma UpdateMeta(w: World, i: nat, cs: seq<Dirent>, n: nat)
    requires WorldOk(w) && Defined(w, UpdateOp(i, cs)) && Guard(w, UpdateOp(i, cs)) && n in w.fs.inodes
    ensures var fs' := Do(w, UpdateOp(i, cs)).fs;
            i in fs'.inodes && fs'.inodes[i].size == w.fs.inodes[i].size && n in fs'.inodes && fs'.inodes[n].kind == w.fs.inodes[n].kind
  {
    hide WorldOk, UpdateFrom, Touches, Extended, Guard;
    Updated(w, i, cs);
    ExtendedFacts(w.fs, UpdateFrom(w.fs, i, cs, 0).0, i, Extent(|cs|));
  }

  // ---- what is lost ----

  /** The directory's size changes in memory only.  When its last child goes, efs_d_update
      writes nothing, so nothing marks the inode: the disk keeps the old size, and with it
      the removed child. */
  lemma EmptiedDir(w: World, i: nat)
    requires WorldOk(w) && i in w.fs.inodes && w.fs.inodes[i].kind == F_DIR && w.fs.inodes[i].size == DIRENT && Live(i) !in w.dirty && OnDisk(w, i)
    ensures Defined(w, SizeOp(i, 0)) && Defined(Do(w, SizeOp(i, 0)), UpdateOp(i, []))
    ensures var w' := Do(Do(w, SizeOp(i, 0)), UpdateOp(i, []));
            && w'.fs.inodes[i].size == 0 && !Durable(w', i) && w'.dirty == w.dirty
            && Place(w.start, i) + RECORD <= BLOCK * |w'.fs.disk| && Blocks(w'.fs.disk) && IFill(w'.fs.disk, w.start, i).size == DIRENT
  {
    hide FsOk, InodeMapOk, DirtyOk, AllCovered, AllSmall, IFill, Encode, DShape, Place;
    LiveFacts(w, i);
    DurableIff(w, SizeOp(i, 0), i);
  }

  /** Writable items with their places. */
  ghost predicate Placed(w: World) {
    Blocks(w.fs.disk) && forall it :: it in w.dirty ==> Writable(w.fs, it) && Storable(w.fs, w.start, it.ino, NodeOf(w.fs, it)) && (it.Gone? ==> it.nd.nlink == 0)
  }

  /** Once number `i` stands on the list for dead inodes only, the disk ends with a record
      without links. */
  ghost predicate Doomed(w: World, i: nat) {
    && Placed(w) && Live(i) !in w.dirty && Place(w.start, i) + INODE_SIZE <= w.fs.area * BLOCK && w.fs.area <= |w.fs.disk|
    && ((exists nd :: Gone(i, nd) in w.dirty) || (Place(w.start, i) + RECORD <= BLOCK * |w.fs.disk| && IFill(w.fs.disk, w.start, i).nlink == 0))
  }

  lemma DoomedStep(w: World, i: nat)
    requires Doomed(w, i) && Defined(w, SyncOp)
    ensures Doomed(Do(w, SyncOp), i)
  {
    hide IFill, IUpdate, DShape, Place, InodeShape;
    var it, w' := w.dirty[0], Do(w, SyncOp);
    assert it in w.dirty;
    var nd := NodeOf(w.fs, it);
    InPlace(w.fs.disk, w.start, w.fs.area, ToDisk(it.ino, nd), nd.indir);
    forall x | x in w'.dirty ensures x in w.dirty { }
    if it.ino == i {
      UpdateFill(w.fs.disk, w.start, w.fs.area, ToDisk(i, nd), nd.indir);
    } else {
      UpdateOther(w.fs.disk, w.start, w.fs.area, ToDisk(it.ino, nd), nd.indir, i);
      if gone :| Gone(i, gone) in w.dirty { assert Gone(i, gone) in w'.dirty; }
    }
  }

  lemma {:induction false} DoomedRun(ws: seq<World>, ops: seq<Op>, i: nat, k: nat)
    requires IsTrace(ws, ops) && AllSync(ops) && Doomed(ws[0], i) && k <= |ops|
    ensures Doomed(ws[k], i)
    decreases k
  {
    hide Doomed, Do;
    if k > 0 {
      DoomedRun(ws, ops, i, k - 1);
      DoomedStep(ws[k - 1], i);
    }
  }

  /** After the first round, which writes the new inode, number `i` is left to the dead. */
  lemma StartsDoomed(w: World, i: nat, dev: nat)
    requires WorldOk(w) && Defined(w, UnlinkOp(i)) && LastLink(w.fs.inodes[i], i) && i < w.inoMap.size && dev < TWO32
    requires var w1 := Do(w, UnlinkOp(i)); Defined(w1, NewOp(i, dev)) && B.Alloc(w1.inoMap).0 == i
    ensures var w2 := Do(Do(w, UnlinkOp(i)), NewOp(i, dev));
            && WorldOk(w2) && w2.dirty != [] && w2.dirty[0] == Live(i) && i in w2.fs.inodes && w2.fs.inodes[i].nlink == 1
            && Defined(w2, SyncOp) && Doomed(Do(w2, SyncOp), i)
  {
    hide WorldOk, Step, Doomed, UnlinkFs, Bury, B.Alloc, B.Release, SyncFs;
    var w1 := Do(w, UnlinkOp(i));
    StepKeeps(w, UnlinkOp(i));
    StepWorld(w, UnlinkOp(i));
    StepKeeps(w1, NewOp(i, dev));
    StepWorld(w1, NewOp(i, dev));
    var w2 := Do(w1, NewOp(i, dev));
    BuryIs(w.dirty, i, Remains(w.fs.inodes[i]));
    assert w2.dirty == [Live(i)] + w1.dirty;
    AllDefined(w2, SyncOp);
    assert Gone(i, Remains(w.fs.inodes[i])) in w2.dirty[1..];
    LeftToDead(w2, i, Remains(w.fs.inodes[i]));
  }

  lemma LeftToDead(w: World, i: nat, nd: Inode)
    requires WorldOk(w) && Defined(w, SyncOp) && w.dirty[0] == Live(i) && Live(i) !in w.dirty[1..] && Gone(i, nd) in w.dirty[1..]
    ensures Doomed(Do(w, SyncOp), i)
  {
    hide FsOk, AllCovered, InodeMapOk, AllSmall, IUpdate, Place, Layout, IFill;
    WorldBlocks(w);
    AreaFits(w.fs);
    var w' := Do(w, SyncOp);
    SyncOnlyDisk(w);
    LiveFacts(w, i);
    PlaceOf(w, i);
    forall it | it in w'.dirty ensures Writable(w'.fs, it) && Storable(w'.fs, w'.start, it.ino, NodeOf(w'.fs, it)) && (it.Gone? ==> it.nd.nlink == 0) {
      assert it in w.dirty;
      Placeable(w, it);
      StorableStays(w.fs, w'.fs, w.start, it.ino, NodeOf(w.fs, it));
    }
  }

  lemma AreaFits(fs: Fs)
    requires FsOk(fs)
    ensures fs.area <= |fs.disk|
  {
    hide At;
  }

  lemma Placeable(w: World, it: Item)
    requires WorldOk(w) && it in w.dirty
    ensures Writable(w.fs, it) && Storable(w.fs, w.start, it.ino, NodeOf(w.fs, it)) && (it.Gone? ==> it.nd.nlink == 0)
  {
    hide FsOk, AllCovered, InodeMapOk, AllSmall, Layout;
    assert ItemOk(w, it);
    if it.Live? { LiveStored(w, it.ino); }
  }

  lemma StorableStays(fs: Fs, fs': Fs, start: nat, i: nat, nd: Inode)
    requires Storable(fs, start, i, nd) && fs'.area == fs.area && |fs'.disk| == |fs.disk| && Blocks(fs'.disk)
    ensures Storable(fs', start, i, nd)
  {
    hide DShape, Place;
  }

  lemma {:induction false} InodesStay(ws: seq<World>, ops: seq<Op>, k: nat)
    requires IsTrace(ws, ops) && AllSync(ops) && k <= |ops|
    ensures ws[k].fs.inodes == ws[0].fs.inodes && ws[k].start == ws[0].start
    decreases k
  {
    hide Do;
    if k > 0 {
      InodesStay(ws, ops, k - 1);
      SyncOnlyDisk(ws[k - 1]);
    }
  }

  /** A number that is used again before efs_sync ran: the new inode is written first, the
      dead one after it.  When the list is empty the new file has no links on the disk. */
  lemma ReusedNumber(w: World, i: nat, dev: nat, ws: seq<World>, ops: seq<Op>)
    requires WorldOk(w) && Defined(w, UnlinkOp(i)) && LastLink(w.fs.inodes[i], i) && i < w.inoMap.size && dev < TWO32
    requires var w1 := Do(w, UnlinkOp(i)); Defined(w1, NewOp(i, dev)) && B.Alloc(w1.inoMap).0 == i
    requires IsTrace(ws, ops) && AllSync(ops) && ws[0] == Do(Do(w, UnlinkOp(i)), NewOp(i, dev)) && ops != [] && ws[|ops|].dirty == []
    ensures var w' := ws[|ops|];
            && i in w'.fs.inodes && w'.fs.inodes[i].nlink == 1
            && Place(w'.start, i) + RECORD <= BLOCK * |w'.fs.disk| && Blocks(w'.fs.disk) && IFill(w'.fs.disk, w'.start, i).nlink == 0
            && !Durable(w', i)
  {
    hide WorldOk, Do, Guard, IFill, Stored, Storable, Place;
    var w1 := Do(w, UnlinkOp(i));
    StartsDoomed(w, i, dev);
    DoomedRun(ws[1..], ops[1..], i, |ops| - 1);
    InodesStay(ws, ops, |ops|);
    NotOnDisk(ws[|ops|], i);
  }

  lemma NotOnDisk(w: World, i: nat)
    requires Doomed(w, i) && w.dirty == [] && i in w.fs.inodes && w.fs.inodes[i].nlink == 1
    ensures Place(w.start, i) + RECORD <= BLOCK * |w.fs.disk| && Blocks(w.fs.disk) && IFill(w.fs.disk, w.start, i).nlink == 0 && !Durable(w, i)
  {
    hide IFill, Place, DShape;
  }
}
