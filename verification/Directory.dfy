/** Directories: children in memory, 24-byte records in the directory's file. */
module Directory {
  import opened Basics
  import B = Bitmap
  import opened EasyFs
  import opened EasyFsProofs
  import opened EasyFsFree
  import opened EasyFsWrites
  import opened DirRecords
  import opened EasyFsRuns
  import opened EasyFsRunProofs
  import opened EasyFsFiles

  // ---- names ----

  /** The characters strncmp and strncpy look at: up to a NUL, at most 16. */
  function Str(s: seq<Byte>): (r: seq<Byte>) {
    Prefix(s, NAMELEN)
  }

  function Prefix(s: seq<Byte>, n: nat): (r: seq<Byte>)
    ensures |r| <= n
  {
    if n == 0 || s == [] || s[0] == 0 then [] else [s[0]] + Prefix(s[1..], n - 1)
  }

  /** Byte `i` of a C string: reading past the sequence finds its NUL. */
  function CharAt(s: seq<Byte>, i: nat): Byte { if i < |s| then s[i] else 0 }

  lemma {:induction false} PrefixAgree(p: seq<Byte>, q: seq<Byte>, i: nat, n: nat)
    requires i <= n && (forall k :: 0 <= k < i ==> CharAt(p, k) == CharAt(q, k) && CharAt(p, k) != 0)
    requires i == n || CharAt(p, i) == 0 || CharAt(p, i) != CharAt(q, i)
    ensures Prefix(p, n) == Prefix(q, n) <==> i == n || CharAt(p, i) == CharAt(q, i)
    decreases n
  {
    if i > 0 {
      assert CharAt(p, 0) != 0 && CharAt(q, 0) == CharAt(p, 0);
      forall k | 0 <= k < i - 1 ensures CharAt(p[1..], k) == CharAt(q[1..], k) && CharAt(p[1..], k) != 0 {
        assert CharAt(p, k + 1) == CharAt(q, k + 1);
      }
      PrefixAgree(p[1..], q[1..], i - 1, n - 1);
      assert Prefix(p, n) == [p[0]] + Prefix(p[1..], n - 1) && Prefix(q, n) == [q[0]] + Prefix(q[1..], n - 1);
      assert Prefix(p, n)[1..] == Prefix(p[1..], n - 1) && Prefix(q, n)[1..] == Prefix(q[1..], n - 1);
    } else if n > 0 {
      assert CharAt(p, 0) != 0 && CharAt(q, 0) != 0 ==> Prefix(p, n)[0] == p[0] && Prefix(q, n)[0] == q[0];
    }
  }

  /** strncmp over 16 characters. */
  method NameCmp(p: seq<Byte>, q: seq<Byte>) returns (r: int)
    ensures r == 0 <==> Str(p) == Str(q)
  {
    var n, i := NAMELEN, 0;
    while n > 0 && CharAt(p, i) != 0 && CharAt(p, i) == CharAt(q, i)
      invariant i + n == NAMELEN
      invariant forall k :: 0 <= k < i ==> CharAt(p, k) == CharAt(q, k) && CharAt(p, k) != 0
    {
      n, i := n - 1, i + 1;
    }
    PrefixAgree(p, q, i, NAMELEN);
    if n == 0 { return 0; }
    r := CharAt(p, i) - CharAt(q, i);
  }

  /** strncpy into a name: the characters, a NUL if there is room, the old tail. */
  function Copied(old_: Name, name: seq<Byte>): (r: Name)
    ensures Str(r) == Str(name)
  {
    var s := Str(name);
    var r := seq(NAMELEN, k requires 0 <= k < NAMELEN => if k < |s| then s[k] else if k <= |s| + 1 then 0 as Byte else old_[k]);
    CopiedStr(r, name);
    r
  }

  lemma {:induction false} PrefixChars(s: seq<Byte>, n: nat, k: nat)
    ensures k < |Prefix(s, n)| ==> CharAt(s, k) == Prefix(s, n)[k] != 0
    ensures k == |Prefix(s, n)| < n ==> CharAt(s, k) == 0
    decreases n
  {
    if k > 0 && n > 0 && s != [] && s[0] != 0 { PrefixChars(s[1..], n - 1, k - 1); }
  }

  lemma CopiedStr(r: seq<Byte>, name: seq<Byte>)
    requires |r| == NAMELEN && forall k :: 0 <= k < NAMELEN && k <= |Str(name)| ==> r[k] == if k < |Str(name)| then Str(name)[k] else 0
    ensures Str(r) == Str(name)
  {
    var i := |Str(name)|;
    forall k: nat | k < i ensures CharAt(r, k) == CharAt(name, k) && CharAt(r, k) != 0 { PrefixChars(name, NAMELEN, k); }
    PrefixChars(name, NAMELEN, i);
    PrefixAgree(r, name, i, NAMELEN);
  }

  /** No two siblings agree on their first 16 characters. */
  predicate DistinctNames(cs: seq<Dirent>) {
    forall i, j :: 0 <= i < j < |cs| ==> Str(cs[i].name) != Str(cs[j].name)
  }

  predicate HasName(cs: seq<Dirent>, name: seq<Byte>) {
    exists i :: 0 <= i < |cs| && Str(cs[i].name) == Str(name)
  }

  /** efs_i_unlink leaves every other file, keeps the block map and the inode bitmap. */
  lemma UnlinkKept(w: World, i: nat)
    requires FsOk(w.fs) && InodeMapOk(w) && Defined(w, UnlinkOp(i)) && (LastLink(w.fs.inodes[i], i) ==> i < w.inoMap.size)
    ensures var w' := Do(w, UnlinkOp(i));
            && FsOk(w'.fs) && InodeMapOk(w') && Kept(w.fs, w'.fs, {i})
            && (forall j :: j in w'.fs.inodes ==> j in w.fs.inodes)
  {
    hide FsOk, InodeMapOk, FileByte, UnlinkFs, InodeShape;
    var w' := Do(w, UnlinkOp(i));
    if LastLink(w.fs.inodes[i], i) {
      LastOk(w.fs, i);
      LastNumber(w, i);
      forall j: nat, p: nat | j != i ensures FileByte(w'.fs, j, p) == FileByte(w.fs, j, p) { UnlinkByte(w.fs, w'.fs, i, j, p); }
    } else {
      DropKept(w, i);
    }
  }

  lemma DropKept(w: World, i: nat)
    requires FsOk(w.fs) && InodeMapOk(w) && Defined(w, UnlinkOp(i)) && !LastLink(w.fs.inodes[i], i)
    ensures var w' := Do(w, UnlinkOp(i));
            && FsOk(w'.fs) && InodeMapOk(w') && Kept(w.fs, w'.fs, {i}) && w'.fs.inodes.Keys == w.fs.inodes.Keys
  {
    hide FsOk, InodeMapOk, FileByte;
    var w' := Do(w, UnlinkOp(i));
    var nd := w.fs.inodes[i].(nlink := w.fs.inodes[i].nlink - 1);
    if !UnlinkRefused(w.fs.inodes[i], i) {
      MetaOk(w.fs, i, nd);
      MetaKept(w.fs, i, nd);
    }
    MapSame(w, w');
  }

  // ---- efs_d_creat ----

  /** What a successful efs_d_creat leaves: one more entry, a fresh empty inode under it, and
      every other file as it was. */
  ghost predicate Created(fs0: Fs, fs: Fs, ino: nat, cs: seq<Dirent>, ds: seq<Dirent>, name: seq<Byte>, kind: nat, dev: nat) {
    && |ds| == |cs| + 1 && ds[..|cs|] == cs && ds[|cs|].kind == kind && Str(ds[|cs|].name) == Str(name)
    && ds[|cs|].ino !in fs0.inodes && ds[|cs|].ino in fs.inodes && fs.inodes[ds[|cs|].ino] == EmptyInode(kind, dev)
    && fs.disk == fs0.disk && fs.inodes.Keys == fs0.inodes.Keys + {ds[|cs|].ino} && Kept(fs0, fs, {ino})
  }

  lemma NumberFresh(w: World, n: nat, dev: nat)
    requires InodeMapOk(w) && FsOk(w.fs) && w.inoMap.Safe() && B.Alloc(w.inoMap).0 == n && dev < TWO32
    ensures 0 < n < TWO32 && n !in w.fs.inodes && InodeMapOk(Do(w, NewOp(n, dev))) && FsOk(Do(w, NewOp(n, dev)).fs)
  {
    hide FsOk, B.Alloc;
    NewNumber(w, n, dev);
    NewOk(w.fs, n, 0, dev);
    var w' := Do(w, NewOp(n, dev));
    assert n in w'.fs.inodes;
  }

  /** efs_imap_alloc panics: nothing is free, or only the number `size`, which the scan does
      not reach when it is a multiple of 64. */
  ghost predicate NoNumber(w: World)
    requires w.inoMap.Safe()
  {
    w.inodeFree == 0 || (w.slots > w.inoMap.size && w.inoMap.size % 64 == 0 && B.AllSet(w.inoMap.words, 1, w.inoMap.size))
  }

  lemma NumbersLeft(w: World)
    requires InodeMapOk(w)
    ensures w.inoMap.Safe() && (B.Alloc(w.inoMap).0 == -1 <==> NoNumber(w))
  {
    hide B.Alloc;
    FirstNumber(w);
    NoFirst(w.inoMap);
  }

  lemma NoFirst(v: B.Value)
    requires v.Safe()
    ensures var f := B.FirstClear(v.words, v.allocation, v.Scanned());
            B.Alloc(v).0 == -1 <==> v.unused == 0 || f.None? || f.value > v.size
  {
    B.FirstClearIs(v.words, v.allocation, v.Scanned());
  }

  lemma FirstNumber(w: World)
    requires InodeMapOk(w)
    ensures w.inoMap.Safe()
    ensures w.inodeFree != 0 ==>
              var v := w.inoMap;
              var f := B.FirstClear(v.words, v.allocation, v.Scanned());
              f.None? || f.value > v.size <==> w.slots > v.size && v.size % 64 == 0 && B.AllSet(v.words, 1, v.size)
  {
    hide B.FirstClear;
    var v := w.inoMap;
    B.FirstClearIs(v.words, v.allocation, v.Scanned());
    if w.inodeFree != 0 {
      var free := B.Free(v.words, 1, w.slots);
      assert free != {};
      var m :| m in free;
      assert v.allocation <= m < w.slots;
      if B.AllSet(v.words, 1, v.size) { assert m == v.size; }
    }
  }

  lemma CreatKept(fs0: Fs, fs: Fs, ino: nat, n: nat, kind: nat, dev: nat, size: nat)
    requires Same(fs0, fs, ino) && n !in fs.inodes
    ensures n !in fs0.inodes && ino in fs.inodes && EmptyInode(0, dev).kind == 0 && EmptyInode(0, dev).(kind := kind) == EmptyInode(kind, dev)
    ensures var fs1 := SetInode(fs, n, EmptyInode(0, dev));
            var fs2 := SetInode(fs1, n, EmptyInode(kind, dev));
            var fs3 := SetInode(fs2, ino, fs.inodes[ino].(size := size));
            fs3.inodes.Keys == fs0.inodes.Keys + {n} && fs3.disk == fs0.disk && Kept(fs0, fs3, {ino})
  {
    assert EmptyInode(0, dev).addrs == EmptyInode(kind, dev).addrs;
    hide FileByte, Kept, At;
    var fs1 := SetInode(fs, n, EmptyInode(0, dev));
    var fs2 := SetInode(fs1, n, EmptyInode(kind, dev));
    var fs3 := SetInode(fs2, ino, fs.inodes[ino].(size := size));
    SameKept(fs0, fs, ino);
    NewKept(fs, n, dev);
    MetaKept(fs1, n, EmptyInode(kind, dev));
    MetaKept(fs2, ino, fs.inodes[ino].(size := size));
    KeptTrans(fs0, fs, fs1, {ino}, {});
    KeptTrans(fs0, fs1, fs2, {ino} + {}, {n});
    KeptTrans(fs0, fs2, fs3, {ino} + {} + {n}, {ino});
    KeptLess(fs0, fs3, {ino} + {} + {n} + {ino}, {ino});
  }

  /** Numbers that were not there need no exception. */
  lemma KeptLess(fs0: Fs, fs: Fs, ex: set<nat>, ex': set<nat>)
    requires Kept(fs0, fs, ex) && forall i :: i in ex && i in fs0.inodes ==> i in ex'
    ensures Kept(fs0, fs, ex')
  {
    hide FileByte;
  }

  // ---- efs_d_unlink ----

  /** What a successful efs_d_unlink leaves: a link less, no inode without links, and every
      other file as it was. */
  ghost predicate Removed(fs0: Fs, fs: Fs, ino: nat, i: nat) {
    && i in fs0.inodes && Kept(fs0, fs, {ino, i})
    && (i in fs.inodes <==> fs0.inodes[i].nlink != 1)
    && (i in fs.inodes ==> fs.inodes[i] == fs0.inodes[i].(nlink := fs0.inodes[i].nlink - 1, indir := fs.inodes[i].indir))
  }

  lemma RemovedIs(fs0: Fs, w: World, ino: nat, i: nat, size: nat)
    requires FsOk(w.fs) && InodeMapOk(w) && Defined(w, UnlinkOp(i)) && (LastLink(w.fs.inodes[i], i) ==> i < w.inoMap.size)
    requires Same(fs0, w.fs, i) && !UnlinkRefused(w.fs.inodes[i], i) && ino in w.fs.inodes && ino != i
    ensures var w1 := Do(w, UnlinkOp(i));
            && FsOk(w1.fs) && InodeMapOk(w1) && ino in w1.fs.inodes && w1.fs.inodes[ino] == fs0.inodes[ino]
            && var nd := w1.fs.inodes[ino].(size := size);
               && Removed(fs0, SetInode(w1.fs, ino, nd), ino, i) && InodeMapOk(w1.(fs := SetInode(w1.fs, ino, nd)))
  {
    hide FsOk, InodeMapOk, Kept, FileByte, At, FreedList, InodeShape;
    var w1 := Do(w, UnlinkOp(i));
    UnlinkKept(w, i);
    KeptAt(w.fs, w1.fs, {i}, ino);
    var nd := w1.fs.inodes[ino].(size := size);
    var fs2 := SetInode(w1.fs, ino, nd);
    SameKept(fs0, w.fs, i);
    MetaKept(w1.fs, ino, nd);
    KeptTrans(fs0, w.fs, w1.fs, {i}, {i});
    KeptTrans(fs0, w1.fs, fs2, {i} + {i}, {ino});
    assert {i} + {i} + {ino} == {ino, i};
    MapSame(w1, w1.(fs := fs2));
  }

  /** The search loop of efs_d_name_check. */
  method FindName(cs: seq<Dirent>, name: seq<Byte>) returns (r: Option<nat>)
    ensures r.Some? ==> r.value < |cs| && Str(cs[r.value].name) == Str(name)
    ensures r.None? <==> !HasName(cs, name)
  {
    hide Str;
    var i := 0;
    while i < |cs|
      invariant i <= |cs| && forall j :: 0 <= j < i ==> Str(cs[j].name) != Str(name)
    {
      var c := NameCmp(cs[i].name, name);
      if c == 0 { return Some(i); }
      i := i + 1;
    }
    r := None;
  }

  class Dir {
    const efs: Efs
    const ino: nat
    var children: seq<Dirent>
    var filled: bool

    /** The directory's entries are `cs`: in memory once it is filled, in its file before. */
    ghost predicate Valid(cs: seq<Dirent>)
      reads this, efs, efs.bm, efs.bm.words, efs.inoMap, efs.inoMap.words
    {
      && efs.Valid() && ino in efs.inodes && efs.inodes[ino].kind == F_DIR && efs.inodes[ino].size == DIRENT * |cs| < TWO32
      && DistinctNames(cs) && InWords(cs)
      && (if filled then children == cs else children == [] && Listed(efs.State(), ino, cs))
    }

    /** efs_d_alloc for the directory with inode `number`. */
    constructor (fs: Efs, number: nat)
      ensures efs == fs && ino == number && children == [] && !filled
    {
      efs := fs;
      ino := number;
      children := [];
      filled := false;
    }

    /** efs_d_fill: what a short read leaves of a record is what the memory held. */
    method Fill() returns (ghost ops: seq<Op>)
      requires efs.Apart() && FsOk(efs.State()) && ino in efs.inodes && efs.inodes[ino].size < TWO32
      modifies this`children, efs`inodes, efs`blockFree, efs.bm, efs.bm.words
      ensures efs.bm.words == old(efs.bm.words) && Same(old(efs.State()), efs.State(), ino) && FsOk(efs.State())
      ensures |children| == old(|children|) + old(efs.inodes[ino].size) / DIRENT && children[..old(|children|)] == old(children)
      ensures old(children) == [] && old(Covered(efs.State(), ino)) && old(efs.inodes[ino].size) % DIRENT == 0 ==> Listed(old(efs.State()), ino, children)
      ensures old(children) == [] ==> forall cs :: Listed(old(efs.State()), ino, cs) && InWords(cs) ==> children == cs
      ensures RunAll(old(efs.Now()), ops) == Some(efs.Now())
    {
      hide FsOk, FileByte, DirBytes, Records, Same, Covered, RunAll;
      ops := [];
      RunNone(efs.Now());
      ghost var fs0 := efs.State();
      Reflexive(fs0, ino);
      NoRecords(fs0, ino);
      var cnt := efs.inodes[ino].size / DIRENT;
      var i := 0;
      ghost var rs: seq<Dirent> := [];
      while i < cnt
        invariant i <= cnt && efs.bm.words == old(efs.bm.words) && Same(fs0, efs.State(), ino) && FsOk(efs.State())
        invariant efs.inoMap.Val() == old(efs.inoMap.Val()) && RunAll(old(efs.Now()), ops) == Some(efs.Now())
        invariant children == old(children) + rs && |rs| == i && InWords(rs) && (Covered(fs0, ino) ==> Records(fs0, ino, rs))
      {
        ghost var fs := efs.State();
        SameFacts(fs0, fs, ino);
        ghost var w := efs.Now();
        var d, more := ReadRecord(i);
        RunJoin(old(efs.Now()), ops, w, more);
        ops := ops + more;
        SameTrans(fs0, fs, efs.State(), ino);
        children := children + [d];
        if Covered(fs0, ino) {
          forall k: nat | k < DIRENT ensures FileByte(fs0, ino, DIRENT * i + k) == DirBytes(d)[k] { SameByte(fs0, fs, ino, DIRENT * i + k); }
          AddRecord(fs0, ino, rs, d);
        }
        rs := rs + [d];
        i := i + 1;
      }
      forall cs | Listed(fs0, ino, cs) && InWords(cs) && old(children) == [] ensures children == cs { ListedUnique(fs0, ino, rs, cs); }
    }

    /** One round of efs_d_fill. */
    method ReadRecord(i: nat) returns (d: Dirent, ghost ops: seq<Op>)
      requires efs.Apart() && FsOk(efs.State()) && ino in efs.inodes && DIRENT * (i + 1) <= efs.inodes[ino].size < TWO32
      modifies efs`inodes, efs`blockFree, efs.bm, efs.bm.words
      ensures efs.bm.words == old(efs.bm.words) && Same(old(efs.State()), efs.State(), ino) && FsOk(efs.State())
      ensures d.ino < TWO32 && d.kind < TWO32
      ensures old(Covered(efs.State(), ino)) ==> forall k :: 0 <= k < DIRENT ==> DirBytes(d)[k] == FileByte(old(efs.State()), ino, DIRENT * i + k)
      ensures RunAll(old(efs.Now()), ops) == Some(efs.Now())
    {
      hide FsOk, FileByte, DirBytes, FromBytes, Same, RunAll, Slice;
      var tot, out;
      tot, out, ops := efs.Read(ino, i * DIRENT, DIRENT);
      assert |seq(DIRENT - tot, (k: nat) => 0 as Byte)| == DIRENT - tot;
      var junk: seq<Byte> :| |junk| == DIRENT - tot;
      BytesRoundTrip(out + junk);
      d := FromBytes(out + junk);
      assert InWords([d]) && [d][0] == d;
      if old(Covered(efs.State(), ino)) { RecordRead(old(efs.State()), ino, i, out + junk); }
    }

    /** efs_d_update */
    method Update() returns (stopped: bool)
      requires efs.Apart() && Ready(efs.State(), ino) && DIRENT * |children| <= TWO32
      modifies efs`inodes, efs`blockFree, efs`disk, efs`dirty, efs.bm, efs.bm.words
      ensures efs.bm.words == old(efs.bm.words) && stopped == UpdateFrom(old(efs.State()), ino, children, 0).1
      ensures efs.Now() == Do(old(efs.Now()), UpdateOp(ino, children))
      ensures old(FsOk(efs.State()) && efs.inodes[ino].size == DIRENT * |children|
                  && (DIRENT * |children| > NDIRECT * BLOCK ==> NextTableZero(efs.State(), ino))) ==>
                UpdateOutcome(old(efs.State()), ino, children, efs.State(), stopped)
    {
      hide FsOk, DirBytes, WriteAll, NextTableZero, UpdateOutcome, Updating, UpdateFrom, Touches, InodeShape, Mark, WriteOutcome;
      ghost var fs0 := efs.State();
      if FsOk(fs0) && efs.inodes[ino].size == DIRENT * |children| && (DIRENT * |children| > NDIRECT * BLOCK ==> NextTableZero(fs0, ino)) {
        UpdateStart(fs0, ino, children);
        UpdateOk(fs0, fs0, ino, children, 0);
      }
      var i, offset := 0, 0;
      ghost var touched := false;
      while i < |children|
        invariant i <= |children| && offset == DIRENT * i && efs.bm.words == old(efs.bm.words) && Ready(efs.State(), ino)
        invariant efs.inoMap.Val() == old(efs.inoMap.Val()) && efs.dirty == if touched then Mark(old(efs.dirty), ino) else old(efs.dirty)
        invariant UpdateFrom(fs0, ino, children, 0) == UpdateFrom(efs.State(), ino, children, i)
        invariant Touches(fs0, ino, children, 0) == (touched || Touches(efs.State(), ino, children, i))
      {
        UpdateRound(efs.State(), ino, children, i);
        MarkTwice(old(efs.dirty), ino);
        var r := efs.Write(ino, offset, DirBytes(children[i]));
        if r == Stopped { return true; }
        touched := touched || r != Returned(-1);
        i, offset := i + 1, offset + DIRENT;
      }
      UpdateEnd(efs.State(), ino, children);
      stopped := false;
    }

    /** efs_d_name_check */
    method NameCheck(name: seq<Byte>) returns (r: Option<nat>, ghost ops: seq<Op>)
      requires efs.Apart() && FsOk(efs.State()) && ino in efs.inodes && efs.inodes[ino].size < TWO32
      modifies this, efs`inodes, efs`blockFree, efs.bm, efs.bm.words
      ensures efs.bm.words == old(efs.bm.words) && filled && Same(old(efs.State()), efs.State(), ino) && FsOk(efs.State())
      ensures old(filled) ==> children == old(children) && efs.State() == old(efs.State())
      ensures old(!filled && children == []) ==> forall cs :: Listed(old(efs.State()), ino, cs) && InWords(cs) ==> children == cs
      ensures r.Some? ==> r.value < |children| && Str(children[r.value].name) == Str(name)
      ensures r.None? <==> !HasName(children, name)
      ensures RunAll(old(efs.Now()), ops) == Some(efs.Now())
    {
      hide FsOk, FileByte, At, Str, Listed, HasName, RunAll;
      Reflexive(efs.State(), ino);
      ops := [];
      RunNone(efs.Now());
      if !filled {
        ops := Fill();
        filled := true;
      }
      r := FindName(children, name);
    }

    /** efs_d_name_check on a directory with entries `cs`. */
    method Search(name: seq<Byte>, ghost cs: seq<Dirent>) returns (r: Option<nat>, ghost ops: seq<Op>)
      requires Valid(cs)
      modifies this, efs`inodes, efs`blockFree, efs.bm, efs.bm.words
      ensures efs.bm.words == old(efs.bm.words) && Valid(cs) && filled && Same(old(efs.State()), efs.State(), ino)
      ensures r.None? <==> !HasName(cs, name)
      ensures RunAll(old(efs.Now()), ops) == Some(efs.Now())
    {
      hide FsOk, FileByte, At, Str, Listed, HasName, InodeMapOk, DistinctNames, InWords, RunAll;
      r, ops := NameCheck(name);
      MapSame(old(efs.Now()), efs.Now());
    }

    /** efs_d_creat; `junk` is what the fresh entry's name held before.  -1: the name exists;
        `Stopped`: there is no inode number left.  `ops` is the run it is. */
    method Creat(name: seq<Byte>, kind: nat, junk: Name, ghost cs: seq<Dirent>) returns (r: Outcome, ghost ops: seq<Op>)
      requires Valid(cs) && kind < TWO32 && efs.inodes[ino].size + DIRENT < TWO32
      modifies this, efs`inodes, efs`blockFree, efs`inodeFree, efs`dirty, efs.bm, efs.bm.words, efs.inoMap, efs.inoMap.words
      ensures efs.bm.words == old(efs.bm.words) && efs.inoMap.words == old(efs.inoMap.words)
      ensures r == Returned(-1) <==> HasName(cs, name)
      ensures r == Stopped <==> !HasName(cs, name) && old(NoNumber(efs.Now()))
      ensures r == Returned(-1) ==> Valid(cs) && Same(old(efs.State()), efs.State(), ino)
      ensures r != Stopped && r != Returned(-1) ==>
                && filled && Valid(children) && Created(old(efs.State()), efs.State(), ino, cs, children, name, kind, efs.dev)
                && r == Returned(children[|cs|].ino)
      ensures r != Stopped ==> RunAll(old(efs.Now()), ops) == Some(efs.Now())
    {
      hide FsOk, Str, Listed, HasName, InodeMapOk, DistinctNames, InWords, B.Alloc, EmptyInode, Same, Kept, NoNumber, Mark, RunAll;
      NumbersLeft(efs.Now());
      var hit;
      hit, ops := Search(name, cs);
      if hit.Some? { return Returned(-1), ops; }
      ghost var w := efs.Now();
      var n := efs.New();
      if n == -1 { return Stopped, ops; }
      RunMore(old(efs.Now()), ops, w, NewOp(n, efs.dev));
      ops := ops + [NewOp(n, efs.dev)];
      NumberFresh(w, n, efs.dev);
      CreatKept(old(efs.State()), w.fs, ino, n, kind, efs.dev, w.fs.inodes[ino].size + DIRENT);
      ghost var w1 := efs.Now();
      var more := Enter(n, kind, name, junk, cs);
      RunJoin(old(efs.Now()), ops, w1, more);
      ops := ops + more;
      assert efs.State() == SetInode(SetInode(SetInode(w.fs, n, EmptyInode(0, efs.dev)), n, EmptyInode(kind, efs.dev)), ino,
                                     w.fs.inodes[ino].(size := w.fs.inodes[ino].size + DIRENT));
      r := Returned(n);
    }

    /** The second half of efs_d_creat: the type, the entry, the directory's size. */
    method Enter(n: nat, kind: nat, name: seq<Byte>, junk: Name, ghost cs: seq<Dirent>) returns (ghost ops: seq<Op>)
      requires Valid(cs) && filled && !HasName(cs, name) && n in efs.inodes && n != ino && n < TWO32 && kind < TWO32
      requires efs.inodes[ino].size + DIRENT < TWO32 && efs.inodes[n].kind != F_DIR
      modifies this`children, efs`inodes, efs`dirty
      ensures |children| == |cs| + 1 && children[..|cs|] == cs && Valid(children)
      ensures children[|cs|].ino == n && children[|cs|].kind == kind && Str(children[|cs|].name) == Str(name)
      ensures efs.inodes == old(efs.inodes)[n := old(efs.inodes[n]).(kind := kind)][ino := old(efs.inodes[ino]).(size := DIRENT * (|cs| + 1))]
      ensures RunAll(old(efs.Now()), ops) == Some(efs.Now())
    {
      hide FsOk, Str, Listed, HasName, InodeMapOk, DistinctNames, InWords, Mark, RunAll;
      RunNone(efs.Now());
      RunMore(efs.Now(), [], efs.Now(), TypeOp(n, kind));
      ghost var w1 := Do(efs.Now(), TypeOp(n, kind));
      RunMore(efs.Now(), [] + [TypeOp(n, kind)], w1, SizeOp(ino, efs.inodes[ino].size + DIRENT));
      ops := [] + [TypeOp(n, kind)] + [SizeOp(ino, efs.inodes[ino].size + DIRENT)];
      children := children + [Dirent(n, kind, Copied(junk, name))];
      AddEntry(cs, children[|cs|], name);
      efs.SetType(n, kind);
      efs.SetSize(ino, efs.inodes[ino].size + DIRENT);
      MapSame(old(efs.Now()), efs.Now());
    }

    /** The entries the directory has, or will have once it is filled. */
    function Count(): nat
      requires ino in efs.inodes
      reads this, efs
    {
      |children| + if filled then 0 else efs.inodes[ino].size / DIRENT
    }

    /** efs_d_unlink of child `k`; `sub` is the child's own dentry.  0: removed, -1: not;
        `Stopped`: the inode bitmap does not take the number back. */
    method Unlink(k: nat, sub: Dir, ghost cs: seq<Dirent>) returns (r: Outcome, ghost ops: seq<Op>)
      requires Valid(cs) && filled && k < |cs| && cs[k].ino != ino
      requires sub != this && sub.efs == efs && sub.ino == cs[k].ino && sub.ino in efs.inodes && efs.inodes[sub.ino].size < TWO32
      modifies this`children, sub, efs`inodes, efs`blockFree, efs`inodeFree, efs`dirty, efs.bm, efs.bm.words, efs.inoMap, efs.inoMap.words
      ensures efs.bm.words == old(efs.bm.words) && efs.inoMap.words == old(efs.inoMap.words)
      ensures r == Returned(-1) <==> (cs[k].kind == F_DIR && old(sub.Count()) != 0) || UnlinkRefused(old(efs.inodes[sub.ino]), sub.ino)
      ensures r == Stopped <==> !(cs[k].kind == F_DIR && old(sub.Count()) != 0) && LastLink(old(efs.inodes[sub.ino]), sub.ino) && sub.ino >= old(efs.inoMap.size)
      ensures r == Returned(-1) ==> Valid(cs) && Same(old(efs.State()), efs.State(), sub.ino)
      ensures r != Returned(-1) && r != Stopped ==>
                r == Returned(0) && Valid(cs[..k] + cs[k + 1..]) && Removed(old(efs.State()), efs.State(), ino, sub.ino)
      ensures r != Stopped ==> RunAll(old(efs.Now()), ops) == Some(efs.Now())
    {
      hide FsOk, Str, Listed, InodeMapOk, DistinctNames, InWords, Same, Removed, Do, Defined, CanFree, UnlinkFs, RunAll, Guard;
      Reflexive(efs.State(), sub.ino);
      ops := [];
      RunNone(efs.Now());
      if children[k].kind == F_DIR {
        var n;
        n, ops := sub.Entries();
        MapSameFs(old(efs.Now()), efs.Now(), sub.ino, ino);
        if n != 0 { return Returned(-1), ops; }
      }
      RefusedSame(old(efs.State()), efs.State(), sub.ino);
      if children[k].ino == 1 { return Returned(-1), ops; }
      ghost var w := efs.Now();
      UnlinkDefined(w, sub.ino);
      r := efs.Unlink(children[k].ino);
      if r == Returned(0) {
        RemovedIs(old(efs.State()), w, ino, sub.ino, w.fs.inodes[ino].size - DIRENT);
        DropEntry(cs, k);
        RunMore(old(efs.Now()), ops, w, UnlinkOp(sub.ino));
        ops := ops + [UnlinkOp(sub.ino)];
        children := children[..k] + children[k + 1..];
        SizeIs(efs.Now(), ino, efs.inodes[ino].size - DIRENT);
        RunMore(old(efs.Now()), ops, efs.Now(), SizeOp(ino, efs.inodes[ino].size - DIRENT));
        ops := ops + [SizeOp(ino, efs.inodes[ino].size - DIRENT)];
        efs.SetSize(ino, efs.inodes[ino].size - DIRENT);
      }
    }

    /** The directory branch of efs_d_unlink. */
    method Entries() returns (n: nat, ghost ops: seq<Op>)
      requires efs.Apart() && FsOk(efs.State()) && ino in efs.inodes && efs.inodes[ino].size < TWO32
      modifies this, efs`inodes, efs`blockFree, efs.bm, efs.bm.words
      ensures efs.bm.words == old(efs.bm.words) && Same(old(efs.State()), efs.State(), ino) && FsOk(efs.State())
      ensures n == old(Count())
      ensures RunAll(old(efs.Now()), ops) == Some(efs.Now())
    {
      hide FsOk, Listed, Same, RunAll;
      Reflexive(efs.State(), ino);
      ops := [];
      RunNone(efs.Now());
      if !filled {
        ops := Fill();
        filled := true;
      }
      n := |children|;
    }

    /** efs_d_rename of child `k`. */
    method Rename(k: nat, name: seq<Byte>, ghost cs: seq<Dirent>) returns (ok: bool)
      requires Valid(cs) && filled && k < |cs|
      modifies this, efs`inodes, efs`blockFree, efs.bm, efs.bm.words
      ensures efs.bm.words == old(efs.bm.words) && filled && Same(old(efs.State()), efs.State(), ino)
      ensures ok <==> !HasName(cs, name)
      ensures !ok ==> Valid(cs)
      ensures ok ==> |children| == |cs| && Valid(cs[k := children[k]]) && Str(children[k].name) == Str(name)
                     && children[k].ino == cs[k].ino && children[k].kind == cs[k].kind
    {
      hide FsOk, Str, Listed, InodeMapOk, DistinctNames, InWords, Same, HasName;
      var hit, _ := Search(name, cs);
      if hit.Some? { return false; }
      children := children[k := children[k].(name := Copied(children[k].name, name))];
      RenameEntry(cs, k, children[k], name);
      ok := true;
    }
  }

  // ---- lemmas of the methods ----

  lemma RenameEntry(cs: seq<Dirent>, k: nat, d: Dirent, name: seq<Byte>)
    requires DistinctNames(cs) && InWords(cs) && !HasName(cs, name) && k < |cs| && d == cs[k].(name := d.name) && Str(d.name) == Str(name)
    ensures DistinctNames(cs[k := d]) && InWords(cs[k := d])
  {
    hide Str;
  }

  lemma DropEntry(cs: seq<Dirent>, k: nat)
    requires DistinctNames(cs) && InWords(cs) && k < |cs|
    ensures DistinctNames(cs[..k] + cs[k + 1..]) && InWords(cs[..k] + cs[k + 1..])
  {
    hide Str;
  }

  lemma MapSameFs(w: World, w': World, i: nat, ino: nat)
    requires InodeMapOk(w) && w' == w.(fs := w'.fs) && Same(w.fs, w'.fs, i) && ino in w.fs.inodes && ino != i
    ensures InodeMapOk(w') && ino in w'.fs.inodes && w'.fs.inodes[ino] == w.fs.inodes[ino] && i in w'.fs.inodes
  {
    hide At;
    MapSame(w, w');
  }

  lemma RefusedSame(fs: Fs, fs': Fs, i: nat)
    requires Same(fs, fs', i)
    ensures i in fs.inodes && i in fs'.inodes && UnlinkRefused(fs'.inodes[i], i) == UnlinkRefused(fs.inodes[i], i)
    ensures LastLink(fs'.inodes[i], i) == LastLink(fs.inodes[i], i)
  {
    hide At;
  }

  lemma UnlinkDefined(w: World, i: nat)
    requires FsOk(w.fs) && InodeMapOk(w) && i in w.fs.inodes
    ensures Defined(w, UnlinkOp(i)) && (CanFree(w.fs.(bm := w.inoMap), i) <==> i < w.inoMap.size)
    ensures UnlinkRefused(w.fs.inodes[i], i) ==> Do(w, UnlinkOp(i)) == w
    ensures Guard(w, UnlinkOp(i)) <==> (LastLink(w.fs.inodes[i], i) ==> i < w.inoMap.size)
  {
    hide FsOk;
    Usable(w.fs, i);
  }

  lemma AddEntry(cs: seq<Dirent>, d: Dirent, name: seq<Byte>)
    requires DistinctNames(cs) && InWords(cs) && !HasName(cs, name) && Str(d.name) == Str(name) && d.ino < TWO32 && d.kind < TWO32
    ensures DistinctNames(cs + [d]) && InWords(cs + [d])
  {
    hide Str;
  }

  lemma RecordRead(fs: Fs, ino: nat, i: nat, b: seq<Byte>)
    requires |b| == DIRENT && b == Slice(fs, ino, DIRENT * i, DIRENT) && DirBytes(FromBytes(b)) == b
    ensures forall k :: 0 <= k < DIRENT ==> DirBytes(FromBytes(b))[k] == FileByte(fs, ino, DIRENT * i + k)
  {
    hide FileByte, DirBytes, FromBytes;
    forall k: nat | k < DIRENT ensures b[k] == FileByte(fs, ino, DIRENT * i + k) { SliceAt(fs, ino, DIRENT * i, DIRENT, k); }
  }

  lemma SizeIs(w: World, i: nat, n: nat)
    requires i in w.fs.inodes
    ensures Defined(w, SizeOp(i, n)) && Do(w, SizeOp(i, n)) == w.(fs := SetInode(w.fs, i, w.fs.inodes[i].(size := n)))
    ensures w.fs.inodes[i].kind == F_DIR && n < TWO32 ==> Guard(w, SizeOp(i, n))
  {
  }

  lemma MarkTwice(dirty: seq<Item>, i: nat)
    ensures Mark(Mark(dirty, i), i) == Mark(dirty, i)
  {
  }

  lemma SameFacts(fs0: Fs, fs: Fs, ino: nat)
    requires Same(fs0, fs, ino)
    ensures ino in fs0.inodes && ino in fs.inodes && fs.inodes[ino].size == fs0.inodes[ino].size && Covered(fs, ino) == Covered(fs0, ino)
  {
    hide At;
  }

  lemma SameByte(fs0: Fs, fs: Fs, ino: nat, p: nat)
    requires Same(fs0, fs, ino)
    ensures FileByte(fs, ino, p) == FileByte(fs0, ino, p)
  {
    hide At;
  }
}
