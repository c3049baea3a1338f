/** Giving blocks back: efs_bmap_free and what efs_i_data_free releases. */
module EasyFsFree {
  import opened Basics
  import B = Bitmap
  import opened EasyFs
  import opened EasyFsProofs

  /** efs_bmap_free goes through exactly for a block marked as taken. */
  predicate CanFree(fs: Fs, b: int)
    requires fs.bm.Safe()
  {
    0 <= b < fs.bm.size && B.Bit(fs.bm.words, b)
  }

  /** efs_bmap_free, when it does not panic. */
  function GiveBack(fs: Fs, b: int): Fs
    requires fs.bm.Safe()
  {
    fs.(bm := B.Release(fs.bm, b), blockFree := fs.blockFree + 1)
  }

  /** From `fs0`, exactly the blocks in `freed` became free. */
  ghost predicate Freeing(fs0: Fs, fs: Fs, freed: set<nat>) {
    && Bits(fs0) && Bits(fs) && fs == fs0.(bm := fs.bm, blockFree := fs.blockFree) && fs.bm.size == fs0.bm.size
    && (forall b :: b in freed ==> fs0.area <= b < fs0.bm.size && B.Bit(fs0.bm.words, b))
    && B.Free(fs.bm.words, 1, fs.bm.size) == B.Free(fs0.bm.words, 1, fs0.bm.size) + freed
  }

  lemma BitFree(fs0: Fs, fs: Fs, freed: set<nat>, b: nat)
    requires Freeing(fs0, fs, freed) && 0 < b < fs0.bm.size
    ensures fs0.bm.Safe() && fs.bm.Safe() && (B.Bit(fs.bm.words, b) <==> B.Bit(fs0.bm.words, b) && b !in freed)
  {
    assert b in B.Free(fs.bm.words, 1, fs.bm.size) <==> b in B.Free(fs0.bm.words, 1, fs0.bm.size) || b in freed;
  }

  lemma FreeOne(fs0: Fs, fs: Fs, freed: set<nat>, b: nat)
    requires Freeing(fs0, fs, freed) && fs0.area <= b < fs0.bm.size && B.Bit(fs0.bm.words, b) && b !in freed
    ensures fs.bm.Safe() && CanFree(fs, b) && Freeing(fs0, GiveBack(fs, b), freed + {b})
  {
    hide B.Free, B.Release, B.AllSet;
    BitFree(fs0, fs, freed, b);
    FreeStep(fs, b);
  }

  lemma FreeStep(fs: Fs, b: nat)
    requires Bits(fs) && fs.area <= b && CanFree(fs, b)
    ensures Bits(GiveBack(fs, b)) && GiveBack(fs, b).bm.size == fs.bm.size
    ensures B.Free(GiveBack(fs, b).bm.words, 1, fs.bm.size) == B.Free(fs.bm.words, 1, fs.bm.size) + {b}
  {
    B.ReleaseOne(fs.bm, 1, b);
    B.ClearBit(fs.bm.words, b);
    var w := GiveBack(fs, b).bm.words;
    forall k: nat | 1 <= k < fs.area ensures B.Bit(w, k) { assert B.Bit(fs.bm.words, k); }
  }

  // ---- what efs_i_data_free releases ----

  ghost function Elems(s: seq<nat>): set<nat> { set x | x in s }

  /** The entries of i_addrs in front of the first zero. */
  function DirCount(nd: Inode): nat { if nd.mapped > NDIRECT then NDIRECT + 1 else nd.mapped }

  /** The entries of a loaded table in front of the first zero. */
  function IndCount(nd: Inode): nat { if nd.indir.Some? && nd.mapped > NDIRECT then nd.mapped - NDIRECT else 0 }

  ghost function Freed(nd: Inode): set<nat>
    requires InodeShape(nd) && nd.mapped <= MAXFILE
  {
    Elems(nd.addrs[..DirCount(nd)]) + (if nd.indir.Some? then Elems(nd.indir.value[..IndCount(nd)]) else {})
  }

  /** Entry `i` of i_addrs and entry `j` of a loaded table, as slots. */
  function AddrSlot(i: nat): Slot { if i < NDIRECT then Dir(i) else Tab }

  lemma AddrIs(fs: Fs, ino: nat, i: nat)
    requires FsOk(fs) && ino in fs.inodes && i <= NDIRECT
    ensures InodeShape(fs.inodes[ino]) && fs.inodes[ino].mapped <= MAXFILE
    ensures At(fs, ino, AddrSlot(i)) == fs.inodes[ino].addrs[i]
    ensures fs.inodes[ino].addrs[i] != 0 <==> i < DirCount(fs.inodes[ino])
  {
    assert PrefixOk(fs, ino);
    if i < NDIRECT { assert SlotOf(i) == AddrSlot(i); }
  }

  lemma TableIs(fs: Fs, ino: nat, j: nat)
    requires FsOk(fs) && ino in fs.inodes && j < NINDIRECT && fs.inodes[ino].indir.Some?
    ensures InodeShape(fs.inodes[ino]) && fs.inodes[ino].mapped <= MAXFILE
    ensures At(fs, ino, Ind(j)) == fs.inodes[ino].indir.value[j]
    ensures fs.inodes[ino].indir.value[j] != 0 <==> j < IndCount(fs.inodes[ino])
  {
    assert PrefixOk(fs, ino);
    assert SlotOf(NDIRECT + j) == Ind(j);
  }

  /** Entry `i` of i_addrs is taken and different from the earlier ones. */
  lemma AddrFresh(fs: Fs, ino: nat, i: nat)
    requires FsOk(fs) && ino in fs.inodes && i < DirCount(fs.inodes[ino])
    ensures InodeShape(fs.inodes[ino]) && fs.bm.Safe() && fs.area <= fs.inodes[ino].addrs[i] < fs.bm.size
    ensures B.Bit(fs.bm.words, fs.inodes[ino].addrs[i]) && fs.inodes[ino].addrs[i] !in Elems(fs.inodes[ino].addrs[..i])
  {
    hide At, Prefixes, Shape;
    AddrIs(fs, ino, i);
    forall k | 0 <= k < i ensures fs.inodes[ino].addrs[k] != fs.inodes[ino].addrs[i] { AddrIs(fs, ino, k); }
  }

  lemma TableFresh(fs: Fs, ino: nat, j: nat)
    requires FsOk(fs) && ino in fs.inodes && fs.inodes[ino].indir.Some? && j < IndCount(fs.inodes[ino]) && j < NINDIRECT
    ensures InodeShape(fs.inodes[ino]) && fs.bm.Safe() && fs.area <= fs.inodes[ino].indir.value[j] < fs.bm.size
    ensures B.Bit(fs.bm.words, fs.inodes[ino].indir.value[j]) && fs.inodes[ino].indir.value[j] !in Elems(fs.inodes[ino].indir.value[..j])
    ensures DirCount(fs.inodes[ino]) == NDIRECT + 1 && fs.inodes[ino].indir.value[j] !in Elems(fs.inodes[ino].addrs[..NDIRECT + 1])
  {
    hide At, Prefixes, Shape;
    TableIs(fs, ino, j);
    forall k | 0 <= k < j ensures fs.inodes[ino].indir.value[k] != fs.inodes[ino].indir.value[j] { TableIs(fs, ino, k); }
    forall k | 0 <= k <= NDIRECT ensures fs.inodes[ino].addrs[k] != fs.inodes[ino].indir.value[j] { AddrIs(fs, ino, k); }
  }

  lemma ElemsStep(s: seq<nat>, i: nat)
    requires i < |s|
    ensures Elems(s[..i + 1]) == Elems(s[..i]) + {s[i]}
  {
    assert s[..i + 1] == s[..i] + [s[i]];
  }

  lemma FreedIs(fs: Fs, ino: nat, b: nat)
    requires FsOk(fs) && ino in fs.inodes && InodeShape(fs.inodes[ino]) && fs.inodes[ino].mapped <= MAXFILE && b in Freed(fs.inodes[ino])
    ensures b != 0 && exists s :: At(fs, ino, s) == b
  {
    hide At;
    var nd := fs.inodes[ino];
    if b in Elems(nd.addrs[..DirCount(nd)]) {
      var i :| 0 <= i < DirCount(nd) && nd.addrs[i] == b;
      AddrIs(fs, ino, i);
      assert At(fs, ino, AddrSlot(i)) == b;
    } else {
      var j :| 0 <= j < IndCount(nd) && nd.indir.value[j] == b;
      TableIs(fs, ino, j);
      assert At(fs, ino, Ind(j)) == b;
    }
  }

  /** Everything the file owned is released exactly when its table is in memory or absent;
      otherwise the blocks the table names stay taken. */
  lemma FreedAll(fs: Fs, ino: nat)
    requires FsOk(fs) && ino in fs.inodes && InodeShape(fs.inodes[ino]) && fs.inodes[ino].mapped <= MAXFILE
    ensures (fs.inodes[ino].indir.Some? || fs.inodes[ino].mapped <= NDIRECT)
            <==> (forall s :: At(fs, ino, s) != 0 ==> At(fs, ino, s) in Freed(fs.inodes[ino]))
    ensures (fs.inodes[ino].indir.Some? || fs.inodes[ino].mapped <= NDIRECT)
            <==> DirCount(fs.inodes[ino]) + IndCount(fs.inodes[ino]) == Owned(fs.inodes[ino].mapped)
  {
    hide At, Prefixes, FsOk;
    var nd := fs.inodes[ino];
    if nd.indir.Some? || nd.mapped <= NDIRECT {
      forall s | At(fs, ino, s) != 0 ensures At(fs, ino, s) in Freed(nd) { OwnedFreed(fs, ino, s); }
    } else {
      TableLeaks(fs, ino);
    }
  }

  lemma OwnedFreed(fs: Fs, ino: nat, s: Slot)
    requires FsOk(fs) && ino in fs.inodes && InodeShape(fs.inodes[ino]) && fs.inodes[ino].mapped <= MAXFILE && At(fs, ino, s) != 0
    requires fs.inodes[ino].indir.Some? || fs.inodes[ino].mapped <= NDIRECT
    ensures At(fs, ino, s) in Freed(fs.inodes[ino])
  {
    var nd := fs.inodes[ino];
    InRange(fs, ino, s);
    hide At, FsOk;
    match s
    case Dir(i) => AddrIs(fs, ino, i); assert nd.addrs[..DirCount(nd)][i] == nd.addrs[i];
    case Tab => AddrIs(fs, ino, NDIRECT); assert nd.addrs[..DirCount(nd)][NDIRECT] == nd.addrs[NDIRECT];
    case Ind(j) =>
      IndMapped(fs, ino, j);
      TableIs(fs, ino, j);
      assert nd.indir.value[..IndCount(nd)][j] == nd.indir.value[j];
  }

  lemma InRange(fs: Fs, ino: nat, s: Slot)
    requires At(fs, ino, s) != 0
    ensures s.Dir? ==> s.i < NDIRECT
    ensures s.Ind? ==> s.j < NINDIRECT
  {
  }

  lemma IndMapped(fs: Fs, ino: nat, j: nat)
    requires FsOk(fs) && ino in fs.inodes && j < NINDIRECT
    ensures At(fs, ino, Ind(j)) != 0 <==> NDIRECT + j < fs.inodes[ino].mapped
  {
    hide At;
    assert PrefixOk(fs, ino);
    assert SlotOf(NDIRECT + j) == Ind(j);
  }

  lemma TableLeaks(fs: Fs, ino: nat)
    requires FsOk(fs) && ino in fs.inodes && InodeShape(fs.inodes[ino]) && fs.inodes[ino].mapped <= MAXFILE
    requires fs.inodes[ino].indir.None? && fs.inodes[ino].mapped > NDIRECT
    ensures At(fs, ino, Ind(0)) != 0 && At(fs, ino, Ind(0)) !in Freed(fs.inodes[ino])
  {
    hide At, FsOk;
    IndMapped(fs, ino, 0);
    forall i: nat | i <= NDIRECT ensures fs.inodes[ino].addrs[i] != At(fs, ino, Ind(0)) {
      AddrIs(fs, ino, i);
      if fs.inodes[ino].addrs[i] == At(fs, ino, Ind(0)) { DistinctSlot(fs, ino, Ind(0), ino, AddrSlot(i)); }
    }
  }

  // ---- the file system after an unlink ----

  function Without(fs: Fs, ino: nat): Fs { fs.(inodes := fs.inodes - {ino}) }

  lemma WithoutAt(fs: Fs, fs': Fs, ino: nat, i: nat, s: Slot)
    requires fs' == fs.(bm := fs'.bm, blockFree := fs'.blockFree)
    ensures At(Without(fs', ino), i, s) == if i == ino then 0 else At(fs, i, s)
  {
  }

  /** Once the inode is gone the rest of the file system is as it should be. */
  lemma UnlinkOk(fs: Fs, fs': Fs, ino: nat)
    requires FsOk(fs) && ino in fs.inodes && InodeShape(fs.inodes[ino]) && fs.inodes[ino].mapped <= MAXFILE
    requires Freeing(fs, fs', Freed(fs.inodes[ino]))
    ensures FsOk(Without(fs', ino))
  {
    hide At, B.Free, PrefixOk, Freed;
    var fs1 := Without(fs', ino);
    forall i, s ensures At(fs1, i, s) == if i == ino then 0 else At(fs, i, s) { WithoutAt(fs, fs', ino, i, s); }
    forall i, s | At(fs1, i, s) != 0 ensures fs1.area <= At(fs1, i, s) < fs1.bm.size && B.Bit(fs1.bm.words, At(fs1, i, s)) {
      OtherStays(fs, fs', ino, i, s);
    }
    forall i | i in fs1.inodes ensures PrefixOk(fs1, i) { PrefixSame(fs, fs1, i); }
  }

  lemma OtherStays(fs: Fs, fs': Fs, ino: nat, i: nat, s: Slot)
    requires FsOk(fs) && ino in fs.inodes && InodeShape(fs.inodes[ino]) && fs.inodes[ino].mapped <= MAXFILE
    requires Freeing(fs, fs', Freed(fs.inodes[ino])) && i != ino && At(fs, i, s) != 0
    ensures fs'.bm.Safe() && fs'.area <= At(fs, i, s) < fs'.bm.size && B.Bit(fs'.bm.words, At(fs, i, s))
  {
    hide At, B.Free, Freed, Prefixes;
    var b := At(fs, i, s);
    if b in Freed(fs.inodes[ino]) {
      FreedIs(fs, ino, b);
    }
    BitFree(fs, fs', Freed(fs.inodes[ino]), b);
  }

  /** efs_i_trunc alone leaves the freed block numbers in the inode: the inode still obeys
      the invariant only if it had no block. */
  lemma TruncOk(fs: Fs, fs': Fs, ino: nat)
    requires FsOk(fs) && ino in fs.inodes && InodeShape(fs.inodes[ino]) && fs.inodes[ino].mapped <= MAXFILE
    requires Freeing(fs, fs', Freed(fs.inodes[ino]))
    ensures FsOk(SetInode(fs', ino, fs.inodes[ino].(size := 0))) <==> fs.inodes[ino].mapped == 0
  {
    hide At, B.Free, PrefixOk;
    var nd := fs.inodes[ino];
    var fs1 := SetInode(fs', ino, nd.(size := 0));
    forall i, s ensures At(fs1, i, s) == At(fs, i, s) { TruncAt(fs, fs', ino, i, s); }
    AddrIs(fs, ino, 0);
    if nd.mapped == 0 {
      forall i, s | At(fs1, i, s) != 0 ensures fs1.area <= At(fs1, i, s) < fs1.bm.size && B.Bit(fs1.bm.words, At(fs1, i, s)) {
        BitFree(fs, fs', Freed(nd), At(fs, i, s));
      }
      forall i | i in fs1.inodes ensures PrefixOk(fs1, i) { PrefixSame(fs, fs1, i); }
    } else {
      assert nd.addrs[..DirCount(nd)][0] == nd.addrs[0];
      BitFree(fs, fs', Freed(nd), nd.addrs[0]);
      assert !B.Bit(fs1.bm.words, At(fs1, ino, AddrSlot(0)));
    }
  }

  lemma PrefixSame(fs: Fs, fs1: Fs, i: nat)
    requires i in fs.inodes && i in fs1.inodes && Prefixes(fs) && fs1.inodes[i].mapped == fs.inodes[i].mapped && fs1.inodes[i].indir == fs.inodes[i].indir
    requires forall s :: At(fs1, i, s) == At(fs, i, s)
    ensures PrefixOk(fs1, i)
  {
    hide At;
    assert PrefixOk(fs, i);
  }

  lemma TruncAt(fs: Fs, fs': Fs, ino: nat, i: nat, s: Slot)
    requires fs' == fs.(bm := fs'.bm, blockFree := fs'.blockFree) && ino in fs.inodes
    ensures At(SetInode(fs', ino, fs.inodes[ino].(size := 0)), i, s) == At(fs, i, s)
  {
  }

  // ---- efs_i_data_free and efs_i_unlink as functions ----

  /** The blocks in the order they are given back. */
  function FreedList(nd: Inode): (l: seq<nat>)
    requires InodeShape(nd) && nd.mapped <= MAXFILE
    ensures |l| == DirCount(nd) + IndCount(nd)
  {
    nd.addrs[..DirCount(nd)] + (if nd.indir.Some? then nd.indir.value[..IndCount(nd)] else [])
  }

  function ReleaseAll(fs: Fs, l: seq<nat>): (r: Fs)
    requires fs.bm.Safe()
    ensures r.bm.Safe() && r == fs.(bm := r.bm, blockFree := r.blockFree) && r.blockFree == fs.blockFree + |l|
    decreases |l|
  {
    if l == [] then fs else GiveBack(ReleaseAll(fs, l[..|l| - 1]), l[|l| - 1])
  }

  /** Giving blocks back does not look at the inodes. */
  lemma {:induction false} ReleaseInodes(fs: Fs, inodes: map<nat, Inode>, l: seq<nat>)
    requires fs.bm.Safe()
    ensures ReleaseAll(fs.(inodes := inodes), l) == ReleaseAll(fs, l).(inodes := inodes)
    decreases |l|
  {
    if l == [] {
    } else {
      ReleaseInodes(fs, inodes, l[..|l| - 1]);
    }
  }

  lemma ListIsFreed(nd: Inode)
    requires InodeShape(nd) && nd.mapped <= MAXFILE
    ensures Elems(FreedList(nd)) == Freed(nd)
  {
    hide DirCount, IndCount;
    forall b ensures b in FreedList(nd) <==> b in Freed(nd) { }
  }

  /** Each entry of the list is a taken data block and different from the earlier ones. */
  lemma ListFresh(fs: Fs, ino: nat, k: nat)
    requires FsOk(fs) && ino in fs.inodes && InodeShape(fs.inodes[ino]) && fs.inodes[ino].mapped <= MAXFILE && k < |FreedList(fs.inodes[ino])|
    ensures var l := FreedList(fs.inodes[ino]);
            fs.bm.Safe() && fs.area <= l[k] < fs.bm.size && B.Bit(fs.bm.words, l[k]) && l[k] !in Elems(l[..k])
  {
    hide FsOk, At;
    var nd := fs.inodes[ino];
    var l, d := FreedList(nd), DirCount(nd);
    if k < d {
      AddrFresh(fs, ino, k);
      assert l[..k] == nd.addrs[..k];
    } else {
      TableFresh(fs, ino, k - d);
      assert l[..k] == nd.addrs[..NDIRECT + 1] + nd.indir.value[..k - d];
    }
  }

  /** Giving back the first `k` blocks of the list frees exactly those; none of them is free
      already, so efs_bmap_free never panics. */
  lemma {:induction false} ReleaseOk(fs: Fs, ino: nat, k: nat)
    requires FsOk(fs) && ino in fs.inodes && InodeShape(fs.inodes[ino]) && fs.inodes[ino].mapped <= MAXFILE && k <= |FreedList(fs.inodes[ino])|
    ensures fs.bm.Safe() && Freeing(fs, ReleaseAll(fs, FreedList(fs.inodes[ino])[..k]), Elems(FreedList(fs.inodes[ino])[..k]))
    ensures k < |FreedList(fs.inodes[ino])| ==> CanFree(ReleaseAll(fs, FreedList(fs.inodes[ino])[..k]), FreedList(fs.inodes[ino])[k])
    decreases k
  {
    hide FsOk, Freeing, FreedList, Elems, GiveBack;
    var l := FreedList(fs.inodes[ino]);
    SafeFs(fs);
    if k == 0 {
      FreeNone(fs);
    } else {
      ReleaseOk(fs, ino, k - 1);
      ListFresh(fs, ino, k - 1);
      FreeOne(fs, ReleaseAll(fs, l[..k - 1]), Elems(l[..k - 1]), l[k - 1]);
      ElemsStep(l, k - 1);
      assert l[..k][..k - 1] == l[..k - 1];
    }
    if k < |l| {
      ListFresh(fs, ino, k);
      FreeOne(fs, ReleaseAll(fs, l[..k]), Elems(l[..k]), l[k]);
    }
  }

  /** One round of efs_i_data_free. */
  lemma ReleaseNext(fs: Fs, ino: nat, k: nat)
    requires FsOk(fs) && ino in fs.inodes && InodeShape(fs.inodes[ino]) && fs.inodes[ino].mapped <= MAXFILE && k < |FreedList(fs.inodes[ino])|
    ensures fs.bm.Safe()
    ensures var l := FreedList(fs.inodes[ino]);
            && CanFree(ReleaseAll(fs, l[..k]), l[k])
            && ReleaseAll(fs, l[..k + 1]) == GiveBack(ReleaseAll(fs, l[..k]), l[k])
  {
    hide FsOk, Freeing, FreedList, GiveBack, CanFree, InodeShape;
    var l := FreedList(fs.inodes[ino]);
    ReleaseOk(fs, ino, k);
    assert l[..k + 1][..k] == l[..k];
  }

  lemma SafeFs(fs: Fs)
    requires FsOk(fs)
    ensures fs.bm.Safe()
  {
    hide At;
  }

  lemma FreeNone(fs: Fs)
    requires FsOk(fs)
    ensures Freeing(fs, fs, Elems([]))
  {
    hide At;
    assert B.Free(fs.bm.words, 1, fs.bm.size) + Elems([]) == B.Free(fs.bm.words, 1, fs.bm.size);
  }

  predicate UnlinkRefused(nd: Inode, ino: nat) { ino <= 1 || (nd.nlink == 1 && nd.refcnt > 0) }

  /** efs_i_unlink; an inode whose last link goes leaves the map of live inodes. */
  function UnlinkFs(fs: Fs, ino: nat): Fs
    requires fs.bm.Safe() && ino in fs.inodes && InodeShape(fs.inodes[ino]) && fs.inodes[ino].mapped <= MAXFILE
  {
    var nd := fs.inodes[ino];
    if UnlinkRefused(nd, ino) then fs
    else if nd.nlink != 1 then SetInode(fs, ino, nd.(nlink := nd.nlink - 1))
    else Without(ReleaseAll(fs, FreedList(nd)), ino)
  }

  /** The unlinked inode as it stays behind in memory, dirty, with its block numbers. */
  function Remains(nd: Inode): Inode { nd.(nlink := 0, size := 0) }
}
