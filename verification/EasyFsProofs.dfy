/** What the block map keeps: ownership of blocks is disjoint and follows the bitmap. */
module EasyFsProofs {
  import opened Basics
  import B = Bitmap
  import opened EasyFs

  /** efs_bmap_alloc hands out a block that was free and is not block 0. */
  lemma TakeBlockOk(fs: Fs)
    requires Bits(fs)
    ensures var (no, fs1) := TakeBlock(fs);
            && fs1.bm.Safe() && Bits(fs1) && fs1.disk == fs.disk && fs1.inodes == fs.inodes && fs1.bm.size == fs.bm.size
            && fs1.area == fs.area && fs.blockFree >= 0 && (no == -1 <==> fs.blockFree == 0) && (no == -1 ==> fs1 == fs)
            && (no != -1 ==> fs.area <= no < fs.bm.size && !B.Bit(fs.bm.words, no) && B.BitSet(fs.bm.words, fs1.bm.words, no, true)
                             && fs1.blockFree == fs.blockFree - 1)
  {
    B.AllocLeast(fs.bm, 1);
    var (no, fs1) := TakeBlock(fs);
    assert no != -1 ==> B.AllSet(fs1.bm.words, 1, fs.area) by {
      if no != -1 {
        forall k: nat | 1 <= k < fs.area ensures B.Bit(fs1.bm.words, k) { assert B.Bit(fs.bm.words, k); }
      }
    }
  }

  /** Recording a block that was free, in a slot that was empty. */
  lemma NewSlot(fs: Fs, fs': Fs, ino: nat, slot: Slot, no: nat)
    requires fs.bm.Safe() && fs'.bm.Safe() && Taken(fs) && Distinct(fs) && fs'.bm.size == fs.bm.size && fs'.area == fs.area
    requires 0 < fs.area <= no < fs.bm.size && !B.Bit(fs.bm.words, no) && B.BitSet(fs.bm.words, fs'.bm.words, no, true)
    requires forall i, s :: At(fs', i, s) == if i == ino && s == slot then no else At(fs, i, s)
    ensures Taken(fs') && Distinct(fs')
  {
    hide At;
    forall i, s | At(fs', i, s) != 0 ensures fs'.area <= At(fs', i, s) < fs'.bm.size && B.Bit(fs'.bm.words, At(fs', i, s)) {
      assert At(fs, i, s) != 0 ==> fs.area <= At(fs, i, s) < fs.bm.size;
    }
    forall i, s, j, u | At(fs', i, s) != 0 && At(fs', i, s) == At(fs', j, u) ensures i == j && s == u {
      assert At(fs, i, s) != no && At(fs, j, u) != no;
    }
  }

  lemma FreeKeptTake(fs: Fs, fs': Fs, no: nat)
    requires fs.bm.Safe() && fs'.bm.Safe() && fs.bm.size == fs'.bm.size <= |fs.disk| && fs'.disk == fs.disk
    requires B.BitSet(fs.bm.words, fs'.bm.words, no, true)
    ensures FreeKept(fs, fs')
  {
  }

  lemma FreeKeptTrans(fs: Fs, fs1: Fs, fs2: Fs)
    requires FreeKept(fs, fs1) && FreeKept(fs1, fs2)
    ensures FreeKept(fs, fs2)
  {
  }

  /** What allocation will return is free now. */
  lemma {:induction false} NthFreeIs(v: B.Value, k: nat)
    requires v.Managed(1)
    ensures NthFree(v, k) == -1 || (0 < NthFree(v, k) < v.size && !B.Bit(v.words, NthFree(v, k)))
    decreases k
  {
    hide B.Alloc;
    B.AllocLeast(v, 1);
    if k > 0 {
      var w := B.Alloc(v).1;
      NthFreeIs(w, k - 1);
      var r := NthFree(w, k - 1);
      assert r != -1 ==> r in B.Free(w.words, 1, w.size);
    }
  }

  // ---- what each part of efs_i_bmap does to the slots ----

  lemma DirectAt(fs: Fs, fs': Fs, ino: nat, l: nat, no: nat, i: nat, s: Slot)
    requires ino in fs.inodes && InodeShape(fs.inodes[ino]) && l < NDIRECT && fs'.disk == fs.disk
    requires fs'.inodes == fs.inodes[ino := fs.inodes[ino].(addrs := fs.inodes[ino].addrs[l := no], mapped := l + 1)]
    ensures At(fs', i, s) == if i == ino && s == Dir(l) then no else At(fs, i, s)
  {
  }

  lemma TabAt(fs: Fs, fs': Fs, ino: nat, no: nat, i: nat, s: Slot)
    requires ino in fs.inodes && InodeShape(fs.inodes[ino]) && fs'.disk == fs.disk
    requires fs.inodes[ino].addrs[NDIRECT] == 0 && fs.inodes[ino].indir.None?
    requires 0 < no < |fs.disk| && |fs.disk[no]| == BLOCK && Zeroed(fs.disk[no])
    requires fs'.inodes == fs.inodes[ino := fs.inodes[ino].(addrs := fs.inodes[ino].addrs[NDIRECT := no])]
    ensures At(fs', i, s) == if i == ino && s == Tab then no else At(fs, i, s)
  {
    ZeroTable(fs.disk[no]);
  }

  lemma LoadAt(fs: Fs, ino: nat, i: nat, s: Slot)
    requires ino in fs.inodes && InodeShape(fs.inodes[ino])
    ensures At(LoadTable(fs, ino), i, s) == At(fs, i, s)
  {
  }

  lemma EntryAt(fs: Fs, fs': Fs, ino: nat, j: nat, no: nat, i: nat, s: Slot)
    requires ino in fs.inodes && InodeShape(fs.inodes[ino]) && fs.inodes[ino].indir.Some? && j < NINDIRECT && fs'.disk == fs.disk
    requires fs'.inodes == fs.inodes[ino := fs.inodes[ino].(indir := Some(fs.inodes[ino].indir.value[j := no]), mapped := NDIRECT + j + 1)]
    ensures At(fs', i, s) == if i == ino && s == Ind(j) then no else At(fs, i, s)
  {
  }

  // ---- the two uses of efs_i_bmap ----

  /** Everything a caller of efs_i_bmap relies on. */
  ghost predicate Mapped(fs: Fs, fs': Fs, ino: nat, l: nat) {
    && FsOk(fs') && fs'.disk == fs.disk && fs'.inodes.Keys == fs.inodes.Keys && ino in fs.inodes && fs'.bm.size == fs.bm.size
    && fs'.area == fs.area && fs'.blockFree == fs.blockFree - (Owned(fs'.inodes[ino].mapped) - Owned(fs.inodes[ino].mapped))
    && (forall i :: i in fs.inodes && i != ino ==> fs'.inodes[i] == fs.inodes[i])
    && FreeKept(fs, fs') && (l < fs.inodes[ino].mapped ==> fs'.bm == fs.bm)
    && (l == fs.inodes[ino].mapped && l < NDIRECT ==> fs.bm.Safe() && fs'.bm == B.Alloc(fs.bm).1)
    && (forall i, s :: At(fs, i, s) != 0 ==> At(fs', i, s) == At(fs, i, s))
    && (forall i, s :: i != ino ==> At(fs', i, s) == At(fs, i, s))
    && fs'.inodes[ino] == fs.inodes[ino].(addrs := fs'.inodes[ino].addrs, indir := fs'.inodes[ino].indir, mapped := fs'.inodes[ino].mapped)
    && fs'.inodes[ino].mapped == (if l < fs.inodes[ino].mapped then fs.inodes[ino].mapped else l + 1)
    && At(fs', ino, SlotOf(l)) != 0
  }

  lemma SlotOfInjective(l: nat, m: nat)
    requires SlotOf(l) == SlotOf(m)
    ensures l == m
  {
  }

  /** The next logical block gets a block: the mapped blocks stay a prefix. */
  lemma PrefixGrows(fs: Fs, fs': Fs, ino: nat, l: nat, no: nat)
    requires Prefixes(fs) && fs'.inodes.Keys == fs.inodes.Keys && ino in fs.inodes && l == fs.inodes[ino].mapped < MAXFILE && no != 0
    requires forall i :: i in fs.inodes && i != ino ==> fs'.inodes[i] == fs.inodes[i]
    requires fs'.inodes[ino].mapped == l + 1 && (fs'.inodes[ino].indir.Some? ==> l >= NDIRECT) && (At(fs', ino, Tab) != 0 <==> l >= NDIRECT)
    requires forall m :: 0 <= m < MAXFILE ==> At(fs', ino, SlotOf(m)) == if m == l then no else At(fs, ino, SlotOf(m))
    requires forall i, s :: i != ino ==> At(fs', i, s) == At(fs, i, s)
    ensures Prefixes(fs')
  {
    hide At;
    assert PrefixOk(fs, ino);
    forall i | i in fs'.inodes ensures PrefixOk(fs', i) {
      if i != ino { assert PrefixOk(fs, i); }
    }
  }

  /** The slot of a mapped block is full, that of the next block is empty. */
  lemma SlotFacts(fs: Fs, ino: nat, l: nat)
    requires FsOk(fs) && ino in fs.inodes && l < MAXFILE
    ensures InodeShape(fs.inodes[ino]) && fs.bm.Safe()
    ensures At(fs, ino, SlotOf(l)) != 0 <==> l < fs.inodes[ino].mapped
    ensures fs.inodes[ino].addrs[NDIRECT] != 0 <==> fs.inodes[ino].mapped > NDIRECT
    ensures fs.inodes[ino].indir.Some? ==> fs.inodes[ino].mapped > NDIRECT
  {
    assert PrefixOk(fs, ino);
  }

  lemma MappedRefl(fs: Fs, fs': Fs, ino: nat, l: nat)
    requires FsOk(fs) && FsOk(fs') && ino in fs.inodes && l < fs.inodes[ino].mapped && l < MAXFILE
    requires fs' == fs.(inodes := fs'.inodes) && fs'.inodes.Keys == fs.inodes.Keys
    requires forall i :: i in fs.inodes && i != ino ==> fs'.inodes[i] == fs.inodes[i]
    requires fs'.inodes[ino] == fs.inodes[ino].(indir := fs'.inodes[ino].indir)
    requires forall i, s :: At(fs', i, s) == At(fs, i, s)
    ensures Mapped(fs, fs', ino, l)
  {
    hide At, FsOk, FreeKept;
    SlotFacts(fs, ino, l);
    FreeKeptSame(fs, fs');
  }

  lemma FreeKeptSame(fs: Fs, fs': Fs)
    requires FsOk(fs) && fs'.bm == fs.bm && fs'.disk == fs.disk
    ensures FreeKept(fs, fs')
  {
    hide At;
  }

  lemma DirectAlloc(fs: Fs, ino: nat, l: nat)
    requires FsOk(fs) && ino in fs.inodes && InodeShape(fs.inodes[ino]) && l == fs.inodes[ino].mapped < NDIRECT
    requires TakeBlock(fs).0 != -1
    ensures var (fs1, r) := BmapDirect(fs, ino, l, true);
            Mapped(fs, fs1, ino, l) && r == Block(At(fs1, ino, SlotOf(l)))
  {
    hide At, Taken, Distinct, FreeKept, PrefixOk;
    SlotFacts(fs, ino, l);
    DirectIs(fs, ino, l);
    TakeBlockOk(fs);
    var no: nat := TakeBlock(fs).0;
    var (fs1, _) := BmapDirect(fs, ino, l, true);
    forall i, s ensures At(fs1, i, s) == if i == ino && s == Dir(l) then no else At(fs, i, s) {
      DirectAt(fs, fs1, ino, l, no, i, s);
    }
    NewSlot(fs, fs1, ino, Dir(l), no);
    FreeKeptTake(fs, fs1, no);
    assert Shape(fs1);
    forall m | 0 <= m < MAXFILE ensures At(fs1, ino, SlotOf(m)) == if m == l then no else At(fs, ino, SlotOf(m)) {
      if SlotOf(m) == SlotOf(l) { SlotOfInjective(m, l); }
    }
    TabIs(fs, ino);
    PrefixGrows(fs, fs1, ino, l, no);
  }

  lemma DirectIs(fs: Fs, ino: nat, l: nat)
    requires ino in fs.inodes && InodeShape(fs.inodes[ino]) && l < NDIRECT
    ensures At(fs, ino, SlotOf(l)) == fs.inodes[ino].addrs[l]
  {
  }

  /** The state after NeedTable and LoadTable: everything but the prefix property. */
  ghost predicate HasTable(fs: Fs, fs1: Fs, ino: nat) {
    && Shape(fs1) && Bits(fs1) && Taken(fs1) && Distinct(fs1) && FreeKept(fs, fs1)
    && fs1.disk == fs.disk && fs1.inodes.Keys == fs.inodes.Keys && ino in fs.inodes && fs1.bm.size == fs.bm.size
    && fs1.area == fs.area && fs1.blockFree == fs.blockFree - (if At(fs, ino, Tab) == 0 then 1 else 0)
    && (forall i :: i in fs.inodes && i != ino ==> fs1.inodes[i] == fs.inodes[i])
    && (forall i, s :: !(i == ino && s == Tab) ==> At(fs1, i, s) == At(fs, i, s))
    && At(fs1, ino, Tab) != 0 && (At(fs, ino, Tab) != 0 ==> At(fs1, ino, Tab) == At(fs, ino, Tab) && fs1.bm == fs.bm)
    && fs1.inodes[ino] == fs.inodes[ino].(addrs := fs1.inodes[ino].addrs, indir := fs1.inodes[ino].indir)
  }

  /** The slots after a table block was taken. */
  lemma NewTableAt(fs: Fs, ino: nat)
    requires FsOk(fs) && ino in fs.inodes && InodeShape(fs.inodes[ino]) && fs.inodes[ino].mapped == NDIRECT && fs.bm.Safe() && NextTableZero(fs, ino)
    requires NeedTable(fs, ino).1 != Panic && fs.inodes[ino].addrs[NDIRECT] == 0
    ensures TakeBlock(fs).0 > 0
    ensures forall i, s :: At(NeedTable(fs, ino).0, i, s) == if i == ino && s == Tab then TakeBlock(fs).0 else At(fs, i, s)
  {
    hide At, Taken, Distinct, PrefixOk;
    SlotFacts(fs, ino, 0);
    TakeBlockOk(fs);
    var no: nat := TakeBlock(fs).0;
    var fs1 := NeedTable(fs, ino).0;
    assert Zeroed(fs.disk[no]);
    forall i, s ensures At(fs1, i, s) == if i == ino && s == Tab then no else At(fs, i, s) {
      TabAt(fs, fs1, ino, no, i, s);
    }
  }

  lemma NeedTableOk(fs: Fs, ino: nat)
    requires FsOk(fs) && ino in fs.inodes && InodeShape(fs.inodes[ino]) && fs.inodes[ino].mapped >= NDIRECT && fs.bm.Safe()
    requires fs.inodes[ino].mapped == NDIRECT ==> NextTableZero(fs, ino)
    requires NeedTable(fs, ino).1 != Panic
    ensures HasTable(fs, NeedTable(fs, ino).0, ino)
  {
    hide At, Taken, Distinct, PrefixOk;
    SlotFacts(fs, ino, 0);
    var fs1 := NeedTable(fs, ino).0;
    TabIs(fs, ino);
    if fs.inodes[ino].addrs[NDIRECT] == 0 {
      NewTableAt(fs, ino);
      TakeBlockOk(fs);
      var no: nat := TakeBlock(fs).0;
      NewSlot(fs, fs1, ino, Tab, no);
      FreeKeptTake(fs, fs1, no);
    }
  }

  lemma TabIs(fs: Fs, ino: nat)
    requires ino in fs.inodes && InodeShape(fs.inodes[ino])
    ensures At(fs, ino, Tab) == fs.inodes[ino].addrs[NDIRECT]
  {
  }

  lemma LoadTableOk(fs: Fs, fs1: Fs, ino: nat)
    requires HasTable(fs, fs1, ino) && InodeShape(fs1.inodes[ino])
    ensures HasTable(fs, LoadTable(fs1, ino), ino) && LoadTable(fs1, ino).inodes[ino].indir.Some?
  {
    var fs2 := LoadTable(fs1, ino);
    forall i, s ensures At(fs2, i, s) == At(fs1, i, s) { LoadAt(fs1, ino, i, s); }
    assert Shape(fs2);
    hide At;
  }

  lemma TableSafe(fs: Fs, fs1: Fs, ino: nat)
    requires HasTable(fs, fs1, ino)
    ensures InodeShape(fs1.inodes[ino]) && fs1.bm.Safe()
  {
    hide At;
  }

  lemma UseEntryOk(fs: Fs, fs2: Fs, ino: nat, j: nat)
    requires FsOk(fs) && HasTable(fs, fs2, ino) && fs2.inodes[ino].indir.Some? && j < NINDIRECT
    requires InodeShape(fs2.inodes[ino]) && fs2.bm.Safe()
    requires NDIRECT + j <= fs.inodes[ino].mapped
    requires UseEntry(fs2, ino, j, true).1 != Panic
    ensures var (fs3, r) := UseEntry(fs2, ino, j, true);
            Mapped(fs, fs3, ino, NDIRECT + j) && r == Block(At(fs3, ino, Ind(j)))
  {
    var (fs3, _) := UseEntry(fs2, ino, j, true);
    var l := NDIRECT + j;
    SlotFacts(fs, ino, l);
    assert SlotOf(l) == Ind(j) && At(fs2, ino, Ind(j)) == fs2.inodes[ino].indir.value[j];
    if l < fs.inodes[ino].mapped {
      EntryPresent(fs, fs2, ino, l);
    } else {
      EntryFresh(fs, fs2, ino, j);
    }
  }

  lemma EntryPresent(fs: Fs, fs2: Fs, ino: nat, l: nat)
    requires FsOk(fs) && HasTable(fs, fs2, ino) && NDIRECT <= l < fs.inodes[ino].mapped && l < MAXFILE
    ensures Mapped(fs, fs2, ino, l)
  {
    hide At, Shape, Bits, Taken, Distinct, FreeKept;
    assert PrefixOk(fs, ino);
    assert forall i, s :: At(fs2, i, s) == At(fs, i, s);
    forall i | i in fs2.inodes ensures PrefixOk(fs2, i) { assert PrefixOk(fs, i); }
  }

  lemma EntryFresh(fs: Fs, fs2: Fs, ino: nat, j: nat)
    requires FsOk(fs) && HasTable(fs, fs2, ino) && fs2.inodes[ino].indir.Some? && j < NINDIRECT
    requires InodeShape(fs2.inodes[ino]) && fs2.bm.Safe() && fs2.inodes[ino].indir.value[j] == 0
    requires NDIRECT + j == fs.inodes[ino].mapped && UseEntry(fs2, ino, j, true).1 != Panic
    ensures var (fs3, r) := UseEntry(fs2, ino, j, true);
            Mapped(fs, fs3, ino, NDIRECT + j) && r == Block(At(fs3, ino, Ind(j)))
  {
    hide At, Taken, Distinct, FreeKept, PrefixOk, Prefixes, B.Alloc, B.Bit;
    TakeBlockOk(fs2);
    var no: nat := TakeBlock(fs2).0;
    var (fs3, _) := UseEntry(fs2, ino, j, true);
    forall i, s ensures At(fs3, i, s) == if i == ino && s == Ind(j) then no else At(fs2, i, s) {
      EntryAt(fs2, fs3, ino, j, no, i, s);
    }
    NewSlot(fs2, fs3, ino, Ind(j), no);
    FreeKeptTake(fs2, fs3, no);
    FreeKeptTrans(fs, fs2, fs3);
    assert Shape(fs3);
    forall m | 0 <= m < MAXFILE ensures At(fs3, ino, SlotOf(m)) == if m == NDIRECT + j then no else At(fs, ino, SlotOf(m)) {
      if SlotOf(m) == Ind(j) { SlotOfInjective(m, NDIRECT + j); }
    }
    PrefixGrows(fs, fs3, ino, NDIRECT + j, no);
    SlotFacts(fs, ino, NDIRECT + j);
    TabIs(fs, ino);
    LinksGrow(fs, fs2, fs3, ino, Ind(j), no);
  }

  lemma LinksGrow(fs: Fs, fs2: Fs, fs3: Fs, ino: nat, slot: Slot, no: nat)
    requires forall i, s :: !(i == ino && s == Tab) ==> At(fs2, i, s) == At(fs, i, s)
    requires At(fs, ino, Tab) != 0 ==> At(fs2, ino, Tab) == At(fs, ino, Tab)
    requires forall i, s :: At(fs3, i, s) == if i == ino && s == slot then no else At(fs2, i, s)
    requires At(fs, ino, slot) == 0
    ensures forall i, s :: At(fs, i, s) != 0 ==> At(fs3, i, s) == At(fs, i, s)
    ensures forall i, s :: i != ino ==> At(fs3, i, s) == At(fs, i, s)
  {
    hide At;
  }

  /** efs_i_bmap with alloc: logical block `l`, at most one past the mapped ones, gets a
      block of its own and nothing that was recorded anywhere changes. */
  lemma BmapAlloc(fs: Fs, ino: nat, l: nat)
    requires FsOk(fs) && ino in fs.inodes && InodeShape(fs.inodes[ino]) && l < MAXFILE && l <= fs.inodes[ino].mapped && fs.bm.Safe()
    requires l == NDIRECT && fs.inodes[ino].mapped == NDIRECT ==> NextTableZero(fs, ino)
    ensures var (fs1, r) := Bmap(fs, ino, l, true);
            r != Panic ==> Mapped(fs, fs1, ino, l) && r == Block(At(fs1, ino, SlotOf(l)))
  {
    hide At, Taken, Distinct, FreeKept, PrefixOk, HasTable, Mapped;
    SlotFacts(fs, ino, l);
    var (fs1, r) := Bmap(fs, ino, l, true);
    if l < NDIRECT {
      DirectIs(fs, ino, l);
      if l < fs.inodes[ino].mapped { MappedRefl(fs, fs, ino, l); } else if r != Panic { DirectAlloc(fs, ino, l); }
    } else {
      var (fs2, t) := NeedTable(fs, ino);
      if t != Panic && r != Panic {
        NeedTableOk(fs, ino);
        LoadTableOk(fs, fs2, ino);
        TableSafe(fs, LoadTable(fs2, ino), ino);
        UseEntryOk(fs, LoadTable(fs2, ino), ino, l - NDIRECT);
      }
    }
  }

  /** efs_i_bmap with alloc stops the kernel exactly when the new block, and the table in
      front of the 13th block, do not fit into the free blocks. */
  lemma BmapPanics(fs: Fs, ino: nat, l: nat)
    requires FsOk(fs) && ino in fs.inodes && InodeShape(fs.inodes[ino]) && l < MAXFILE && l <= fs.inodes[ino].mapped && fs.bm.Safe()
    requires l == NDIRECT && fs.inodes[ino].mapped == NDIRECT ==> NextTableZero(fs, ino)
    ensures Bmap(fs, ino, l, true).1 == Panic <==> l == fs.inodes[ino].mapped && fs.blockFree < Owned(l + 1) - Owned(l)
  {
    hide At, Taken, Distinct, FreeKept, PrefixOk, HasTable, Prefixes, B.Alloc;
    SlotFacts(fs, ino, l);
    if l < NDIRECT {
      TakeBlockOk(fs);
      DirectIs(fs, ino, l);
    } else {
      TablePanics(fs, ino, l - NDIRECT);
    }
  }

  lemma TablePanics(fs: Fs, ino: nat, j: nat)
    requires FsOk(fs) && ino in fs.inodes && InodeShape(fs.inodes[ino]) && j < NINDIRECT && NDIRECT + j <= fs.inodes[ino].mapped && fs.bm.Safe()
    requires fs.inodes[ino].mapped == NDIRECT ==> NextTableZero(fs, ino)
    ensures Bmap(fs, ino, NDIRECT + j, true).1 == Panic <==> NDIRECT + j == fs.inodes[ino].mapped && fs.blockFree < Owned(NDIRECT + j + 1) - Owned(NDIRECT + j)
  {
    hide At, Taken, Distinct, FreeKept, PrefixOk, HasTable, Prefixes, B.Alloc, Shape, UseEntry, LoadTable;
    SlotFacts(fs, ino, NDIRECT + j);
    TakeBlockOk(fs);
    var (fs1, t) := NeedTable(fs, ino);
    if t != Panic {
      NeedTableOk(fs, ino);
      TableSafe(fs, fs1, ino);
      LoadTableOk(fs, fs1, ino);
      EntryPanics(fs, LoadTable(fs1, ino), ino, j);
    }
  }

  lemma EntryPanics(fs: Fs, fs2: Fs, ino: nat, j: nat)
    requires FsOk(fs) && HasTable(fs, fs2, ino) && fs2.inodes[ino].indir.Some? && j < NINDIRECT && NDIRECT + j <= fs.inodes[ino].mapped
    ensures InodeShape(fs2.inodes[ino]) && fs2.bm.Safe()
    ensures UseEntry(fs2, ino, j, true).1 == Panic <==> NDIRECT + j == fs.inodes[ino].mapped && fs2.blockFree == 0
    ensures fs2.blockFree == fs.blockFree - (if fs.inodes[ino].mapped > NDIRECT then 0 else 1)
  {
    hide At, Taken, Distinct, FreeKept, PrefixOk;
    TableSafe(fs, fs2, ino);
    SlotFacts(fs, ino, NDIRECT + j);
    TakeBlockOk(fs2);
    TabIs(fs, ino);
    EntryIs(fs2, ino, j);
  }

  lemma EntryIs(fs: Fs, ino: nat, j: nat)
    requires ino in fs.inodes && InodeShape(fs.inodes[ino]) && fs.inodes[ino].indir.Some? && j < NINDIRECT
    ensures At(fs, ino, Ind(j)) == fs.inodes[ino].indir.value[j]
  {
  }

  /** A lookup may bring the table into memory; nothing else changes. */
  ghost predicate Same(fs: Fs, fs': Fs, ino: nat) {
    && fs' == fs.(inodes := fs'.inodes) && fs'.inodes.Keys == fs.inodes.Keys && ino in fs.inodes
    && (forall i :: i in fs.inodes && i != ino ==> fs'.inodes[i] == fs.inodes[i])
    && fs'.inodes[ino] == fs.inodes[ino].(indir := fs'.inodes[ino].indir)
    && (forall i, s :: At(fs', i, s) == At(fs, i, s))
  }

  lemma SameOk(fs: Fs, fs': Fs, ino: nat)
    requires FsOk(fs) && Same(fs, fs', ino) && InodeShape(fs'.inodes[ino])
    requires fs'.inodes[ino].indir.Some? ==> At(fs, ino, Tab) != 0
    ensures FsOk(fs')
  {
    hide At;
    forall i | i in fs'.inodes ensures PrefixOk(fs', i) { assert PrefixOk(fs, i); }
  }

  /** efs_i_bmap without alloc looks the block up. */
  lemma BmapLookup(fs: Fs, ino: nat, l: nat)
    requires FsOk(fs) && ino in fs.inodes && InodeShape(fs.inodes[ino])
    ensures var (fs1, r) := Bmap(fs, ino, l, false);
            && Same(fs, fs1, ino) && FsOk(fs1)
            && r == Block(if l < MAXFILE then At(fs, ino, SlotOf(l)) else 0)
  {
    hide At, Taken, Distinct, FreeKept, PrefixOk, Shape, Bits, Prefixes;
    if l < NDIRECT {
      DirectIs(fs, ino, l);
      SlotFacts(fs, ino, l);
    } else if l < MAXFILE {
      SlotFacts(fs, ino, l);
      TabIs(fs, ino);
      if fs.inodes[ino].addrs[NDIRECT] != 0 {
        var fs1 := LoadTable(fs, ino);
        forall i, s ensures At(fs1, i, s) == At(fs, i, s) { LoadAt(fs, ino, i, s); }
        EntryIs(fs1, ino, l - NDIRECT);
        SameOk(fs, fs1, ino);
      }
    } else {
      SlotFacts(fs, ino, 0);
    }
  }

  // ---- bytes ----

  /** Byte `p` of a file, through the block map. */
  function FileByte(fs: Fs, i: nat, p: nat): Byte {
    var b := At(fs, i, SlotOf(p / BLOCK));
    if 0 < b < |fs.disk| && |fs.disk[b]| == BLOCK then fs.disk[b][p % BLOCK] else 0
  }

  /** blk_write to one block. */
  function Store(fs: Fs, b: nat, off: nat, data: seq<Byte>): Fs
    requires b < |fs.disk| && off + |data| <= |fs.disk[b]|
  {
    fs.(disk := fs.disk[b := Splice(fs.disk[b], off, data)])
  }

  /** Overwriting a data block changes no block number. */
  lemma StoreAt(fs: Fs, ino: nat, l: nat, off: nat, data: seq<Byte>, i: nat, s: Slot)
    requires FsOk(fs) && l < MAXFILE && At(fs, ino, SlotOf(l)) != 0 && At(fs, ino, SlotOf(l)) < |fs.disk|
    requires off + |data| <= |fs.disk[At(fs, ino, SlotOf(l))]|
    ensures At(Store(fs, At(fs, ino, SlotOf(l)), off, data), i, s) == At(fs, i, s)
  {
    hide Bits, Taken, Prefixes;
    var b := At(fs, ino, SlotOf(l));
    assert At(fs, i, Tab) != b by { hide At; }
  }

  lemma StoreOk(fs: Fs, ino: nat, l: nat, off: nat, data: seq<Byte>)
    requires FsOk(fs) && l < MAXFILE && At(fs, ino, SlotOf(l)) != 0 && off + |data| <= BLOCK
    ensures fs.area <= At(fs, ino, SlotOf(l)) < |fs.disk| && |fs.disk[At(fs, ino, SlotOf(l))]| == BLOCK
    ensures var fs' := Store(fs, At(fs, ino, SlotOf(l)), off, data);
            FsOk(fs') && FreeKept(fs, fs') && forall i, s :: At(fs', i, s) == At(fs, i, s)
  {
    hide At;
    var b := At(fs, ino, SlotOf(l));
    var fs' := Store(fs, b, off, data);
    forall i, s ensures At(fs', i, s) == At(fs, i, s) { StoreAt(fs, ino, l, off, data, i, s); }
    forall i | i in fs'.inodes ensures PrefixOk(fs', i) { assert PrefixOk(fs, i); }
  }

  /** A block write reaches exactly its own bytes of its own file. */
  lemma StoreByte(fs: Fs, ino: nat, l: nat, off: nat, data: seq<Byte>, i: nat, p: nat)
    requires FsOk(fs) && l < MAXFILE && At(fs, ino, SlotOf(l)) != 0 && off + |data| <= BLOCK
    requires At(fs, ino, SlotOf(l)) < |fs.disk| && |fs.disk[At(fs, ino, SlotOf(l))]| == BLOCK
    ensures var fs' := Store(fs, At(fs, ino, SlotOf(l)), off, data);
            FileByte(fs', i, p) == if i == ino && l * BLOCK + off <= p < l * BLOCK + off + |data| then data[p - l * BLOCK - off] else FileByte(fs, i, p)
  {
    hide At, FsOk, FreeKept, Splice;
    StoreOk(fs, ino, l, off, data);
    var b := At(fs, ino, SlotOf(l));
    var q, k := p / BLOCK, p % BLOCK;
    InBlock(l, off, |data|, p);
    if At(fs, i, SlotOf(q)) == b {
      DistinctSlot(fs, ino, SlotOf(l), i, SlotOf(q));
      SlotOfInjective(l, q);
      SpliceAt(fs.disk[b], off, data, k);
    }
  }

  lemma SpliceAt(blk: seq<Byte>, off: nat, data: seq<Byte>, k: nat)
    requires off + |data| <= |blk| && k < |blk|
    ensures Splice(blk, off, data)[k] == if off <= k < off + |data| then data[k - off] else blk[k]
  {
  }

  lemma InBlock(l: nat, off: nat, n: nat, p: nat)
    requires off + n <= BLOCK
    ensures l * BLOCK + off <= p < l * BLOCK + off + n <==> p / BLOCK == l && off <= p % BLOCK < off + n
    ensures p == p / BLOCK * BLOCK + p % BLOCK
  {
  }

  lemma DistinctSlot(fs: Fs, i: nat, s: Slot, j: nat, u: Slot)
    requires FsOk(fs) && At(fs, i, s) != 0 && At(fs, i, s) == At(fs, j, u)
    ensures i == j && s == u
  {
    hide At;
  }

  /** Mapping one more block changes no byte that was mapped. */
  lemma MappedByte(fs: Fs, fs1: Fs, ino: nat, l: nat, i: nat, p: nat)
    requires FsOk(fs) && Mapped(fs, fs1, ino, l) && i in fs.inodes && p < BLOCK * fs.inodes[i].mapped
    ensures FileByte(fs1, i, p) == FileByte(fs, i, p)
  {
    hide At, Shape, Bits, Taken, Distinct;
    assert PrefixOk(fs, i);
    assert p / BLOCK < fs.inodes[i].mapped;
  }
}
