/** walk, mappages, kvm_init and uvmfirst of kernel/vm.c over a mutable page-table memory.
    The page allocator is the `pool`: pages that are aligned, distinct and not in use. */
module VirtualMemory {
  import opened Basics
  import opened PageTable

  const VPNS: nat := 0x400_0000  // virtual pages below MAXVA

  predicate OnPath(mem: Mem, root: nat, vpn: nat, p: nat) {
    p == root || At(mem, root, Second(Top(vpn))) == Some(p) || At(mem, root, Third(Top(vpn), Mid(vpn))) == Some(p)
  }

  predicate PathNode(n: Node, vpn: nat) {
    n == Second(Top(vpn)) || n == Third(Top(vpn), Mid(vpn))
  }

  /** Tables may have been added along the path to `vpn`; no mapping changed and no page
      off the path was written. */
  ghost predicate Grown(mem: Mem, mem': Mem, root: nat, vpn: nat) {
    && Tree(mem', root) && mem.Keys <= mem'.Keys
    && (forall v :: Lookup(mem', root, v) == Lookup(mem, root, v))
    && (forall p :: p in mem && !OnPath(mem, root, vpn, p) ==> mem'[p] == mem[p])
    && (forall n :: At(mem', root, n) == At(mem, root, n) || NewNode(mem, mem', root, vpn, n))
    && (Mappings(mem, root) ==> Mappings(mem', root))
  }

  /** Node `n` is new, on the path, and lives in a page that was not in use. */
  predicate NewNode(mem: Mem, mem': Mem, root: nat, vpn: nat, n: Node) {
    At(mem, root, n).None? && PathNode(n, vpn) && At(mem', root, n).Some? && At(mem', root, n).value !in mem
  }

  lemma GrownInstall(mem0: Mem, mem: Mem, root: nat, vpn: nat, n: Node, q: nat)
    requires Grown(mem0, mem, root, vpn) && n != Third(Top(vpn), Mid(vpn)) && (n == Root || n == Second(Top(vpn)))
    requires CanInstall(mem, root, n, if n.Root? then Top(vpn) else Mid(vpn), q)
    ensures Grown(mem0, Install(mem, At(mem, root, n).value, if n.Root? then Top(vpn) else Mid(vpn), q), root, vpn)
  {
    hide Top, Mid, Low, HasV, PTE2PA, MakePte;
    var i := if n.Root? then Top(vpn) else Mid(vpn);
    var p := At(mem, root, n).value;
    var mem' := Install(mem, p, i, q);
    InstallTree(mem, root, n, i, q);
    forall v ensures Lookup(mem', root, v) == Lookup(mem0, root, v) {
      InstallLookup(mem, root, n, i, q, v);
    }
    forall m ensures At(mem', root, m) == At(mem0, root, m) || NewNode(mem0, mem', root, vpn, m) {
      InstallAt(mem, root, n, i, q, m);
      assert At(mem, root, m) == At(mem0, root, m) || NewNode(mem0, mem, root, vpn, m);
    }
    assert At(mem0, root, Root) == Some(root);
    assert At(mem, root, n) == At(mem0, root, n) || NewNode(mem0, mem, root, vpn, n);
  }

  lemma GrownRefl(mem: Mem, root: nat, vpn: nat)
    requires Tree(mem, root)
    ensures Grown(mem, mem, root, vpn) && At(mem, root, Root) == Some(root)
  {
  }

  /** One level of walk: what the entry it reads means. */
  lemma WalkEntry(mem0: Mem, mem: Mem, root: nat, vpn: nat, n: Node, i: nat)
    requires Grown(mem0, mem, root, vpn) && At(mem, root, n).Some?
    requires (n == Root && i == Top(vpn)) || (n == Second(Top(vpn)) && i == Mid(vpn))
    ensures At(mem, root, n).value in mem && i < |mem[At(mem, root, n).value]|
    ensures var e := mem[At(mem, root, n).value][i];
            if HasV(e) then At(mem, root, Below(n, i)) == Some(PTE2PA(e)) else At(mem, root, Third(Top(vpn), Mid(vpn))).None?
  {
  }

  /** One level of walk: a fresh table goes in. */
  lemma WalkInstall(mem0: Mem, mem: Mem, root: nat, vpn: nat, n: Node, i: nat, q: nat)
    requires Grown(mem0, mem, root, vpn) && At(mem, root, n).Some? && At(mem, root, n).value in mem
    requires (n == Root && i == Top(vpn)) || (n == Second(Top(vpn)) && i == Mid(vpn))
    requires i < |mem[At(mem, root, n).value]| && !HasV(mem[At(mem, root, n).value][i]) && q !in mem && q % PGSIZE == 0
    ensures var mem' := Install(mem, At(mem, root, n).value, i, q);
            Grown(mem0, mem', root, vpn) && At(mem', root, Below(n, i)) == Some(q) && mem'.Keys == mem.Keys + {q}
  {
    assert CanInstall(mem, root, n, i, q);
    GrownInstall(mem0, mem, root, vpn, n, q);
    InstallAt(mem, root, n, i, q, Below(n, i));
  }

  lemma WalkPresent(mem0: Mem, mem: Mem, root: nat, vpn: nat, n: Node, i: nat, q: nat, nodes: set<Node>)
    requires Grown(mem0, mem, root, vpn) && At(mem, root, n).Some? && At(mem, root, n).value in mem && Covers(nodes, vpn, 1)
    requires (n == Root && i == Top(vpn)) || (n == Second(Top(vpn)) && i == Mid(vpn))
    requires i < |mem[At(mem, root, n).value]| && !HasV(mem[At(mem, root, n).value][i]) && q !in mem && q % PGSIZE == 0
    ensures |Present(Install(mem, At(mem, root, n).value, i, q), root, nodes)| == |Present(mem, root, nodes)| + 1
  {
    assert CanInstall(mem, root, n, i, q);
    assert Second(Top(vpn)) in nodes && Third(Top(vpn), Mid(vpn)) in nodes;
    InstallPresent(mem, root, n, i, q, nodes);
  }

  /** The flat update: `k` pages from `first` on map to consecutive frames from `pa` on. */
  ghost predicate RangeMapped(mem0: Mem, mem: Mem, root: nat, first: nat, k: nat, pa: nat, perm: nat) {
    forall v :: 0 <= v < VPNS ==>
      Lookup(mem, root, v) ==
      if first <= v < first + k then Some(MakePte(pa + PGSIZE * (v - first), perm)) else Lookup(mem0, root, v)
  }

  ghost predicate OffRange(mem: Mem, root: nat, first: nat, k: nat, p: nat) {
    forall v :: first <= v < first + k ==> !OnPath(mem, root, v, p)
  }

  /** Only tables on the paths to the range were written or added. */
  ghost predicate RangeFrame(mem0: Mem, mem: Mem, root: nat, first: nat, k: nat) {
    && Tree(mem, root) && mem0.Keys <= mem.Keys
    && (forall p :: p in mem0 && OffRange(mem0, root, first, k, p) ==> mem[p] == mem0[p])
    && (forall n :: At(mem, root, n) == At(mem0, root, n) || RangeNode(mem0, mem, root, first, k, n))
  }

  ghost predicate RangeNode(mem0: Mem, mem: Mem, root: nat, first: nat, k: nat, n: Node) {
    && At(mem0, root, n).None? && At(mem, root, n).Some? && At(mem, root, n).value !in mem0
    && exists v :: first <= v < first + k && PathNode(n, v)
  }

  lemma FrameWalk(mem0: Mem, mem: Mem, mem': Mem, root: nat, first: nat, k: nat)
    requires Tree(mem0, root) && RangeFrame(mem0, mem, root, first, k) && Grown(mem, mem', root, first + k)
    ensures RangeFrame(mem0, mem', root, first, k + 1)
  {
    forall p | p in mem0 && OffRange(mem0, root, first, k + 1, p) ensures mem'[p] == mem0[p] {
      assert !OnPath(mem0, root, first + k, p);
      assert OffRange(mem0, root, first, k, p);
      OffPathStays(mem0, mem, root, first, k, p);
    }
    forall n ensures At(mem', root, n) == At(mem0, root, n) || RangeNode(mem0, mem', root, first, k + 1, n) {
      assert At(mem, root, n) == At(mem0, root, n) || RangeNode(mem0, mem, root, first, k, n);
      assert At(mem', root, n) == At(mem, root, n) || NewNode(mem, mem', root, first + k, n);
    }
  }

  /** A page in use that is on no path of the old tree is on no path of the grown one. */
  lemma OffPathStays(mem0: Mem, mem: Mem, root: nat, first: nat, k: nat, p: nat)
    requires RangeFrame(mem0, mem, root, first, k) && p in mem0 && !OnPath(mem0, root, first + k, p)
    ensures !OnPath(mem, root, first + k, p)
  {
    var a, b := Second(Top(first + k)), Third(Top(first + k), Mid(first + k));
    assert At(mem, root, a) == At(mem0, root, a) || RangeNode(mem0, mem, root, first, k, a);
    assert At(mem, root, b) == At(mem0, root, b) || RangeNode(mem0, mem, root, first, k, b);
  }

  lemma FrameWrite(mem0: Mem, mem: Mem, root: nat, first: nat, k: nat, e: nat)
    requires Tree(mem0, root) && RangeFrame(mem0, mem, root, first, k + 1)
    requires At(mem, root, Third(Top(first + k), Mid(first + k))).Some?
    ensures RangeFrame(mem0, Write(mem, At(mem, root, Third(Top(first + k), Mid(first + k))).value, Low(first + k), e), root, first, k + 1)
  {
    var n := Third(Top(first + k), Mid(first + k));
    var q := At(mem, root, n).value;
    var mem' := Write(mem, q, Low(first + k), e);
    WriteTree(mem, root, Top(first + k), Mid(first + k), Low(first + k), e);
    assert At(mem, root, n) == At(mem0, root, n) || RangeNode(mem0, mem, root, first, k + 1, n);
    forall p | p in mem0 && OffRange(mem0, root, first, k + 1, p) ensures mem'[p] == mem0[p] {
      assert !OnPath(mem0, root, first + k, p);
    }
    forall m ensures At(mem', root, m) == At(mem0, root, m) || RangeNode(mem0, mem', root, first, k + 1, m) {
      WriteAt(mem, root, Top(first + k), Mid(first + k), Low(first + k), e, m);
      assert At(mem, root, m) == At(mem0, root, m) || RangeNode(mem0, mem, root, first, k + 1, m);
    }
  }

  lemma MappedOne(mem0: Mem, mem: Mem, mem': Mem, root: nat, first: nat, k: nat, pa: nat, perm: nat)
    requires RangeMapped(mem0, mem, root, first, k, pa, perm)
    requires forall v :: 0 <= v < VPNS ==>
               Lookup(mem', root, v) == if v == first + k then Some(MakePte(pa + PGSIZE * k, perm)) else Lookup(mem, root, v)
    ensures RangeMapped(mem0, mem', root, first, k + 1, pa, perm)
  {
    hide Lookup, MakePte;
  }

  lemma WriteLookups(mem: Mem, root: nat, vpn: nat, e: nat)
    requires Tree(mem, root) && HasV(e) && vpn < VPNS && At(mem, root, Third(Top(vpn), Mid(vpn))).Some?
    ensures var p := At(mem, root, Third(Top(vpn), Mid(vpn))).value;
            forall v :: 0 <= v < VPNS ==> Lookup(Write(mem, p, Low(vpn), e), root, v) == if v == vpn then Some(e) else Lookup(mem, root, v)
  {
    var mem' := Write(mem, At(mem, root, Third(Top(vpn), Mid(vpn))).value, Low(vpn), e);
    forall v | 0 <= v < VPNS ensures Lookup(mem', root, v) == if v == vpn then Some(e) else Lookup(mem, root, v) {
      WriteLookup(mem, root, vpn, e, v);
    }
  }

  lemma PteValid(pa: nat, perm: nat)
    requires perm < 1024
    ensures HasV(MakePte(pa, perm)) && PTE_FLAGS(MakePte(pa, perm)) == WithV(perm)
  {
    PteFields(pa / 4096 * 4096, perm);
  }

  lemma GoodPermV(perm: nat)
    requires GoodPerm(perm)
    ensures GoodPerm(WithV(perm))
  {
    WithVFields(perm);
  }

  lemma FrameRefl(mem: Mem, root: nat, first: nat)
    requires Tree(mem, root)
    ensures RangeFrame(mem, mem, root, first, 0) && RangeFrame(mem, mem, root, first, 1)
    ensures forall pa, perm :: RangeMapped(mem, mem, root, first, 0, pa, perm)
  {
  }

  lemma FrameTree(mem0: Mem, mem: Mem, root: nat, first: nat, k: nat)
    requires RangeFrame(mem0, mem, root, first, k)
    ensures Tree(mem, root)
  {
  }

  lemma FrameMono(mem0: Mem, mem: Mem, root: nat, first: nat, k: nat)
    requires RangeFrame(mem0, mem, root, first, k)
    ensures RangeFrame(mem0, mem, root, first, k + 1)
  {
    forall p | p in mem0 && OffRange(mem0, root, first, k + 1, p) ensures OffRange(mem0, root, first, k, p) { }
    forall n ensures At(mem, root, n) == At(mem0, root, n) || RangeNode(mem0, mem, root, first, k + 1, n) {
      assert At(mem, root, n) == At(mem0, root, n) || RangeNode(mem0, mem, root, first, k, n);
    }
  }

  /** mappages after its walk for page `k`. */
  lemma AfterWalk(mem0: Mem, mem: Mem, mem': Mem, root: nat, first: nat, k: nat, pa: nat, perm: nat)
    requires Tree(mem0, root) && RangeMapped(mem0, mem, root, first, k, pa, perm) && RangeFrame(mem0, mem, root, first, k)
    requires Grown(mem, mem', root, first + k)
    ensures RangeMapped(mem0, mem', root, first, k, pa, perm) && RangeFrame(mem0, mem', root, first, k + 1)
    ensures Mappings(mem, root) ==> Mappings(mem', root)
  {
    hide Lookup, MakePte;
    FrameWalk(mem0, mem, mem', root, first, k);
  }

  lemma SlotInTable(mem0: Mem, mem: Mem, root: nat, vpn: nat)
    requires Grown(mem0, mem, root, vpn) && At(mem, root, Third(Top(vpn), Mid(vpn))).Some?
    ensures var t := At(mem, root, Third(Top(vpn), Mid(vpn))).value;
            t in mem && Low(vpn) < |mem[t]| && (HasV(mem[t][Low(vpn)]) <==> Lookup(mem, root, vpn).Some?)
  {
  }

  lemma SlotMapped(mem0: Mem, mem: Mem, root: nat, first: nat, k: nat, pa: nat, perm: nat)
    requires RangeMapped(mem0, mem, root, first, k, pa, perm) && first + k < VPNS && Lookup(mem, root, first + k).Some?
    ensures Lookup(mem0, root, first + k).Some?
  {
  }

  lemma SlotFree(mem0: Mem, mem: Mem, root: nat, first: nat, k: nat, pa: nat, perm: nat)
    requires RangeMapped(mem0, mem, root, first, k, pa, perm) && first + k < VPNS && Lookup(mem, root, first + k).None?
    ensures Lookup(mem0, root, first + k).None?
  {
  }

  /** mappages stores the entry of page `k`. */
  lemma StoreEntry(mem0: Mem, mem: Mem, root: nat, first: nat, k: nat, pa: nat, perm: nat)
    requires Tree(mem0, root) && RangeMapped(mem0, mem, root, first, k, pa, perm) && RangeFrame(mem0, mem, root, first, k + 1)
    requires perm < 1024 && first + k < VPNS && At(mem, root, Third(Top(first + k), Mid(first + k))).Some?
    requires At(mem, root, Third(Top(first + k), Mid(first + k))).value in mem
    requires Low(first + k) < |mem[At(mem, root, Third(Top(first + k), Mid(first + k))).value]|
    ensures var mem' := Write(mem, At(mem, root, Third(Top(first + k), Mid(first + k))).value, Low(first + k), MakePte(pa + PGSIZE * k, perm));
            && mem'.Keys == mem.Keys
            && RangeMapped(mem0, mem', root, first, k + 1, pa, perm) && RangeFrame(mem0, mem', root, first, k + 1)
            && (Mappings(mem, root) && GoodPerm(perm) ==> Mappings(mem', root))
  {
    var e := MakePte(pa + PGSIZE * k, perm);
    PteValid(pa + PGSIZE * k, perm);
    if GoodPerm(perm) { GoodPermV(perm); }
    hide Top, Mid, Low, PTE2PA, MakePte, HasV, GoodPerm, Lookup;
    WriteLookups(mem, root, first + k, e);
    MappedOne(mem0, mem, Write(mem, At(mem, root, Third(Top(first + k), Mid(first + k))).value, Low(first + k), e), root, first, k, pa, perm);
    FrameWrite(mem0, mem, root, first, k, e);
    WriteTree(mem, root, Top(first + k), Mid(first + k), Low(first + k), e);
  }

  lemma PageArith(va: nat, k: nat)
    requires va % PGSIZE == 0
    ensures (va + PGSIZE * k) / PGSIZE == va / PGSIZE + k && (va + PGSIZE * k) % PGSIZE == 0
    ensures va + PGSIZE * k < MAXVA ==> va / PGSIZE + k < VPNS
  {
  }

  /** The loop of mappages stops at the last page and the range did not wrap. */
  lemma LastPage(va: nat, size: nat, k: nat)
    requires va % PGSIZE == 0 && size % PGSIZE == 0 && 0 < size < TWO64 && va < TWO64 && 0 < k && PGSIZE * (k - 1) < size
    requires va + PGSIZE * (k - 1) < MAXVA && va + PGSIZE * (k - 1) == (va + size - PGSIZE) % TWO64
    ensures size == PGSIZE * k && va + size <= MAXVA
  {
  }

  lemma NotLast(va: nat, size: nat, k: nat)
    requires va % PGSIZE == 0 && size % PGSIZE == 0 && 0 < size < TWO64 && va < TWO64 && 0 < k && PGSIZE * (k - 1) < size
    requires va + PGSIZE * (k - 1) < MAXVA && va + PGSIZE * (k - 1) != (va + size - PGSIZE) % TWO64
    ensures PGSIZE * k < size && va + PGSIZE * k <= MAXVA
  {
  }

  // ---- how many pages a mapping takes ----

  /** The nodes of `nodes` that have a table. */
  ghost function Present(mem: Mem, root: nat, nodes: set<Node>): set<Node> {
    set n | n in nodes && At(mem, root, n).Some?
  }

  ghost predicate Covers(nodes: set<Node>, first: nat, k: nat) {
    forall v :: first <= v < first + k ==> Second(Top(v)) in nodes && Third(Top(v), Mid(v)) in nodes
  }

  /** Taking one page from the pool adds one node. */
  lemma InstallPresent(mem: Mem, root: nat, n: Node, i: nat, q: nat, nodes: set<Node>)
    requires CanInstall(mem, root, n, i, q) && Below(n, i) in nodes && At(mem, root, Below(n, i)).None?
    ensures |Present(Install(mem, At(mem, root, n).value, i, q), root, nodes)| == |Present(mem, root, nodes)| + 1
  {
    hide Install, At;
    var mem' := Install(mem, At(mem, root, n).value, i, q);
    forall m ensures At(mem', root, m) == if m == Below(n, i) then Some(q) else At(mem, root, m) { InstallAt(mem, root, n, i, q, m); }
    assert Present(mem', root, nodes) == Present(mem, root, nodes) + {Below(n, i)};
  }

  lemma SamePresent(mem: Mem, mem': Mem, root: nat, nodes: set<Node>)
    requires forall n :: At(mem', root, n) == At(mem, root, n)
    ensures Present(mem', root, nodes) == Present(mem, root, nodes)
  {
    hide At;
  }

  /** Some node is still missing. */
  lemma MissingNode(mem: Mem, root: nat, nodes: set<Node>, n: Node)
    requires n in nodes && At(mem, root, n).None?
    ensures |Present(mem, root, nodes)| < |nodes|
  {
    hide At;
    assert nodes == Present(mem, root, nodes) + (nodes - Present(mem, root, nodes));
    assert n in nodes - Present(mem, root, nodes);
  }

  lemma WritePresent(mem: Mem, root: nat, vpn: nat, e: nat, nodes: set<Node>)
    requires Tree(mem, root) && At(mem, root, Third(Top(vpn), Mid(vpn))).Some?
    ensures Low(vpn) < ENTRIES && At(mem, root, Third(Top(vpn), Mid(vpn))).value in mem && |mem[At(mem, root, Third(Top(vpn), Mid(vpn))).value]| == ENTRIES
    ensures Present(Write(mem, At(mem, root, Third(Top(vpn), Mid(vpn))).value, Low(vpn), e), root, nodes) == Present(mem, root, nodes)
  {
    var p := At(mem, root, Third(Top(vpn), Mid(vpn))).value;
    forall m ensures At(Write(mem, p, Low(vpn), e), root, m) == At(mem, root, m) { WriteAt(mem, root, Top(vpn), Mid(vpn), Low(vpn), e, m); }
    SamePresent(mem, Write(mem, p, Low(vpn), e), root, nodes);
  }

  lemma CoversOne(nodes: set<Node>, first: nat, n: nat, k: nat)
    ensures Covers(nodes, first, n) && k < n ==> Covers(nodes, first + k, 1)
  {
  }

  lemma NoSlot(mem: Mem, root: nat, nodes: set<Node>, first: nat, n: nat, k: nat)
    requires At(mem, root, Third(Top(first + k), Mid(first + k))).None? && k < n
    ensures Covers(nodes, first, n) ==> |Present(mem, root, nodes)| < |nodes|
  {
    if Covers(nodes, first, n) { MissingNode(mem, root, nodes, Third(Top(first + k), Mid(first + k))); }
  }

  datatype MapResult = Mapped | NoMemory | Panicked

  class Vm {
    var mem: Mem
    var pool: seq<nat>

    /** Pages the allocator can hand out: aligned, distinct, in no table. */
    ghost predicate PoolOk()
      reads this
    {
      && (forall i :: 0 <= i < |pool| ==> pool[i] % PGSIZE == 0 && pool[i] !in mem)
      && (forall i, j :: 0 <= i < j < |pool| ==> pool[i] != pool[j])
    }

    /** walk: the slot of the last-level entry for `va`, creating tables if asked to. */
    method Walk(root: nat, va: nat, alloc: bool, ghost nodes: set<Node>) returns (slot: Option<(nat, nat)>)
      requires Tree(mem, root) && PoolOk()
      modifies this
      ensures PoolOk() && exists used :: 0 <= used <= |old(pool)| && pool == old(pool)[used..]
      ensures va >= MAXVA || !alloc ==> mem == old(mem) && pool == old(pool)
      ensures va < MAXVA ==> Grown(old(mem), mem, root, va / PGSIZE)
      ensures slot == if va >= MAXVA || At(mem, root, Third(Top(va / PGSIZE), Mid(va / PGSIZE))).None? then None
                      else Some((At(mem, root, Third(Top(va / PGSIZE), Mid(va / PGSIZE))).value, Low(va / PGSIZE)))
      ensures alloc && va < MAXVA && slot.None? ==> pool == []
      ensures va < MAXVA && Covers(nodes, va / PGSIZE, 1) ==>
                |old(pool)| - |pool| == |Present(mem, root, nodes)| - |Present(old(mem), root, nodes)|
    {
      hide Top, Mid, Low, PTE2PA, MakePte, HwIndex, HasV, Grown, Install, Tree, At, Present;
      assert pool == pool[0..];
      if va >= MAXVA { return None; }
      var vpn := va / PGSIZE;
      var table := root;
      var level := 2;
      ghost var n := Root;
      ghost var used := 0;
      IndexesAgree(va);
      GrownRefl(mem, root, vpn);
      while level > 0
        invariant 0 <= level <= 2 && PoolOk()
        invariant n == if level == 2 then Root else if level == 1 then Second(Top(vpn)) else Third(Top(vpn), Mid(vpn))
        invariant At(mem, root, n) == Some(table) && Grown(old(mem), mem, root, vpn)
        invariant 0 <= used <= |old(pool)| && pool == old(pool)[used..]
        invariant !alloc ==> mem == old(mem) && pool == old(pool)
        invariant Covers(nodes, vpn, 1) ==> used == |Present(mem, root, nodes)| - |Present(old(mem), root, nodes)|
      {
        var i := HwIndex(va, level);
        ghost var child := Below(n, i);
        WalkEntry(old(mem), mem, root, vpn, n, i);
        if HasV(mem[table][i]) {
          table := PTE2PA(mem[table][i]);
        } else {
          if !alloc || pool == [] { return None; }
          var page := pool[0];
          WalkInstall(old(mem), mem, root, vpn, n, i, page);
          if Covers(nodes, vpn, 1) { WalkPresent(old(mem), mem, root, vpn, n, i, page, nodes); }
          mem := Install(mem, table, i, page);
          pool := pool[1..];
          used := used + 1;
          table := page;
        }
        n := child;
        level := level - 1;
      }
      slot := Some((table, HwIndex(va, 0)));
    }

    /** mappages: `done` pages were mapped before it returned or panicked. */
    method MapPages(root: nat, va: nat, pa: nat, size: nat, perm: nat, ghost nodes: set<Node>) returns (r: MapResult, ghost done: nat)
      requires Tree(mem, root) && PoolOk() && perm < 1024 && va < TWO64 && size < TWO64 && pa + size < TWO64
      modifies this
      ensures PoolOk() && exists used :: 0 <= used <= |old(pool)| && pool == old(pool)[used..]
      ensures RangeMapped(old(mem), mem, root, va / PGSIZE, done, pa, perm)
      ensures RangeFrame(old(mem), mem, root, va / PGSIZE, done + 1)
      ensures Mappings(old(mem), root) && GoodPerm(perm) ==> Mappings(mem, root)
      ensures va % PGSIZE != 0 || size % PGSIZE != 0 || size == 0 ==> r.Panicked? && mem == old(mem)
      ensures !r.Mapped? && size > 0 ==> PGSIZE * done < size
      ensures r.Mapped? ==> va + size <= MAXVA && size == PGSIZE * done && RangeFrame(old(mem), mem, root, va / PGSIZE, done)
      ensures r.Mapped? ==> forall v :: va / PGSIZE <= v < va / PGSIZE + done ==> Lookup(old(mem), root, v).None?
      ensures r.Panicked? && va % PGSIZE == 0 && size % PGSIZE == 0 && size > 0 ==>
                exists v :: va / PGSIZE <= v < va / PGSIZE + size / PGSIZE && Lookup(old(mem), root, v).Some?
      ensures r.NoMemory? ==> pool == [] || va + size > MAXVA
      ensures Covers(nodes, va / PGSIZE, size / PGSIZE) && va + size <= MAXVA ==>
                && |old(pool)| - |pool| == |Present(mem, root, nodes)| - |Present(old(mem), root, nodes)|
                && (r.NoMemory? ==> |Present(mem, root, nodes)| < |nodes|)
    {
      hide Top, Mid, Low, PTE2PA, MakePte, HasV, Tree, At, Mappings, RangeFrame, RangeMapped, Grown, Lookup, GoodPerm, Write, Present, Covers;
      done := 0;
      ghost var first := va / PGSIZE;
      ghost var used := 0;
      assert pool == pool[0..];
      FrameRefl(mem, root, first);
      if va % PGSIZE != 0 || size % PGSIZE != 0 || size == 0 { return Panicked, 0; }
      var a, p := va, pa;
      var last := (va + size - PGSIZE) % TWO64;
      while true
        invariant a == va + PGSIZE * done && p == pa + PGSIZE * done && PGSIZE * done < size
        invariant a <= MAXVA || done == 0
        invariant PoolOk() && 0 <= used <= |old(pool)| && pool == old(pool)[used..]
        invariant RangeMapped(old(mem), mem, root, first, done, pa, perm) && RangeFrame(old(mem), mem, root, first, done)
        invariant Mappings(old(mem), root) && GoodPerm(perm) ==> Mappings(mem, root)
        invariant forall v :: first <= v < first + done ==> Lookup(old(mem), root, v).None?
        invariant Covers(nodes, first, size / PGSIZE) && va + size <= MAXVA ==>
                    used == |Present(mem, root, nodes)| - |Present(old(mem), root, nodes)|
        decreases size - PGSIZE * done
      {
        ghost var before := mem;
        PageArith(va, done);
        FrameTree(old(mem), mem, root, first, done);
        CoversOne(nodes, first, size / PGSIZE, done);
        var slot := Walk(root, a, true, nodes);
        used := |old(pool)| - |pool|;
        if a < MAXVA { AfterWalk(old(mem), before, mem, root, first, done, pa, perm); }
        if slot.None? {
          if a >= MAXVA { FrameMono(old(mem), mem, root, first, done); } else { NoSlot(mem, root, nodes, first, size / PGSIZE, done); }
          return NoMemory, done;
        }
        var (table, i) := slot.value;
        SlotInTable(before, mem, root, first + done);
        if HasV(mem[table][i]) {
          SlotMapped(old(mem), mem, root, first, done, pa, perm);
          return Panicked, done;
        }
        SlotFree(old(mem), mem, root, first, done, pa, perm);
        FrameTree(old(mem), mem, root, first, done + 1);
        WritePresent(mem, root, first + done, MakePte(p, perm), nodes);
        StoreEntry(old(mem), mem, root, first, done, pa, perm);
        mem := Write(mem, table, i, MakePte(p, perm));
        done := done + 1;
        if a == last {
          LastPage(va, size, done);
          FrameMono(old(mem), mem, root, first, done);
          return Mapped, done;
        }
        NotLast(va, size, done);
        a := a + PGSIZE;
        p := p + PGSIZE;
      }
    }
  }
}
