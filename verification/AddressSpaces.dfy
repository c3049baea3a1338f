/** The kernel's address space (kvm_init) and the first user address space (uvmfirst),
    which shares the kernel's second-level tables. */
module AddressSpaces {
  import opened Basics
  import opened PageTable
  import opened VirtualMemory

  const KERNBASE: nat := 0x8000_0000
  const PHYSTOP: nat := 0x8800_0000
  const USER_TEXT: nat := 0x2_0000_0000   // USER_TEXT_BASE, already page aligned
  const USER_STACK: nat := 0x1_FFFF_E000  // USER_STACK_TOP rounded down to its page

  // page numbers
  const UART0: nat := 0x1_0000
  const VIRTIO0: nat := 0x1_0001
  const PLIC: nat := 0xc000
  const PLIC_PAGES: nat := 0x4000
  const KERNEL: nat := 0x8_0000
  const TOP: nat := 0x8_8000

  /** The identity map the kernel promises itself; `text` is the first page after the code. */
  function KernelMap(text: nat, v: nat): Option<nat> {
    if PLIC <= v < VIRTIO0 + 1 then Some(MakePte(PGSIZE * v, PTE_R + PTE_W))
    else if KERNEL <= v < text then Some(MakePte(PGSIZE * v, PTE_R + PTE_X))
    else if text <= v < TOP then Some(MakePte(PGSIZE * v, PTE_R + PTE_W))
    else None
  }

  /** The mappings below `root` are those of `f`. */
  ghost predicate MapsTo(mem: Mem, root: nat, f: nat -> Option<nat>) {
    forall v :: 0 <= v < VPNS ==> Lookup(mem, root, v) == f(v)
  }

  /** `f` with the pages [lo, lo + k) mapped to themselves with permission `perm`. */
  function Extend(f: nat -> Option<nat>, lo: nat, k: nat, perm: nat): nat -> Option<nat> {
    (v: nat) => if lo <= v < lo + k then Some(MakePte(PGSIZE * v, perm)) else f(v)
  }

  ghost predicate Unmapped(f: nat -> Option<nat>, lo: nat, k: nat) { forall v :: lo <= v < lo + k ==> f(v).None? }

  lemma StaysUnmapped(f: nat -> Option<nat>, lo: nat, k: nat, perm: nat, from: nat, n: nat)
    requires Unmapped(f, from, n) && (lo + k <= from || from + n <= lo)
    ensures Unmapped(Extend(f, lo, k, perm), from, n)
  {
  }

  /** kernel top-level entries in use: the devices' and the RAM's gigabytes. */
  ghost predicate KernelTops(mem: Mem, root: nat) {
    forall i :: At(mem, root, Second(i)).Some? ==> i == 0 || i == 2
  }

  lemma ExtendMaps(mem0: Mem, mem: Mem, root: nat, f: nat -> Option<nat>, lo: nat, k: nat, perm: nat)
    requires MapsTo(mem0, root, f) && RangeMapped(mem0, mem, root, lo, k, PGSIZE * lo, perm)
    ensures MapsTo(mem, root, Extend(f, lo, k, perm))
  {
    forall v | 0 <= v < VPNS ensures Lookup(mem, root, v) == Extend(f, lo, k, perm)(v) {
      assert PGSIZE * lo + PGSIZE * (v - lo) == PGSIZE * v;
    }
  }

  lemma TopsKept(mem0: Mem, mem: Mem, root: nat, lo: nat, k: nat)
    requires KernelTops(mem0, root) && RangeFrame(mem0, mem, root, lo, k)
    requires forall v :: lo <= v < lo + k ==> Top(v) == 0 || Top(v) == 2
    ensures KernelTops(mem, root)
  {
    forall i | At(mem, root, Second(i)).Some? ensures i == 0 || i == 2 {
      assert At(mem, root, Second(i)) == At(mem0, root, Second(i)) || RangeNode(mem0, mem, root, lo, k, Second(i));
    }
  }

  lemma FreshRoot(mem: Mem, root: nat)
    requires Pages(mem) && root !in mem && root % PGSIZE == 0
    ensures var mem' := mem[root := ZeroTable()];
            Tree(mem', root) && Mappings(mem', root) && MapsTo(mem', root, v => None) && KernelTops(mem', root)
  {
    var mem' := mem[root := ZeroTable()];
    assert forall n :: At(mem', root, n).Some? ==> n == Root;
  }

  lemma KernelTop(v: nat)
    requires PLIC <= v < VIRTIO0 + 1 || KERNEL <= v < TOP
    ensures Top(v) == 0 || Top(v) == 2
  {
  }

  /** The tree below `root` is well formed and maps exactly what `f` says. */
  ghost predicate Space(mem: Mem, root: nat, f: nat -> Option<nat>) {
    Tree(mem, root) && Mappings(mem, root) && KernelTops(mem, root) && MapsTo(mem, root, f)
  }

  predicate KernelRange(lo: nat, k: nat) {
    PLIC <= lo < lo + k <= VIRTIO0 + 1 || KERNEL <= lo < lo + k <= TOP
  }

  /** The pool has a page for every node of `nodes` that has no table. */
  ghost predicate Stocked(vm: Vm, root: nat, nodes: set<Node>)
    reads vm
  {
    |vm.pool| + |Present(vm.mem, root, nodes)| >= |nodes|
  }

  /** kvm_map: identity-map [lo, lo + k) or panic; it panics only when a page of the range is
      mapped already or the pages run out. */
  method KvmMap(vm: Vm, root: nat, lo: nat, k: nat, perm: nat, ghost f: nat -> Option<nat>, ghost nodes: set<Node>) returns (ok: bool)
    requires Space(vm.mem, root, f) && vm.PoolOk() && GoodPerm(perm) && KernelRange(lo, k) && Covers(nodes, lo, k)
    modifies vm
    ensures vm.PoolOk()
    ensures ok ==> Space(vm.mem, root, Extend(f, lo, k, perm)) && (old(Stocked(vm, root, nodes)) ==> Stocked(vm, root, nodes))
    ensures !ok ==> !Unmapped(f, lo, k) || (vm.pool == [] && !old(Stocked(vm, root, nodes)))
  {
    hide Present, Covers, Lookup, At, MakePte, Top, Tree, Mappings, GoodPerm;
    ghost var before := vm.mem;
    assert PGSIZE * lo / PGSIZE == lo && PGSIZE * lo % PGSIZE == 0;
    GoodPermSmall(perm);
    var r, done := vm.MapPages(root, PGSIZE * lo, PGSIZE * lo, PGSIZE * k, perm, nodes);
    RangeInside(lo, k);
    if r.Mapped? {
      assert done == k;
      ExtendMaps(before, vm.mem, root, f, lo, k, perm);
      forall v | lo <= v < lo + k ensures Top(v) == 0 || Top(v) == 2 { KernelTop(v); }
      TopsKept(before, vm.mem, root, lo, k);
      FrameTree(before, vm.mem, root, lo, k);
    }
    ok := r.Mapped?;
  }

  lemma RangeInside(lo: nat, k: nat)
    requires KernelRange(lo, k)
    ensures PGSIZE * lo + PGSIZE * k <= MAXVA && PGSIZE * k / PGSIZE == k && lo + k <= VPNS
  {
  }

  lemma GoodPermSmall(perm: nat)
    requires GoodPerm(perm)
    ensures perm < 1024
  {
  }

  lemma KernelPerms()
    ensures GoodPerm(PTE_R + PTE_W) && GoodPerm(PTE_R + PTE_X)
  {
  }

  /** The five kvm_map calls of kvm_init; `text` is the page after the kernel's code. */
  method MapKernel(vm: Vm, root: nat, text: nat, ghost f: nat -> Option<nat>) returns (ok: bool)
    requires Space(vm.mem, root, f) && vm.PoolOk() && KERNEL < text < TOP && forall v :: f(v).None?
    modifies vm
    ensures vm.PoolOk()
    ensures ok ==> KernelSpace(vm.mem, root, text)
    ensures old(Stocked(vm, root, KernelNodes())) ==> ok
    ensures !ok ==> vm.pool == []
  {
    hide Space, GoodPerm, Stocked, KernelNodes, Covers, KernelSpace, Extend, Unmapped, PTE_R, PTE_W, PTE_X;
    KernelPerms();
    KernelCovered(text);
    NothingMapped(f, text);
    ghost var nodes := KernelNodes();
    ok := KvmMap(vm, root, UART0, 1, PTE_R + PTE_W, f, nodes);
    if !ok { return; }
    ghost var f1 := Extend(f, UART0, 1, PTE_R + PTE_W);
    ok := KvmMap(vm, root, VIRTIO0, 1, PTE_R + PTE_W, f1, nodes);
    if !ok { return; }
    ghost var f2 := Extend(f1, VIRTIO0, 1, PTE_R + PTE_W);
    ok := KvmMap(vm, root, PLIC, PLIC_PAGES, PTE_R + PTE_W, f2, nodes);
    if !ok { return; }
    ghost var f3 := Extend(f2, PLIC, PLIC_PAGES, PTE_R + PTE_W);
    ok := KvmMap(vm, root, KERNEL, text - KERNEL, PTE_R + PTE_X, f3, nodes);
    if !ok { return; }
    ghost var f4 := Extend(f3, KERNEL, text - KERNEL, PTE_R + PTE_X);
    ok := KvmMap(vm, root, text, TOP - text, PTE_R + PTE_W, f4, nodes);
    if ok { PiecesRights(vm.mem, root, text, f); }
  }

  /** Each region is unmapped until its turn. */
  lemma NothingMapped(f: nat -> Option<nat>, text: nat)
    requires KERNEL < text < TOP && forall v :: f(v).None?
    ensures var rw := PTE_R + PTE_W;
            var f1 := Extend(f, UART0, 1, rw);
            var f2 := Extend(f1, VIRTIO0, 1, rw);
            var f3 := Extend(f2, PLIC, PLIC_PAGES, rw);
            var f4 := Extend(f3, KERNEL, text - KERNEL, PTE_R + PTE_X);
            && Unmapped(f, UART0, 1) && Unmapped(f1, VIRTIO0, 1) && Unmapped(f2, PLIC, PLIC_PAGES)
            && Unmapped(f3, KERNEL, text - KERNEL) && Unmapped(f4, text, TOP - text)
  {
    hide Extend;
    var rw := PTE_R + PTE_W;
    var f1 := Extend(f, UART0, 1, rw);
    var f2 := Extend(f1, VIRTIO0, 1, rw);
    var f3 := Extend(f2, PLIC, PLIC_PAGES, rw);
    StaysUnmapped(f, UART0, 1, rw, VIRTIO0, 1);
    StaysUnmapped(f, UART0, 1, rw, PLIC, PLIC_PAGES);
    StaysUnmapped(f, UART0, 1, rw, KERNEL, text - KERNEL);
    StaysUnmapped(f, UART0, 1, rw, text, TOP - text);
    StaysUnmapped(f1, VIRTIO0, 1, rw, PLIC, PLIC_PAGES);
    StaysUnmapped(f1, VIRTIO0, 1, rw, KERNEL, text - KERNEL);
    StaysUnmapped(f1, VIRTIO0, 1, rw, text, TOP - text);
    StaysUnmapped(f2, PLIC, PLIC_PAGES, rw, KERNEL, text - KERNEL);
    StaysUnmapped(f2, PLIC, PLIC_PAGES, rw, text, TOP - text);
    StaysUnmapped(f3, KERNEL, text - KERNEL, PTE_R + PTE_X, text, TOP - text);
  }

  // ---- the tables the kernel needs ----

  ghost function Thirds(i: nat, lo: nat, hi: nat): set<Node>
    decreases hi - lo
  {
    if lo >= hi then {} else {Third(i, lo)} + Thirds(i, lo + 1, hi)
  }

  lemma {:induction false} ThirdsAre(i: nat, lo: nat, hi: nat)
    ensures forall n :: n in Thirds(i, lo, hi) <==> n.Third? && n.i == i && lo <= n.j < hi
    ensures lo <= hi ==> |Thirds(i, lo, hi)| == hi - lo
    decreases hi - lo
  {
    if lo < hi { ThirdsAre(i, lo + 1, hi); }
  }

  /** Two second-level and 97 last-level tables. */
  ghost function KernelNodes(): set<Node> {
    {Second(0), Second(2)} + Thirds(0, 0x60, 0x81) + Thirds(2, 0, 0x40)
  }

  lemma KernelNodesAre()
    ensures |KernelNodes()| == 99
    ensures forall n :: n in KernelNodes() <==>
              n == Second(0) || n == Second(2) || (n.Third? && n.i == 0 && 0x60 <= n.j < 0x81) || (n.Third? && n.i == 2 && n.j < 0x40)
  {
    hide Thirds;
    ThirdsAre(0, 0x60, 0x81);
    ThirdsAre(2, 0, 0x40);
    var a, b, c: set<Node> := {Second(0), Second(2)}, Thirds(0, 0x60, 0x81), Thirds(2, 0, 0x40);
    assert a !! b && (a + b) !! c;
  }

  lemma KernelCovered(text: nat)
    requires KERNEL < text < TOP
    ensures var k := KernelNodes();
            && Covers(k, UART0, 1) && Covers(k, VIRTIO0, 1) && Covers(k, PLIC, PLIC_PAGES)
            && Covers(k, KERNEL, text - KERNEL) && Covers(k, text, TOP - text)
  {
    hide KernelNodes;
    KernelNodesAre();
    forall v: nat | PLIC <= v < VIRTIO0 + 1 || KERNEL <= v < TOP ensures Second(Top(v)) in KernelNodes() && Third(Top(v), Mid(v)) in KernelNodes() {
      KernelIndex(v);
    }
  }

  lemma KernelIndex(v: nat)
    requires PLIC <= v < VIRTIO0 + 1 || KERNEL <= v < TOP
    ensures (Top(v) == 0 && 0x60 <= Mid(v) < 0x81) || (Top(v) == 2 && Mid(v) < 0x40)
  {
  }

  /** UART0, VIRTIO0, PLIC, kernel code, kernel data and RAM, in the order they are mapped. */
  ghost function KernelPieces(text: nat, f: nat -> Option<nat>): nat -> Option<nat>
    requires KERNEL < text < TOP
  {
    Extend(Extend(Extend(Extend(Extend(f, UART0, 1, PTE_R + PTE_W), VIRTIO0, 1, PTE_R + PTE_W), PLIC, PLIC_PAGES, PTE_R + PTE_W),
           KERNEL, text - KERNEL, PTE_R + PTE_X), text, TOP - text, PTE_R + PTE_W)
  }

  /** What the hardware makes of every address under the kernel's table: the devices, the data
      and the RAM can be loaded and stored, the code loaded and fetched, all at their own
      address and none from user mode; the rest faults. */
  ghost predicate KernelAccess(mem: Mem, root: nat, etext: nat) {
    forall va: nat :: va < MAXVA ==>
      if 0x0c00_0000 <= va < 0x1000_2000 || etext <= va < PHYSTOP then Allows(HwWalk(mem, root, va, 2), va, true, true, false, false)
      else if KERNBASE <= va < etext then Allows(HwWalk(mem, root, va, 2), va, true, false, true, false)
      else HwWalk(mem, root, va, 2) == Fault
  }

  /** The kernel's address space: a well-formed tree in the kernel's gigabytes, with exactly the
      kernel's mappings and the rights that go with them. */
  ghost predicate KernelSpace(mem: Mem, root: nat, text: nat) {
    && Tree(mem, root) && Mappings(mem, root) && KernelTops(mem, root) && KernelAccess(mem, root, PGSIZE * text)
    && forall v :: 0 <= v < VPNS ==> Lookup(mem, root, v) == KernelMap(text, v)
  }

  lemma KernelRights(mem: Mem, root: nat, etext: nat)
    requires Tree(mem, root) && Mappings(mem, root) && KERNBASE < etext < PHYSTOP && etext % PGSIZE == 0
    requires forall v :: 0 <= v < VPNS ==> Lookup(mem, root, v) == KernelMap(etext / PGSIZE, v)
    ensures KernelAccess(mem, root, etext)
  {
    forall va: nat | va < MAXVA
      ensures if 0x0c00_0000 <= va < 0x1000_2000 || etext <= va < PHYSTOP then Allows(HwWalk(mem, root, va, 2), va, true, true, false, false)
              else if KERNBASE <= va < etext then Allows(HwWalk(mem, root, va, 2), va, true, false, true, false)
              else HwWalk(mem, root, va, 2) == Fault
    {
      KernelRight(mem, root, etext, va);
    }
  }

  lemma KernelRight(mem: Mem, root: nat, etext: nat, va: nat)
    requires Tree(mem, root) && Mappings(mem, root) && KERNBASE < etext < PHYSTOP && etext % PGSIZE == 0 && va < MAXVA
    requires Lookup(mem, root, va / PGSIZE) == KernelMap(etext / PGSIZE, va / PGSIZE)
    ensures if 0x0c00_0000 <= va < 0x1000_2000 || etext <= va < PHYSTOP then Allows(HwWalk(mem, root, va, 2), va, true, true, false, false)
            else if KERNBASE <= va < etext then Allows(HwWalk(mem, root, va, 2), va, true, false, true, false)
            else HwWalk(mem, root, va, 2) == Fault
  {
    hide Tree, Mappings, Lookup, HwWalk, MakePte;
    HardwareAgrees(mem, root, va);
    var v := va / PGSIZE;
    if KernelMap(etext / PGSIZE, v).Some? {
      var perm := if KERNEL <= v < etext / PGSIZE then PTE_R + PTE_X else PTE_R + PTE_W;
      assert PGSIZE * v % PGSIZE == 0;
      MappedRights(mem, root, va, PGSIZE * v, perm);
    }
  }

  /** kvm_init: `None` is a panic. */
  method KvmInit(vm: Vm, etext: nat) returns (root: Option<nat>)
    requires Pages(vm.mem) && vm.PoolOk() && KERNBASE < etext < PHYSTOP && etext % PGSIZE == 0
    modifies vm
    ensures vm.PoolOk()
    ensures root.Some? ==>
              && Tree(vm.mem, root.value) && Mappings(vm.mem, root.value) && KernelTops(vm.mem, root.value)
              && KernelAccess(vm.mem, root.value, etext)
              && forall v :: 0 <= v < VPNS ==> Lookup(vm.mem, root.value, v) == KernelMap(etext / PGSIZE, v)
    ensures |old(vm.pool)| >= 100 ==> root.Some?
    ensures root.None? ==> vm.pool == []
  {
    hide Stocked, KernelNodes;
    KernelNodesAre();
    if vm.pool == [] { return None; }
    var kpgtbl := vm.pool[0];
    FreshRoot(vm.mem, kpgtbl);
    vm.mem := vm.mem[kpgtbl := ZeroTable()];
    vm.pool := vm.pool[1..];
    Enough(vm, kpgtbl);
    var ok := MapKernel(vm, kpgtbl, etext / PGSIZE, v => None);
    if !ok { return None; }
    root := Some(kpgtbl);
  }

  lemma Enough(vm: Vm, root: nat)
    requires |KernelNodes()| == 99
    ensures |vm.pool| >= 99 ==> Stocked(vm, root, KernelNodes())
  {
  }

  lemma PiecesAreMap(mem: Mem, root: nat, text: nat, f: nat -> Option<nat>)
    requires KERNEL < text < TOP && (forall v :: f(v) == None) && Space(mem, root, KernelPieces(text, f))
    ensures forall v :: 0 <= v < VPNS ==> Lookup(mem, root, v) == KernelMap(text, v)
  {
    hide Lookup, MakePte;
    var g := KernelPieces(text, f);
    forall v: nat ensures g(v) == KernelMap(text, v) { }
  }

  lemma PiecesRights(mem: Mem, root: nat, text: nat, f: nat -> Option<nat>)
    requires KERNEL < text < TOP && (forall v :: f(v) == None) && Space(mem, root, KernelPieces(text, f))
    ensures KernelSpace(mem, root, text)
  {
    hide Lookup, KernelPieces, KernelAccess, KernelMap;
    PiecesAreMap(mem, root, text, f);
    assert PGSIZE * text / PGSIZE == text && PGSIZE * text % PGSIZE == 0;
    KernelRights(mem, root, PGSIZE * text);
  }

  // ---- the first user address space ----

  /** memcpy of the first eight top-level entries of the kernel's table. */
  function ShareTop(mem: Mem, kroot: nat, pgd: nat): Mem
    requires kroot in mem && pgd in mem && |mem[kroot]| == ENTRIES && |mem[pgd]| == ENTRIES
  {
    mem[pgd := mem[kroot][..8] + mem[pgd][8..]]
  }

  /** `pgd` is a zeroed page outside the kernel's tree, and the kernel uses only its
      first and third gigabyte. */
  ghost predicate UserReady(mem: Mem, kroot: nat, pgd: nat) {
    && Tree(mem, kroot) && Mappings(mem, kroot) && KernelTops(mem, kroot)
    && pgd in mem && mem[pgd] == ZeroTable() && forall n :: At(mem, kroot, n) != Some(pgd)
  }

  lemma ShareAt(mem: Mem, kroot: nat, pgd: nat, n: Node)
    requires UserReady(mem, kroot, pgd)
    ensures kroot in mem && At(ShareTop(mem, kroot, pgd), kroot, n) == At(mem, kroot, n)
    ensures At(ShareTop(mem, kroot, pgd), pgd, n) == if n.Root? then Some(pgd) else At(mem, kroot, n)
  {
    assert At(mem, kroot, Root) == Some(kroot);
    if !n.Root? {
      assert At(mem, kroot, Second(n.i)) != Some(pgd);
      assert At(mem, kroot, Second(n.i)).Some? ==> n.i < 8;
    }
  }

  lemma ShareTree(mem: Mem, kroot: nat, pgd: nat)
    requires UserReady(mem, kroot, pgd)
    ensures kroot in mem
    ensures var mem' := ShareTop(mem, kroot, pgd);
            && Tree(mem', kroot) && Mappings(mem', kroot) && Tree(mem', pgd) && Mappings(mem', pgd)
            && (forall v :: Lookup(mem', kroot, v) == Lookup(mem, kroot, v))
            && (forall v :: Lookup(mem', pgd, v) == Lookup(mem, kroot, v))
            && (forall n :: At(mem', kroot, n) == At(mem, kroot, n))
            && (forall n :: At(mem', pgd, n) == if n.Root? then Some(pgd) else At(mem, kroot, n))
  {
    assert At(mem, kroot, Root) == Some(kroot);
    var mem' := ShareTop(mem, kroot, pgd);
    forall n ensures At(mem', kroot, n) == At(mem, kroot, n) && At(mem', pgd, n) == if n.Root? then Some(pgd) else At(mem, kroot, n) {
      ShareAt(mem, kroot, pgd, n);
    }
    OtherTree(mem, mem', kroot);
    forall n: Node | At(mem', pgd, n).Some? ensures At(mem', pgd, n).value in mem' { }
    forall n: Node | At(mem', pgd, n).Some? && !n.Third? ensures Pointers(mem'[At(mem', pgd, n).value]) { }
    forall v ensures Lookup(mem', pgd, v) == Lookup(mem, kroot, v) {
      assert At(mem', pgd, Third(Top(v), Mid(v))) == At(mem, kroot, Third(Top(v), Mid(v)));
    }
  }

  /** A user mapping in a gigabyte the kernel does not use leaves the kernel's tree alone. */
  lemma KernelUntouched(mem0: Mem, mem: Mem, kroot: nat, pgd: nat, vpn: nat)
    requires Tree(mem0, kroot) && Tree(mem0, pgd) && RangeFrame(mem0, mem, pgd, vpn, 1)
    requires forall n :: At(mem0, kroot, n) != Some(pgd)
    requires At(mem0, pgd, Second(Top(vpn))).None?
    ensures Tree(mem, kroot) && (forall v :: Lookup(mem, kroot, v) == Lookup(mem0, kroot, v)) && (forall n :: At(mem, kroot, n) == At(mem0, kroot, n))
    ensures Mappings(mem0, kroot) ==> Mappings(mem, kroot)
  {
    forall n | At(mem0, kroot, n).Some? ensures mem[At(mem0, kroot, n).value] == mem0[At(mem0, kroot, n).value] {
      assert OffRange(mem0, pgd, vpn, 1, At(mem0, kroot, n).value);
    }
    OtherTree(mem0, mem, kroot);
  }

  /** The user's view: text and stack pages over the kernel's mappings. */
  ghost predicate UserMaps(mem0: Mem, kroot: nat, mem: Mem, pgd: nat, text: Option<nat>, stack: Option<nat>) {
    forall v :: 0 <= v < VPNS ==>
      Lookup(mem, pgd, v) ==
      if v == 0x20_0000 && text.Some? then Some(MakePte(text.value, PTE_R + PTE_X + PTE_U))
      else if v == 0x1F_FFFE && stack.Some? then Some(MakePte(stack.value, PTE_R + PTE_W + PTE_U))
      else Lookup(mem0, kroot, v)
  }

  /** The tables on the way to a page. */
  ghost function Path(vpn: nat): set<Node> { {Second(Top(vpn)), Third(Top(vpn), Mid(vpn))} }

  lemma PathCovers(vpn: nat)
    ensures Covers(Path(vpn), vpn, 1)
  {
  }

  /** Without a table nothing is mapped. */
  lemma NoTables(mem: Mem, mem': Mem, pgd: nat, vpn: nat, perm: nat)
    requires At(mem, pgd, Second(Top(vpn))).None? && |Present(mem', pgd, Path(vpn))| == |Present(mem, pgd, Path(vpn))|
    requires vpn < VPNS
    ensures !RangeMapped(mem, mem', pgd, vpn, 1, 0, perm)
  {
    hide MakePte, Top, Mid, Low;
    assert Present(mem, pgd, Path(vpn)) == {};
    assert Present(mem', pgd, Path(vpn)) == {};
    assert Third(Top(vpn), Mid(vpn)) !in Present(mem', pgd, Path(vpn));
    assert Lookup(mem', pgd, vpn).None?;
  }

  /** One page mapped for the user; the result is `Some` page on success.  A missing page is
      not noticed: page 0 is mapped instead, which fails for want of tables. */
  method MapUser(vm: Vm, kroot: nat, pgd: nat, vpn: nat, perm: nat, ghost nodes: set<Node>) returns (page: Option<nat>)
    requires Tree(vm.mem, kroot) && Tree(vm.mem, pgd) && vm.PoolOk() && perm < 1024 && vpn < VPNS
    requires (forall n :: At(vm.mem, kroot, n) != Some(pgd)) && At(vm.mem, pgd, Second(Top(vpn))).None?
    requires forall i :: 0 <= i < |vm.pool| ==> vm.pool[i] < 0x100_0000_0000_0000
    modifies vm
    ensures vm.PoolOk() && Tree(vm.mem, pgd) && Tree(vm.mem, kroot)
    ensures Mappings(old(vm.mem), pgd) && GoodPerm(perm) ==> Mappings(vm.mem, pgd)
    ensures Mappings(old(vm.mem), kroot) ==> Mappings(vm.mem, kroot)
    ensures forall i :: 0 <= i < |vm.pool| ==> vm.pool[i] < 0x100_0000_0000_0000
    ensures forall v :: Lookup(vm.mem, kroot, v) == Lookup(old(vm.mem), kroot, v)
    ensures forall n :: At(vm.mem, kroot, n) == At(old(vm.mem), kroot, n)
    ensures forall n: Node :: n.Second? && n.i != Top(vpn) ==> At(vm.mem, pgd, n) == At(old(vm.mem), pgd, n)
    ensures page.Some? ==> Lookup(old(vm.mem), pgd, vpn).None? && page.value in old(vm.pool) && page.value % PGSIZE == 0
    ensures forall v :: 0 <= v < VPNS ==>
              Lookup(vm.mem, pgd, v) == if v == vpn && page.Some? then Some(MakePte(page.value, perm)) else Lookup(old(vm.mem), pgd, v)
    ensures page.None? ==> vm.pool == []
    ensures Covers(nodes, vpn, 1) && |old(vm.pool)| + |Present(old(vm.mem), pgd, nodes)| > |nodes| ==>
              page.Some? && |vm.pool| + |Present(vm.mem, pgd, nodes)| == |old(vm.pool)| + |Present(old(vm.mem), pgd, nodes)| - 1
  {
    hide At, MakePte, Top, Tree, RangeFrame, RangeMapped, Present, Covers, Lookup, Mappings, GoodPerm;
    PresentFew(vm.mem, pgd, nodes);
    ghost var before, stock := vm.mem, vm.pool;
    var mem := 0;
    if vm.pool != [] {
      mem := vm.pool[0];
      vm.pool := vm.pool[1..];
    }
    NotYet(before, pgd, vpn);
    PageStart(vpn);
    PathCovers(vpn);
    var r, done := vm.MapPages(pgd, PGSIZE * vpn, mem, PGSIZE, perm, if stock == [] then Path(vpn) else nodes);
    if stock == [] { NoTables(before, vm.mem, pgd, vpn, perm); }
    assert r.Mapped? ==> done == 1;
    assert !r.Mapped? ==> done == 0;
    KernelUntouched(before, vm.mem, kroot, pgd, vpn);
    FrameTree(before, vm.mem, pgd, vpn, 1);
    OtherTops(before, vm.mem, pgd, vpn);
    page := if r.Mapped? then Some(mem) else None;
    OnePage(before, vm.mem, pgd, vpn, page, mem, perm);
  }

  lemma OnePage(mem0: Mem, mem: Mem, pgd: nat, vpn: nat, page: Option<nat>, pa: nat, perm: nat)
    requires RangeMapped(mem0, mem, pgd, vpn, if page.Some? then 1 else 0, pa, perm) && (page.Some? ==> page.value == pa)
    ensures forall v :: 0 <= v < VPNS ==>
              Lookup(mem, pgd, v) == if v == vpn && page.Some? then Some(MakePte(page.value, perm)) else Lookup(mem0, pgd, v)
  {
    hide Lookup, MakePte;
    assert PGSIZE * (vpn - vpn) == 0;
  }

  lemma PageStart(vpn: nat)
    ensures PGSIZE * vpn / PGSIZE == vpn && PGSIZE * vpn % PGSIZE == 0
  {
  }

  lemma PresentFew(mem: Mem, root: nat, nodes: set<Node>)
    ensures |Present(mem, root, nodes)| <= |nodes|
  {
    hide At;
    assert nodes == Present(mem, root, nodes) + (nodes - Present(mem, root, nodes));
  }

  lemma NotYet(mem: Mem, pgd: nat, vpn: nat)
    requires At(mem, pgd, Second(Top(vpn))).None?
    ensures Lookup(mem, pgd, vpn).None?
  {
    assert At(mem, pgd, Third(Top(vpn), Mid(vpn))).None?;
  }

  lemma OtherTops(mem0: Mem, mem: Mem, pgd: nat, vpn: nat)
    requires RangeFrame(mem0, mem, pgd, vpn, 1)
    ensures forall n: Node :: n.Second? && n.i != Top(vpn) ==> At(mem, pgd, n) == At(mem0, pgd, n)
  {
    forall n: Node | n.Second? && n.i != Top(vpn) ensures At(mem, pgd, n) == At(mem0, pgd, n) {
      assert At(mem, pgd, n) == At(mem0, pgd, n) || RangeNode(mem0, mem, pgd, vpn, 1, n);
    }
  }

  lemma UserTops()
    ensures Top(0x20_0000) == 8 && Top(0x1F_FFFE) == 7
    ensures USER_TEXT == PGSIZE * 0x20_0000 && USER_STACK == PGSIZE * 0x1F_FFFE
  {
  }

  /** What the hardware makes of every address under the user's table: the text page can be
      loaded and fetched and the stack page loaded and stored from user mode; everything else
      is as under the kernel's table. */
  ghost predicate UserAccess(mem: Mem, kroot: nat, pgd: nat, text: Option<nat>, stack: Option<nat>) {
    forall va: nat :: va < MAXVA ==>
      if USER_TEXT <= va < USER_TEXT + PGSIZE && text.Some? then
        Allows(HwWalk(mem, pgd, va, 2), text.value + (va - USER_TEXT), true, false, true, true)
      else if USER_STACK <= va < USER_STACK + PGSIZE && stack.Some? then
        Allows(HwWalk(mem, pgd, va, 2), stack.value + (va - USER_STACK), true, true, false, true)
      else HwWalk(mem, pgd, va, 2) == HwWalk(mem, kroot, va, 2)
  }

  lemma UserRights(mem0: Mem, mem: Mem, kroot: nat, pgd: nat, text: Option<nat>, stack: Option<nat>)
    requires Tree(mem, kroot) && Mappings(mem, kroot) && Tree(mem, pgd) && Mappings(mem, pgd)
    requires (text.Some? ==> text.value % PGSIZE == 0) && (stack.Some? ==> stack.value % PGSIZE == 0)
    requires UserMaps(mem0, kroot, mem, pgd, text, stack) && forall v :: Lookup(mem, kroot, v) == Lookup(mem0, kroot, v)
    ensures UserAccess(mem, kroot, pgd, text, stack)
  {
    hide Tree, Mappings, Lookup, HwWalk, MakePte, Allows;
    forall va: nat | va < MAXVA
      ensures if USER_TEXT <= va < USER_TEXT + PGSIZE && text.Some? then
                Allows(HwWalk(mem, pgd, va, 2), text.value + (va - USER_TEXT), true, false, true, true)
              else if USER_STACK <= va < USER_STACK + PGSIZE && stack.Some? then
                Allows(HwWalk(mem, pgd, va, 2), stack.value + (va - USER_STACK), true, true, false, true)
              else HwWalk(mem, pgd, va, 2) == HwWalk(mem, kroot, va, 2)
    {
      if USER_TEXT <= va < USER_TEXT + PGSIZE && text.Some? {
        MappedRights(mem, pgd, va, text.value, PTE_R + PTE_X + PTE_U);
      } else if USER_STACK <= va < USER_STACK + PGSIZE && stack.Some? {
        MappedRights(mem, pgd, va, stack.value, PTE_R + PTE_W + PTE_U);
      } else {
        HardwareAgrees(mem, pgd, va);
        HardwareAgrees(mem, kroot, va);
      }
    }
  }

  /** User mode reaches nothing but the two user pages, and what the kernel reaches through its
      own table it reaches through the user's. */
  lemma UserConfined(mem: Mem, kroot: nat, pgd: nat, etext: nat, text: Option<nat>, stack: Option<nat>, va: nat)
    requires KERNBASE < etext < PHYSTOP && va < MAXVA
    requires KernelAccess(mem, kroot, etext) && UserAccess(mem, kroot, pgd, text, stack)
    ensures var t := HwWalk(mem, pgd, va, 2);
            && (t.Hit? && HasU(t.flags) <==>
                (USER_TEXT <= va < USER_TEXT + PGSIZE && text.Some?) || (USER_STACK <= va < USER_STACK + PGSIZE && stack.Some?))
            && (HwWalk(mem, kroot, va, 2).Hit? ==> t == HwWalk(mem, kroot, va, 2))
  {
    hide HwWalk, HasR, HasW, HasX, HasU;
  }

  /** uvmfirst: sharing the kernel's tables and mapping a text and a stack page changes no
      kernel translation, and whatever the kernel maps the user table maps identically. */
  method UvmFirst(vm: Vm, kroot: nat, pgd: nat) returns (text: Option<nat>, stack: Option<nat>)
    requires UserReady(vm.mem, kroot, pgd) && vm.PoolOk()
    requires forall i :: 0 <= i < |vm.pool| ==> vm.pool[i] < 0x100_0000_0000_0000
    modifies vm
    ensures Tree(vm.mem, kroot) && Tree(vm.mem, pgd)
    ensures forall v :: Lookup(vm.mem, kroot, v) == Lookup(old(vm.mem), kroot, v)
    ensures UserAccess(vm.mem, kroot, pgd, text, stack)
    ensures forall va: nat :: va < MAXVA ==> HwWalk(vm.mem, kroot, va, 2) == HwWalk(old(vm.mem), kroot, va, 2)
    ensures UserMaps(old(vm.mem), kroot, vm.mem, pgd, text, stack)
    ensures forall v :: 0 <= v < VPNS && Lookup(vm.mem, kroot, v).Some? ==> Lookup(vm.mem, pgd, v) == Lookup(vm.mem, kroot, v)
    ensures |old(vm.pool)| >= 6 ==> text.Some? && stack.Some?
    ensures text.None? || stack.None? ==> vm.pool == []
  {
    hide Lookup, Tree, Top, MakePte, Mappings, KernelTops, Present, UserNodes, GoodPerm, UserAccess, HwWalk;
    ghost var mem0 := vm.mem;
    ReadyPages(mem0, kroot, pgd);
    ShareTree(mem0, kroot, pgd);
    UserTops();
    KernelNotHigh(mem0, kroot);
    vm.mem := ShareTop(vm.mem, kroot, pgd);
    UserCovered();
    UserPerms();
    text := MapUser(vm, kroot, pgd, 0x20_0000, PTE_R + PTE_X + PTE_U, UserNodes());
    PresentFew(vm.mem, pgd, UserNodes());
    stack := MapUser(vm, kroot, pgd, 0x1F_FFFE, PTE_R + PTE_W + PTE_U, UserNodes());
    UserRights(mem0, vm.mem, kroot, pgd, text, stack);
    SameWalks(mem0, vm.mem, kroot);
  }

  lemma ReadyPages(mem: Mem, kroot: nat, pgd: nat)
    requires UserReady(mem, kroot, pgd)
    ensures Pages(mem) && kroot in mem && Pages(ShareTop(mem, kroot, pgd)) && ShareTop(mem, kroot, pgd).Keys == mem.Keys
  {
    hide Pointers;
    assert At(mem, kroot, Root) == Some(kroot);
  }

  /** Where the flat views agree, the hardware's walks do. */
  lemma SameWalks(mem0: Mem, mem: Mem, root: nat)
    requires Tree(mem0, root) && Mappings(mem0, root) && Tree(mem, root) && Mappings(mem, root)
    requires forall v :: Lookup(mem, root, v) == Lookup(mem0, root, v)
    ensures forall va: nat :: va < MAXVA ==> HwWalk(mem, root, va, 2) == HwWalk(mem0, root, va, 2)
  {
    hide Tree, Mappings, Lookup, HwWalk;
    forall va: nat | va < MAXVA ensures HwWalk(mem, root, va, 2) == HwWalk(mem0, root, va, 2) {
      HardwareAgrees(mem0, root, va);
      HardwareAgrees(mem, root, va);
    }
  }

  lemma UserPerms()
    ensures GoodPerm(PTE_R + PTE_X + PTE_U) && GoodPerm(PTE_R + PTE_W + PTE_U)
  {
  }

  /** The four tables of the user's text and stack page. */
  ghost function UserNodes(): set<Node> { {Second(8), Third(8, 0), Second(7), Third(7, 511)} }

  lemma UserCovered()
    ensures Covers(UserNodes(), 0x20_0000, 1) && Covers(UserNodes(), 0x1F_FFFE, 1) && |UserNodes()| == 4
  {
  }

  /** The kernel maps nothing in the gigabytes of the user's text and stack. */
  lemma KernelNotHigh(mem: Mem, kroot: nat)
    requires Tree(mem, kroot) && KernelTops(mem, kroot)
    ensures At(mem, kroot, Second(7)).None? && At(mem, kroot, Second(8)).None?
    ensures Lookup(mem, kroot, 0x20_0000).None? && Lookup(mem, kroot, 0x1F_FFFE).None?
  {
    UserTops();
    assert At(mem, kroot, Second(8)).None? && At(mem, kroot, Second(7)).None?;
    assert At(mem, kroot, Third(8, Mid(0x20_0000))).None? && At(mem, kroot, Third(7, Mid(0x1F_FFFE))).None?;
  }
}
