/** Sv39 page tables: the three-level radix tree of kernel/vm.c against a flat map from
    virtual page numbers to page-table entries.  Shifts and masks are written as
    division and remainder by powers of two. */
module PageTable {
  import opened Basics

  const ENTRIES: nat := 512
  const MAXVA: nat := 0x40_0000_0000
  const TWO64: nat := 0x1_0000_0000_0000_0000

  const PTE_V: nat := 1
  const PTE_R: nat := 2
  const PTE_W: nat := 4
  const PTE_X: nat := 8
  const PTE_U: nat := 16

  // ---- page-table entries (riscv.h) ----

  function PA2PTE(pa: nat): nat { pa / 4096 * 1024 }
  function PTE2PA(pte: nat): nat { pte / 1024 * 4096 }
  function PTE_FLAGS(pte: nat): nat { pte % 1024 }

  predicate HasV(pte: nat) { PTE_FLAGS(pte) % 2 == 1 }
  predicate HasR(pte: nat) { PTE_FLAGS(pte) / 2 % 2 == 1 }
  predicate HasW(pte: nat) { PTE_FLAGS(pte) / 4 % 2 == 1 }
  predicate HasX(pte: nat) { PTE_FLAGS(pte) / 8 % 2 == 1 }
  predicate HasU(pte: nat) { PTE_FLAGS(pte) / 16 % 2 == 1 }

  /** PA2PTE(pa) | perm | PTE_V, the fields being disjoint. */
  function MakePte(pa: nat, perm: nat): nat {
    PA2PTE(pa) + WithV(perm)
  }

  /** The permissions mappages callers use: below the PPN field, readable or executable,
      and not the reserved write-only encoding. */
  predicate GoodPerm(perm: nat) {
    perm < 1024 && (HasR(perm) || HasX(perm)) && (HasW(perm) ==> HasR(perm))
  }

  /** perm | PTE_V */
  function WithV(perm: nat): nat { if perm % 2 == 1 then perm else perm + 1 }

  lemma WithVFields(perm: nat)
    requires perm < 1024
    ensures WithV(perm) < 1024 && HasV(WithV(perm))
    ensures HasR(WithV(perm)) == HasR(perm) && HasW(WithV(perm)) == HasW(perm) && HasX(WithV(perm)) == HasX(perm)
    ensures HasU(WithV(perm)) == HasU(perm)
  {
    var q := WithV(perm);
    assert q / 2 == perm / 2;
    assert q / 4 == q / 2 / 2 && perm / 4 == perm / 2 / 2;
    assert q / 8 == q / 2 / 4 && perm / 8 == perm / 2 / 4;
    assert q / 16 == q / 2 / 8 && perm / 16 == perm / 2 / 8;
  }

  lemma PteFields(pa: nat, perm: nat)
    requires pa % 4096 == 0 && perm < 1024
    ensures PTE2PA(MakePte(pa, perm)) == pa && PTE_FLAGS(MakePte(pa, perm)) == WithV(perm) && HasV(MakePte(pa, perm))
  {
    assert MakePte(pa, perm) == pa / 4096 * 1024 + WithV(perm);
  }

  /** PX(level, va) in terms of the virtual page number. */
  function Top(vpn: nat): nat { vpn / 0x4_0000 % 512 }
  function Mid(vpn: nat): nat { vpn / 512 % 512 }
  function Low(vpn: nat): nat { vpn % 512 }

  lemma IndexInjective(a: nat, b: nat)
    requires a < 0x800_0000 && b < 0x800_0000 && Top(a) == Top(b) && Mid(a) == Mid(b) && Low(a) == Low(b)
    ensures a == b
  {
    hide Top, Mid, Low;
    Digits(a);
    Digits(b);
  }

  lemma Digits(v: nat)
    requires v < 0x800_0000
    ensures v == (Top(v) * 512 + Mid(v)) * 512 + Low(v)
  {
    var h := v / 512;
    assert h / 512 == v / 0x4_0000;
    assert h == h / 512 * 512 + h % 512;
    assert h / 512 < 512;
  }

  // ---- the tree in memory ----

  /** Page tables by physical address. */
  type Mem = map<nat, seq<nat>>

  predicate Pages(mem: Mem) {
    forall p :: p in mem ==> |mem[p]| == ENTRIES && p % PGSIZE == 0
  }

  datatype Node = Root | Second(i: nat) | Third(i: nat, j: nat)

  /** The table an entry points to. */
  function Child(mem: Mem, p: Option<nat>, i: nat): Option<nat> {
    if p.Some? && p.value in mem && i < |mem[p.value]| && HasV(mem[p.value][i]) then Some(PTE2PA(mem[p.value][i])) else None
  }

  /** The page that holds a node of the tree under `root`. */
  function At(mem: Mem, root: nat, n: Node): Option<nat> {
    match n
    case Root => Some(root)
    case Second(i) => Child(mem, Some(root), i)
    case Third(i, j) => Child(mem, Child(mem, Some(root), i), j)
  }

  /** An upper entry is invalid or a bare pointer. */
  predicate Pointers(t: seq<nat>) {
    forall i :: 0 <= i < |t| && HasV(t[i]) ==> PTE_FLAGS(t[i]) == PTE_V
  }

  /** A last-level entry is invalid or maps a page. */
  predicate Leaves(t: seq<nat>) {
    forall i :: 0 <= i < |t| && HasV(t[i]) ==> GoodPerm(PTE_FLAGS(t[i]))
  }

  /** Every node is a page of its own and upper entries are pointers. */
  ghost predicate Tree(mem: Mem, root: nat) {
    && Pages(mem)
    && (forall n :: At(mem, root, n).Some? ==> At(mem, root, n).value in mem)
    && (forall n, m :: At(mem, root, n).Some? && At(mem, root, n) == At(mem, root, m) ==> n == m)
    && (forall n :: At(mem, root, n).Some? && !n.Third? ==> Pointers(mem[At(mem, root, n).value]))
  }

  /** Every last-level entry is invalid or a mapping the hardware accepts. */
  ghost predicate Mappings(mem: Mem, root: nat) {
    forall n: Node :: n.Third? && At(mem, root, n).Some? && At(mem, root, n).value in mem ==> Leaves(mem[At(mem, root, n).value])
  }

  /** The flat view: the entry that maps virtual page `vpn`. */
  function Lookup(mem: Mem, root: nat, vpn: nat): Option<nat> {
    var p := At(mem, root, Third(Top(vpn), Mid(vpn)));
    if p.Some? && p.value in mem && Low(vpn) < |mem[p.value]| && HasV(mem[p.value][Low(vpn)])
    then Some(mem[p.value][Low(vpn)]) else None
  }

  // ---- the hardware's walk (RISC-V privileged architecture, section 4.3.2) ----

  datatype Translation = Fault | Hit(pa: nat, flags: nat)

  function HwIndex(va: nat, level: nat): nat
    requires level < 3
  {
    if level == 2 then va / 0x4000_0000 % 512 else if level == 1 then va / 0x20_0000 % 512 else va / 0x1000 % 512
  }

  function LevelSize(level: nat): nat
    requires level < 3
  {
    if level == 2 then 0x4000_0000 else if level == 1 then 0x20_0000 else 0x1000
  }

  function HwWalk(mem: Mem, a: nat, va: nat, level: nat): Translation
    requires level < 3
    decreases level
  {
    if a !in mem || HwIndex(va, level) >= |mem[a]| then Fault
    else
      var pte := mem[a][HwIndex(va, level)];
      if !HasV(pte) || (!HasR(pte) && HasW(pte)) then Fault
      else if HasR(pte) || HasX(pte) then
        if PTE2PA(pte) % LevelSize(level) != 0 then Fault
        else Hit(PTE2PA(pte) + va % LevelSize(level), PTE_FLAGS(pte))
      else if level == 0 then Fault
      else HwWalk(mem, PTE2PA(pte), va, level - 1)
  }

  lemma IndexesAgree(va: nat)
    ensures HwIndex(va, 2) == Top(va / PGSIZE) && HwIndex(va, 1) == Mid(va / PGSIZE) && HwIndex(va, 0) == Low(va / PGSIZE)
  {
  }

  /** For every virtual address the hardware and the flat view agree. */
  lemma HardwareAgrees(mem: Mem, root: nat, va: nat)
    requires Tree(mem, root) && Mappings(mem, root) && va < MAXVA
    ensures HwWalk(mem, root, va, 2) ==
            match Lookup(mem, root, va / PGSIZE)
            case None => Fault
            case Some(e) => Hit(PTE2PA(e) + va % PGSIZE, PTE_FLAGS(e))
  {
    var i, j, k := Top(va / PGSIZE), Mid(va / PGSIZE), Low(va / PGSIZE);
    IndexesAgree(va);
    HardwareWalk(mem, root, va, i, j, k);
  }

  /** The translation reaches `pa` and allows exactly these accesses: loads, stores, fetches,
      and whether user mode may make them. */
  predicate Allows(t: Translation, pa: nat, r: bool, w: bool, x: bool, u: bool) {
    t.Hit? && t.pa == pa && HasR(t.flags) == r && HasW(t.flags) == w && HasX(t.flags) == x && HasU(t.flags) == u
  }

  /** The rights of a page are those of the permission it was mapped with. */
  lemma MappedRights(mem: Mem, root: nat, va: nat, pa: nat, perm: nat)
    requires Tree(mem, root) && Mappings(mem, root) && va < MAXVA && pa % PGSIZE == 0 && perm < 1024
    requires Lookup(mem, root, va / PGSIZE) == Some(MakePte(pa, perm))
    ensures Allows(HwWalk(mem, root, va, 2), pa + va % PGSIZE, HasR(perm), HasW(perm), HasX(perm), HasU(perm))
  {
    hide Tree, Mappings, Lookup, HwWalk, MakePte;
    HardwareAgrees(mem, root, va);
    PteFields(pa, perm);
    WithVFields(perm);
  }

  lemma HwPointer(mem: Mem, a: nat, va: nat, level: nat, i: nat)
    requires 0 < level < 3 && a in mem && i == HwIndex(va, level) < |mem[a]| && Pointers(mem[a])
    ensures HwWalk(mem, a, va, level) == if HasV(mem[a][i]) then HwWalk(mem, PTE2PA(mem[a][i]), va, level - 1) else Fault
  {
  }

  lemma LeafFields(e: nat)
    requires GoodPerm(PTE_FLAGS(e))
    ensures (HasR(e) || HasX(e)) && (HasW(e) ==> HasR(e))
  {
    assert PTE_FLAGS(PTE_FLAGS(e)) == PTE_FLAGS(e);
  }

  lemma HwLeaf(mem: Mem, a: nat, va: nat, k: nat)
    requires a in mem && k == HwIndex(va, 0) < |mem[a]| && Leaves(mem[a])
    ensures HwWalk(mem, a, va, 0) == if HasV(mem[a][k]) then Hit(PTE2PA(mem[a][k]) + va % PGSIZE, PTE_FLAGS(mem[a][k])) else Fault
  {
    if HasV(mem[a][k]) { LeafFields(mem[a][k]); }
  }

  lemma HardwareWalk(mem: Mem, root: nat, va: nat, i: nat, j: nat, k: nat)
    requires Tree(mem, root) && Mappings(mem, root) && i < 512 && j < 512 && k < 512
    requires HwIndex(va, 2) == i && HwIndex(va, 1) == j && HwIndex(va, 0) == k
    ensures HwWalk(mem, root, va, 2) ==
            var p := At(mem, root, Third(i, j));
            if p.Some? && p.value in mem && k < |mem[p.value]| && HasV(mem[p.value][k])
            then Hit(PTE2PA(mem[p.value][k]) + va % PGSIZE, PTE_FLAGS(mem[p.value][k])) else Fault
  {
    assert At(mem, root, Root) == Some(root);
    HwPointer(mem, root, va, 2, i);
    var p := At(mem, root, Second(i));
    if p.Some? {
      HwPointer(mem, p.value, va, 1, j);
      var q := At(mem, root, Third(i, j));
      if q.Some? { HwLeaf(mem, q.value, va, k); }
    }
  }

  // ---- the three writes the kernel makes to tables ----

  function ZeroTable(): (t: seq<nat>) {
    seq(ENTRIES, (i: nat) => 0 as nat)
  }

  /** memset a fresh page and point entry `i` of table `p` at it. */
  function Install(mem: Mem, p: nat, i: nat, q: nat): Mem
    requires p in mem && i < |mem[p]|
  {
    var zeroed: seq<nat> := ZeroTable();
    var pointing: seq<nat> := mem[p][i := MakePte(q, 0)];
    mem[q := zeroed][p := pointing]
  }

  /** Write entry `i` of table `p`. */
  function Write(mem: Mem, p: nat, i: nat, e: nat): Mem
    requires p in mem && i < |mem[p]|
  {
    var written: seq<nat> := mem[p][i := e];
    mem[p := written]
  }

  /** The node that entry `i` of node `n` leads to. */
  function Below(n: Node, i: nat): Node
    requires !n.Third?
  {
    if n.Root? then Second(i) else Third(n.i, i)
  }

  /** Entry `i` of node `n` is free and `q` is a fresh page. */
  ghost predicate CanInstall(mem: Mem, root: nat, n: Node, i: nat, q: nat) {
    && Tree(mem, root) && q !in mem && q % PGSIZE == 0 && i < ENTRIES && !n.Third?
    && At(mem, root, n).Some? && !HasV(mem[At(mem, root, n).value][i])
  }

  /** Hanging a fresh table under a node adds that node and nothing else. */
  lemma InstallAt(mem: Mem, root: nat, n: Node, i: nat, q: nat, m: Node)
    requires CanInstall(mem, root, n, i, q)
    ensures At(Install(mem, At(mem, root, n).value, i, q), root, m) == if m == Below(n, i) then Some(q) else At(mem, root, m)
  {
    var p := At(mem, root, n).value;
    PteFields(q, 0);
    assert At(mem, root, Root) == Some(root);
    if m.Second? || m.Third? {
      var s := At(mem, root, Second(m.i));
      assert s.Some? && p == s.value ==> n == Second(m.i);
    }
  }

  lemma InstallTree(mem: Mem, root: nat, n: Node, i: nat, q: nat)
    requires CanInstall(mem, root, n, i, q)
    ensures var mem' := Install(mem, At(mem, root, n).value, i, q);
            Tree(mem', root) && (Mappings(mem, root) ==> Mappings(mem', root))
  {
    var p := At(mem, root, n).value;
    var mem' := Install(mem, p, i, q);
    PteFields(q, 0);
    forall m ensures At(mem', root, m) == if m == Below(n, i) then Some(q) else At(mem, root, m) {
      InstallAt(mem, root, n, i, q, m);
    }
    forall m | At(mem', root, m).Some? ensures At(mem', root, m).value in mem' { }
    forall m | At(mem', root, m).Some? && !m.Third? ensures Pointers(mem'[At(mem', root, m).value]) { }
    if Mappings(mem, root) {
      forall m: Node | m.Third? && At(mem', root, m).Some? ensures Leaves(mem'[At(mem', root, m).value]) {
        assert m == Below(n, i) || At(mem', root, m).value != p;
      }
    }
  }

  lemma InstallLookup(mem: Mem, root: nat, n: Node, i: nat, q: nat, vpn: nat)
    requires CanInstall(mem, root, n, i, q)
    ensures Lookup(Install(mem, At(mem, root, n).value, i, q), root, vpn) == Lookup(mem, root, vpn)
  {
    var m := Third(Top(vpn), Mid(vpn));
    InstallAt(mem, root, n, i, q, m);
    assert At(mem, root, Below(n, i)).None?;
    assert At(mem, root, m).Some? ==> At(mem, root, m) != At(mem, root, n);
  }

  /** Writing a last-level entry moves no node and changes one page's mapping. */
  lemma WriteAt(mem: Mem, root: nat, i: nat, j: nat, k: nat, e: nat, m: Node)
    requires Tree(mem, root) && k < ENTRIES && At(mem, root, Third(i, j)).Some?
    ensures At(Write(mem, At(mem, root, Third(i, j)).value, k, e), root, m) == At(mem, root, m)
  {
    assert At(mem, root, Root) == Some(root);
    var p := At(mem, root, Third(i, j)).value;
    if m.Second? || m.Third? {
      var s := At(mem, root, Second(m.i));
      assert s.Some? ==> s.value != p;
    }
    assert p != root;
  }

  lemma WriteTree(mem: Mem, root: nat, i: nat, j: nat, k: nat, e: nat)
    requires Tree(mem, root) && k < ENTRIES && At(mem, root, Third(i, j)).Some?
    ensures var mem' := Write(mem, At(mem, root, Third(i, j)).value, k, e);
            Tree(mem', root) && (Mappings(mem, root) && GoodPerm(PTE_FLAGS(e)) ==> Mappings(mem', root))
  {
    var p := At(mem, root, Third(i, j)).value;
    var mem' := Write(mem, p, k, e);
    forall m ensures At(mem', root, m) == At(mem, root, m) {
      WriteAt(mem, root, i, j, k, e, m);
    }
    forall m | At(mem', root, m).Some? && !m.Third? ensures Pointers(mem'[At(mem', root, m).value]) { }
  }

  lemma WriteLookup(mem: Mem, root: nat, vpn: nat, e: nat, v: nat)
    requires Tree(mem, root) && HasV(e) && vpn < 0x800_0000 && v < 0x800_0000
    requires At(mem, root, Third(Top(vpn), Mid(vpn))).Some?
    ensures var p := At(mem, root, Third(Top(vpn), Mid(vpn))).value;
            Lookup(Write(mem, p, Low(vpn), e), root, v) == if v == vpn then Some(e) else Lookup(mem, root, v)
  {
    WriteAt(mem, root, Top(vpn), Mid(vpn), Low(vpn), e, Third(Top(v), Mid(v)));
    if Third(Top(v), Mid(v)) == Third(Top(vpn), Mid(vpn)) && Low(v) == Low(vpn) { IndexInjective(v, vpn); }
  }

  /** A tree none of whose pages changed translates as before. */
  lemma OtherTree(mem: Mem, mem': Mem, root: nat)
    requires Tree(mem, root) && Pages(mem')
    requires forall n :: At(mem, root, n).Some? ==> At(mem, root, n).value in mem' && mem'[At(mem, root, n).value] == mem[At(mem, root, n).value]
    ensures Tree(mem', root) && (forall n :: At(mem', root, n) == At(mem, root, n)) && (forall v :: Lookup(mem', root, v) == Lookup(mem, root, v))
    ensures Mappings(mem, root) ==> Mappings(mem', root)
  {
    assert At(mem, root, Root) == Some(root);
    forall n ensures At(mem', root, n) == At(mem, root, n) {
      if !n.Root? { assert At(mem, root, Second(n.i)).Some? ==> At(mem, root, Second(n.i)).value in mem'; }
    }
    forall v ensures Lookup(mem', root, v) == Lookup(mem, root, v) {
      var m := Third(Top(v), Mid(v));
      assert At(mem', root, m) == At(mem, root, m);
    }
  }
}
