/** Object caches over single-page slabs: what is handed out, and what is left. */
module SlabCache {
  import opened Basics
  import opened PowerOfTwo
  import opened SlabGeometry

  /** struct slab: the slots behind the header and the number of objects in use; the free
      stack is slots[inuse..] with its top at index `inuse`. */
  datatype Slab = Slab(slots: seq<nat>, inuse: nat)

  function Pop(s: Slab): Slab { s.(inuse := s.inuse + 1) }

  function Push(s: Slab, obj: nat): Slab
    requires 0 < s.inuse <= |s.slots|
  {
    Slab(s.slots[s.inuse - 1 := obj], s.inuse - 1)
  }

  /** Object size and objects per page. */
  datatype Geo = Geo(size: nat, count: nat) {
    predicate Ok() { size > 0 && count >= MIN_OBJ && size * count == PGSIZE }
  }

  /** `o` is one of the objects of the slab whose page is `base`. */
  ghost predicate IsObj(g: Geo, base: nat, o: nat) {
    exists i: nat :: i < g.count && o == Obj(g, base, i)
  }

  function Obj(g: Geo, base: nat, i: nat): nat { base + i * g.size }

  /** The page an object lies on: get_page_struct. */
  function PageOf(o: nat): nat { o - o % PGSIZE }

  lemma ObjLess(g: Geo, base: nat, i: nat, j: nat)
    requires i < j
    ensures Obj(g, base, i) + g.size <= Obj(g, base, j)
  {
    MulLe(i + 1, j, g.size);
  }

  lemma ObjBounds(g: Geo, base: nat, i: nat)
    requires g.Ok() && i < g.count
    ensures base <= Obj(g, base, i) && Obj(g, base, i) + g.size <= base + PGSIZE
  {
    MulLe(i + 1, g.count, g.size);
  }

  lemma ObjPage(g: Geo, base: nat, o: nat)
    requires g.Ok() && base % PGSIZE == 0 && IsObj(g, base, o)
    ensures PageOf(o) == base
  {
    var i: nat :| i < g.count && o == Obj(g, base, i);
    ObjBounds(g, base, i);
    assert (o - base) < PGSIZE && (base + (o - base)) % PGSIZE == o - base;
  }

  /** Two objects are the same or share no byte. */
  lemma ObjApart(g: Geo, b: nat, c: nat, o: nat, p: nat)
    requires g.Ok() && b % PGSIZE == 0 && c % PGSIZE == 0 && IsObj(g, b, o) && IsObj(g, c, p) && o != p
    ensures o + g.size <= p || p + g.size <= o
  {
    var i: nat :| i < g.count && o == Obj(g, b, i);
    var j: nat :| j < g.count && p == Obj(g, c, j);
    hide Obj, IsObj;
    ObjBounds(g, b, i);
    ObjBounds(g, c, j);
    if b == c {
      if i < j { ObjLess(g, b, i, j); } else if j < i { ObjLess(g, b, j, i); }
    } else {
      PagesApart(b, c);
    }
  }

  lemma PagesApart(b: nat, c: nat)
    requires b % PGSIZE == 0 && c % PGSIZE == 0 && b != c
    ensures b + PGSIZE <= c || c + PGSIZE <= b
  {
  }

  // ---- one slab ----

  ghost predicate InStack(s: Slab, o: nat) { exists k :: s.inuse <= k < |s.slots| && s.slots[k] == o }

  /** The free stack holds objects of this slab, none twice. */
  ghost predicate SlabOk(g: Geo, base: nat, s: Slab) {
    && |s.slots| == g.count && s.inuse <= g.count && base % PGSIZE == 0
    && (forall k :: s.inuse <= k < g.count ==> IsObj(g, base, s.slots[k]))
    && (forall k, m :: s.inuse <= k < m < g.count ==> s.slots[k] != s.slots[m])
  }

  /** An object of this slab that is not on its free stack. */
  ghost predicate LiveIn(g: Geo, base: nat, s: Slab, o: nat) { IsObj(g, base, o) && !InStack(s, o) }

  lemma PopOk(g: Geo, base: nat, s: Slab, o: nat)
    requires SlabOk(g, base, s) && s.inuse < g.count
    ensures SlabOk(g, base, Pop(s)) && !LiveIn(g, base, s, s.slots[s.inuse])
    ensures LiveIn(g, base, Pop(s), o) <==> LiveIn(g, base, s, o) || o == s.slots[s.inuse]
  {
    hide IsObj;
    assert InStack(s, s.slots[s.inuse]);
    assert InStack(s, o) && o != s.slots[s.inuse] ==> InStack(Pop(s), o);
  }

  lemma PushOk(g: Geo, base: nat, s: Slab, obj: nat, o: nat)
    requires SlabOk(g, base, s) && LiveIn(g, base, s, obj) && s.inuse > 0
    ensures SlabOk(g, base, Push(s, obj))
    ensures LiveIn(g, base, Push(s, obj), o) <==> LiveIn(g, base, s, o) && o != obj
  {
    hide IsObj;
    var u := Push(s, obj);
    assert u.slots[u.inuse] == obj;
    assert InStack(s, o) ==> InStack(u, o) by {
      if InStack(s, o) {
        var k :| s.inuse <= k < |s.slots| && s.slots[k] == o;
        assert u.slots[k] == o;
      }
    }
  }

  // ---- live plus free is everything ----

  ghost function Objects(g: Geo, base: nat, n: nat): set<nat> {
    if n == 0 then {} else Objects(g, base, n - 1) + {Obj(g, base, n - 1)}
  }

  lemma {:induction false} ObjectsAre(g: Geo, base: nat, n: nat, o: nat)
    ensures o in Objects(g, base, n) <==> exists i: nat :: i < n && o == Obj(g, base, i)
    decreases n
  {
    if n > 0 { ObjectsAre(g, base, n - 1, o); }
  }

  lemma {:induction false} ObjectsCount(g: Geo, base: nat, n: nat)
    requires g.size > 0
    ensures |Objects(g, base, n)| == n
    decreases n
  {
    hide Obj;
    if n > 0 {
      ObjectsCount(g, base, n - 1);
      ObjectsAre(g, base, n - 1, Obj(g, base, n - 1));
      forall i: nat | i < n - 1 ensures Obj(g, base, i) != Obj(g, base, n - 1) { ObjLess(g, base, i, n - 1); }
    }
  }

  ghost function StackFrom(s: Slab, k: nat): set<nat>
    decreases |s.slots| - k
  {
    if k >= |s.slots| then {} else {s.slots[k]} + StackFrom(s, k + 1)
  }

  lemma {:induction false} StackAre(s: Slab, k: nat, o: nat)
    ensures o in StackFrom(s, k) <==> exists m :: k <= m < |s.slots| && s.slots[m] == o
    decreases |s.slots| - k
  {
    if k < |s.slots| { StackAre(s, k + 1, o); }
  }

  lemma {:induction false} StackCount(s: Slab, k: nat)
    requires k <= |s.slots| && forall a, b :: k <= a < b < |s.slots| ==> s.slots[a] != s.slots[b]
    ensures |StackFrom(s, k)| == |s.slots| - k
    decreases |s.slots| - k
  {
    if k < |s.slots| {
      StackCount(s, k + 1);
      StackAre(s, k + 1, s.slots[k]);
    }
  }

  /** Conservation in one slab: live objects and free stack partition the objects, and
      `inuse` counts the live ones. */
  lemma Conserved(g: Geo, base: nat, s: Slab)
    requires g.Ok() && SlabOk(g, base, s)
    ensures StackFrom(s, s.inuse) <= Objects(g, base, g.count) && |StackFrom(s, s.inuse)| == g.count - s.inuse
    ensures forall o :: o in Objects(g, base, g.count) - StackFrom(s, s.inuse) <==> LiveIn(g, base, s, o)
    ensures |Objects(g, base, g.count) - StackFrom(s, s.inuse)| == s.inuse
  {
    var all, stack := Objects(g, base, g.count), StackFrom(s, s.inuse);
    forall o ensures (o in all <==> IsObj(g, base, o)) && (o in stack <==> InStack(s, o)) {
      ObjectsAre(g, base, g.count, o);
      StackAre(s, s.inuse, o);
    }
    hide IsObj, Objects, StackFrom;
    ObjectsCount(g, base, g.count);
    StackCount(s, s.inuse);
    assert stack <= all;
    assert all == (all - stack) + stack;
  }

  // ---- a cache ----

  /** The three kinds of slab: one per CPU, partly used, fully used. */
  ghost predicate Lists(slabs: map<nat, Slab>, cpu: seq<nat>, part: seq<nat>, full: seq<nat>) {
    && NoDup(cpu) && NoDup(part) && NoDup(full)
    && (forall b :: b in cpu ==> b in slabs && b !in part && b !in full)
    && (forall b :: b in part ==> b in slabs && b !in full) && (forall b :: b in full ==> b in slabs)
    && (forall b :: b in slabs ==> b in cpu || b in part || b in full)
  }

  ghost predicate Filling(g: Geo, slabs: map<nat, Slab>, part: seq<nat>, full: seq<nat>) {
    && (forall b :: b in part && b in slabs ==> slabs[b].inuse < g.count)
    && (forall b :: b in full && b in slabs ==> slabs[b].inuse == g.count)
  }

  ghost predicate SlabsOk(g: Geo, slabs: map<nat, Slab>) {
    forall b :: b in slabs ==> SlabOk(g, b, slabs[b])
  }

  /** The objects handed out and not given back. */
  ghost predicate LiveIs(g: Geo, slabs: map<nat, Slab>, live: set<nat>) {
    forall o :: o in live <==> PageOf(o) in slabs && LiveIn(g, PageOf(o), slabs[PageOf(o)], o)
  }

  /** Handing out the top of slab `b`. */
  lemma PopLive(g: Geo, slabs: map<nat, Slab>, live: set<nat>, b: nat)
    requires g.Ok() && SlabsOk(g, slabs) && LiveIs(g, slabs, live) && b in slabs && slabs[b].inuse < |slabs[b].slots|
    ensures var o := slabs[b].slots[slabs[b].inuse]; var slabs' := slabs[b := Pop(slabs[b])];
            SlabsOk(g, slabs') && LiveIs(g, slabs', live + {o}) && o !in live && PageOf(o) == b
  {
    hide IsObj, LiveIn, SlabOk, PageOf;
    var s := slabs[b];
    var o := s.slots[s.inuse];
    var slabs' := slabs[b := Pop(s)];
    TopPage(g, b, s);
    forall p: nat ensures p in live + {o} <==> PageOf(p) in slabs' && LiveIn(g, PageOf(p), slabs'[PageOf(p)], p) {
      if PageOf(p) == b { PopOkAt(g, b, s, p); }
    }
    PopOkAt(g, b, s, o);
  }

  lemma PopOkAt(g: Geo, b: nat, s: Slab, p: nat)
    requires SlabOk(g, b, s) && s.inuse < |s.slots|
    ensures SlabOk(g, b, Pop(s)) && !LiveIn(g, b, s, s.slots[s.inuse]) && (LiveIn(g, b, Pop(s), p) <==> LiveIn(g, b, s, p) || p == s.slots[s.inuse])
  {
    hide IsObj, LiveIn;
    PopOk(g, b, s, p);
  }

  lemma TopPage(g: Geo, b: nat, s: Slab)
    requires g.Ok() && SlabOk(g, b, s) && s.inuse < |s.slots|
    ensures PageOf(s.slots[s.inuse]) == b
  {
    hide IsObj;
    ObjPage(g, b, s.slots[s.inuse]);
  }

  /** Giving `obj` back to its slab. */
  lemma PushLive(g: Geo, slabs: map<nat, Slab>, live: set<nat>, obj: nat)
    requires g.Ok() && SlabsOk(g, slabs) && LiveIs(g, slabs, live) && obj in live
    ensures PageOf(obj) in slabs && var s := slabs[PageOf(obj)];
            0 < s.inuse <= |s.slots| && SlabsOk(g, slabs[PageOf(obj) := Push(s, obj)]) && LiveIs(g, slabs[PageOf(obj) := Push(s, obj)], live - {obj})
  {
    hide IsObj, LiveIn, SlabOk, PageOf;
    var b := PageOf(obj);
    var s := slabs[b];
    UsedSlab(g, b, s, obj);
    PushOk(g, b, s, obj, obj);
    var slabs' := slabs[b := Push(s, obj)];
    forall p: nat ensures p in live - {obj} <==> PageOf(p) in slabs' && LiveIn(g, PageOf(p), slabs'[PageOf(p)], p) {
      if PageOf(p) == b { PushOk(g, b, s, obj, p); }
    }
  }

  /** A slab with a live object is in use. */
  lemma UsedSlab(g: Geo, b: nat, s: Slab, obj: nat)
    requires g.Ok() && SlabOk(g, b, s) && LiveIn(g, b, s, obj)
    ensures 0 < s.inuse <= |s.slots|
  {
    Conserved(g, b, s);
    assert obj in Objects(g, b, g.count) - StackFrom(s, s.inuse);
  }

  /** The slots slab_create writes. */
  function FreshSlots(g: Geo, base: nat): (r: seq<nat>) { seq(g.count, i requires 0 <= i < g.count => Obj(g, base, i)) }

  lemma FreshOk(g: Geo, base: nat, o: nat)
    requires g.Ok() && base % PGSIZE == 0
    ensures SlabOk(g, base, Slab(FreshSlots(g, base), 0)) && !LiveIn(g, base, Slab(FreshSlots(g, base), 0), o)
  {
    var s := Slab(FreshSlots(g, base), 0);
    forall k, m | 0 <= k < m < g.count ensures s.slots[k] != s.slots[m] { MulLe(k + 1, m, g.size); }
    if IsObj(g, base, o) {
      var i: nat :| i < g.count && o == Obj(g, base, i);
      assert s.slots[i] == o;
    }
  }

  lemma FreshLive(g: Geo, slabs: map<nat, Slab>, live: set<nat>, base: nat)
    requires g.Ok() && SlabsOk(g, slabs) && LiveIs(g, slabs, live) && base !in slabs && base % PGSIZE == 0
    ensures var slabs' := slabs[base := Slab(FreshSlots(g, base), 0)]; SlabsOk(g, slabs') && LiveIs(g, slabs', live)
  {
    hide IsObj, LiveIn, SlabOk, PageOf;
    var slabs' := slabs[base := Slab(FreshSlots(g, base), 0)];
    FreshOk(g, base, 0);
    forall p: nat ensures p in live <==> PageOf(p) in slabs' && LiveIn(g, PageOf(p), slabs'[PageOf(p)], p) { FreshOk(g, base, p); }
  }

  /** list_del */
  function Without(l: seq<nat>, b: nat): (r: seq<nat>) {
    if l == [] then [] else if l[0] == b then l[1..] else [l[0]] + Without(l[1..], b)
  }

  lemma {:induction false} WithoutIs(l: seq<nat>, b: nat)
    requires NoDup(l)
    ensures NoDup(Without(l, b)) && forall x :: x in Without(l, b) <==> x in l && x != b
  {
    if l != [] {
      assert l == [l[0]] + l[1..] && NoDup(l[1..]) && l[0] !in l[1..];
      WithoutIs(l[1..], b);
      if l[0] != b { NoDupCons(l[0], Without(l[1..], b)); }
    }
  }

  lemma NoDupCons(x: nat, l: seq<nat>)
    requires NoDup(l) && x !in l
    ensures NoDup([x] + l) && forall y :: y in [x] + l <==> y == x || y in l
  {
  }

  /** list_add_head of a slab that is on no list. */
  lemma ToPart(slabs: map<nat, Slab>, cpu: seq<nat>, part: seq<nat>, full: seq<nat>, page: nat, s: Slab)
    requires Lists(slabs, cpu, part, full) && page !in slabs
    ensures Lists(slabs[page := s], cpu, [page] + part, full)
  {
    NoDupCons(page, part);
  }

  /** The head of the part list moves to the full list. */
  lemma ToFull(slabs: map<nat, Slab>, cpu: seq<nat>, part: seq<nat>, full: seq<nat>)
    requires Lists(slabs, cpu, part, full) && part != []
    ensures Lists(slabs, cpu, part[1..], [part[0]] + full) && part[0] !in part[1..] && part[0] !in full && part[0] in slabs
  {
    assert part == [part[0]] + part[1..];
    NoDupCons(part[0], full);
  }

  /** A full slab moves to the head of the part list. */
  lemma ToPartBack(slabs: map<nat, Slab>, cpu: seq<nat>, part: seq<nat>, full: seq<nat>, b: nat)
    requires Lists(slabs, cpu, part, full) && b in full
    ensures Lists(slabs, cpu, [b] + part, Without(full, b)) && forall x :: x in Without(full, b) <==> x in full && x != b
  {
    WithoutIs(full, b);
    NoDupCons(b, part);
  }

  /** Changing a slab in place leaves the lists alone. */
  lemma SameLists(slabs: map<nat, Slab>, cpu: seq<nat>, part: seq<nat>, full: seq<nat>, b: nat, s: Slab)
    requires Lists(slabs, cpu, part, full) && b in slabs
    ensures Lists(slabs[b := s], cpu, part, full) && (b in cpu ==> b !in part && b !in full) && (b in part ==> b !in full)
    ensures b in cpu || b in part || b in full
  {
  }

  /** slab_create: the loop that fills the free stack. */
  method SlabCreate(g: Geo, base: nat) returns (s: Slab)
    ensures s == Slab(FreshSlots(g, base), 0)
  {
    var slots: seq<nat> := [];
    var i := 0;
    while i < g.count
      invariant i <= g.count && |slots| == i && forall k :: 0 <= k < i ==> slots[k] == Obj(g, base, k)
    {
      slots := slots + [Obj(g, base, i)];
      i := i + 1;
    }
    s := Slab(slots, 0);
  }

  class Cache {
    const geo: Geo
    var slabs: map<nat, Slab>
    var cpu: seq<nat>
    var part: seq<nat>
    var full: seq<nat>
    ghost var live: set<nat>

    ghost predicate Valid()
      reads this
    {
      && geo.Ok() && |cpu| == NCPU && Lists(slabs, cpu, part, full) && Filling(geo, slabs, part, full)
      && SlabsOk(geo, slabs) && LiveIs(geo, slabs, live)
    }

    /** kmem_cache_create with its per-CPU slabs, for sizes whose slabs are one page. */
    constructor Create(size: nat, pages: seq<nat>)
      requires 9 <= size <= 1024 && |pages| == NCPU && NoDup(pages) && forall i :: 0 <= i < NCPU ==> pages[i] % PGSIZE == 0
      ensures Valid() && live == {} && part == [] && full == [] && cpu == pages
      ensures LeastPower(size, geo.size)
      ensures (forall b :: b in slabs <==> b in pages) && forall b :: b in slabs ==> slabs[b] == Slab(FreshSlots(geo, b), 0)
    {
      hide SlabOk, LiveIn, Pow2;
      var ok, rounded, order, count := Geometry(size);
      var g := Geo(rounded, count);
      OnePage(order, rounded, count);
      var m: map<nat, Slab> := map[];
      var i := 0;
      while i < NCPU
        invariant i <= NCPU && SlabsOk(g, m) && LiveIs(g, m, {}) && forall b :: b in m <==> b in pages[..i]
        invariant forall b :: b in m ==> m[b] == Slab(FreshSlots(g, b), 0)
      {
        var s := SlabCreate(g, pages[i]);
        FreshLive(g, m, {}, pages[i]);
        m := m[pages[i] := s];
        i := i + 1;
      }
      geo := g;
      slabs := m;
      cpu := pages;
      part := [];
      full := [];
      live := {};
    }

    /** kmem_cache_alloc on CPU `id`; `page` is what the page allocator would give.  Without
        a page a new slab is a null pointer, and linking it in stops the kernel: None. */
    method Alloc(id: nat, page: Option<nat>) returns (r: Option<nat>)
      requires Valid() && id < NCPU && (page.Some? ==> page.value !in slabs && page.value % PGSIZE == 0)
      modifies this
      ensures Valid() && cpu == old(cpu)
      ensures r.None? <==> page.None? && old(part) == [] && old(slabs[cpu[id]].inuse) == geo.count
      ensures r.None? ==> slabs == old(slabs) && live == old(live) && part == old(part) && full == old(full)
      ensures r.Some? ==> r.value !in old(live) && live == old(live) + {r.value}
      ensures old(slabs[cpu[id]].inuse) < geo.count ==>
                && old(|slabs[cpu[id]].slots|) == geo.count && r == Some(old(slabs[cpu[id]].slots[slabs[cpu[id]].inuse])) && PageOf(r.value) == cpu[id]
                && slabs == old(slabs)[cpu[id] := Pop(old(slabs[cpu[id]]))] && part == old(part) && full == old(full)
      ensures old(slabs[cpu[id]].inuse) == geo.count && old(part) != [] ==>
                var b := old(part)[0];
                && b in old(slabs) && old(slabs[b].inuse) < geo.count == old(|slabs[b].slots|)
                && r == Some(old(slabs[b].slots[slabs[b].inuse])) && PageOf(r.value) == b && slabs == old(slabs)[b := Pop(old(slabs[b]))]
                && if old(slabs[b].inuse) + 1 == geo.count then part == old(part)[1..] && full == [b] + old(full)
                   else part == old(part) && full == old(full)
      ensures old(slabs[cpu[id]].inuse) == geo.count && old(part) == [] && page.Some? ==>
                && r == Some(page.value) && slabs == old(slabs)[page.value := Slab(FreshSlots(geo, page.value), 1)]
                && part == [page.value] && full == old(full)
    {
      hide SlabOk, LiveIn, IsObj, PageOf, Lists, SlabsOk, LiveIs;
      var b := cpu[id];
      OnList(slabs, cpu, part, full, b);
      SlabBounds(geo, slabs, b);
      if slabs[b].inuse < geo.count {
        PopLive(geo, slabs, live, b);
        SameLists(slabs, cpu, part, full, b, Pop(slabs[b]));
        var addr := slabs[b].slots[slabs[b].inuse];
        slabs := slabs[b := Pop(slabs[b])];
        live := live + {addr};
        return Some(addr);
      }
      if |part| == 0 {
        if page.None? { return None; }
        var addr := AddSlab(page.value);
        return Some(addr);
      }
      b := part[0];
      OnList(slabs, cpu, part, full, b);
      SlabBounds(geo, slabs, b);
      PopLive(geo, slabs, live, b);
      SameLists(slabs, cpu, part, full, b, Pop(slabs[b]));
      var addr := slabs[b].slots[slabs[b].inuse];
      slabs := slabs[b := Pop(slabs[b])];
      live := live + {addr};
      if !(slabs[b].inuse < geo.count) {
        ToFull(slabs, cpu, part, full);
        part := part[1..];
        full := [b] + full;
      }
      r := Some(addr);
    }

    /** The branch of kmem_cache_alloc that adds a slab. */
    method AddSlab(page: nat) returns (addr: nat)
      requires Valid() && part == [] && page !in slabs && page % PGSIZE == 0
      modifies this
      ensures Valid() && cpu == old(cpu) && addr !in old(live) && live == old(live) + {addr}
      ensures addr == page && slabs == old(slabs)[page := Slab(FreshSlots(geo, page), 1)] && part == [page] && full == old(full)
    {
      hide SlabOk, LiveIn, IsObj, PageOf, Lists, SlabsOk, LiveIs;
      var s := SlabCreate(geo, page);
      FreshLive(geo, slabs, live, page);
      ToPart(slabs, cpu, part, full, page, s);
      slabs := slabs[page := s];
      part := [page] + part;
      PopLive(geo, slabs, live, page);
      SameLists(slabs, cpu, part, full, page, Pop(s));
      addr := s.slots[s.inuse];
      slabs := slabs[page := Pop(s)];
      live := live + {addr};
    }

    /** kmem_cache_free */
    method Free(obj: nat)
      requires Valid() && obj in live
      modifies this
      ensures Valid() && live == old(live) - {obj} && cpu == old(cpu)
      ensures var b := PageOf(obj);
              && b in old(slabs) && 0 < old(slabs[b].inuse) <= old(|slabs[b].slots|) == geo.count
              && slabs == old(slabs)[b := Push(old(slabs[b]), obj)]
              && if b !in cpu && old(slabs[b].inuse) == geo.count then part == [b] + old(part) && full == Without(old(full), b)
                 else part == old(part) && full == old(full)
    {
      hide SlabOk, LiveIn, IsObj, PageOf, Lists, SlabsOk, LiveIs;
      var b := PageOf(obj);
      PushLive(geo, slabs, live, obj);
      SlabBounds(geo, slabs, b);
      SameLists(slabs, cpu, part, full, b, slabs[b]);
      live := live - {obj};
      if b in cpu {
        SameLists(slabs, cpu, part, full, b, Push(slabs[b], obj));
        slabs := slabs[b := Push(slabs[b], obj)];
        return;
      }
      if !(slabs[b].inuse < geo.count) {
        ToPartBack(slabs, cpu, part, full, b);
        full := Without(full, b);
        part := [b] + part;
      }
      SameLists(slabs, cpu, part, full, b, Push(slabs[b], obj));
      slabs := slabs[b := Push(slabs[b], obj)];
    }
  }

  /** An object that goes back to a CPU's own slab is the next one that CPU gets. */
  method FreeThenAlloc(c: Cache, obj: nat, id: nat, page: Option<nat>) returns (r: Option<nat>)
    requires c.Valid() && obj in c.live && id < NCPU && PageOf(obj) == c.cpu[id]
    requires page.Some? ==> page.value !in c.slabs && page.value % PGSIZE == 0
    modifies c
    ensures r == Some(obj) && c.Valid() && c.live == old(c.live)
  {
    hide SlabOk, LiveIn, IsObj, PageOf, Lists, SlabsOk, LiveIs;
    c.Free(obj);
    r := c.Alloc(id, page);
  }

  /** A new cache hands out the first object of the CPU's own page. */
  method FirstAlloc(size: nat, pages: seq<nat>, id: nat) returns (c: Cache, r: Option<nat>)
    requires 9 <= size <= 1024 && |pages| == NCPU && NoDup(pages) && id < NCPU && forall i :: 0 <= i < NCPU ==> pages[i] % PGSIZE == 0
    ensures r == Some(pages[id]) && c.Valid() && c.live == {pages[id]}
  {
    hide SlabOk, LiveIn, IsObj, Lists, SlabsOk, LiveIs;
    c := new Cache.Create(size, pages);
    r := c.Alloc(id, None);
  }

  lemma OnList(slabs: map<nat, Slab>, cpu: seq<nat>, part: seq<nat>, full: seq<nat>, b: nat)
    requires Lists(slabs, cpu, part, full) && (b in cpu || b in part)
    ensures b in slabs
  {
  }

  lemma SlabBounds(g: Geo, slabs: map<nat, Slab>, b: nat)
    requires SlabsOk(g, slabs) && b in slabs
    ensures |slabs[b].slots| == g.count && slabs[b].inuse <= g.count
  {
  }

  lemma OnePage(order: nat, rounded: nat, count: nat)
    requires order == 0 && count * rounded == PGSIZE * Pow2(order) && count >= MIN_OBJ
    ensures Geo(rounded, count).Ok()
  {
    assert Pow2(0) == 1;
  }

  /** Any two live objects of a cache are disjoint byte ranges. */
  lemma LiveApart(g: Geo, slabs: map<nat, Slab>, live: set<nat>, o: nat, p: nat)
    requires g.Ok() && SlabsOk(g, slabs) && LiveIs(g, slabs, live) && o in live && p in live && o != p
    ensures o + g.size <= p || p + g.size <= o
  {
    hide IsObj;
    ObjApart(g, PageOf(o), PageOf(p), o, p);
  }
}
