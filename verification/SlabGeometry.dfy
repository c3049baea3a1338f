/** Sizes, orders and counts of slabs. */
module SlabGeometry {
  import opened Basics
  import opened PowerOfTwo

  const MIN_OBJ: nat := 4
  const HEADER: nat := 48

  // ---- geometry ----

  lemma {:induction false} PowSplit(a: nat, b: nat)
    ensures Pow2(a + b) == Pow2(a) * Pow2(b)
    decreases a
  {
    if a > 0 {
      PowSplit(a - 1, b);
      Twice(Pow2(a - 1), Pow2(b));
    }
  }

  lemma Twice(x: nat, y: nat)
    ensures 2 * (x * y) == (2 * x) * y
  {
  }

  lemma Page()
    ensures Pow2(12) == PGSIZE && Pow2(15) == 32768 && Pow2(3) == 8 && Pow2(4) == 16 && Pow2(10) == 1024 && Pow2(16) == 65536
  {
  }

  /** calc_slab_order: the least order whose pages hold four objects of the given size. */
  method CalcSlabOrder(size: nat) returns (order: nat)
    ensures MIN_OBJ * size <= PGSIZE * Pow2(order)
    ensures order > 0 ==> MIN_OBJ * size > PGSIZE * Pow2(order - 1)
  {
    var require_size := size * MIN_OBJ;
    order := 0;
    var slab_size := PGSIZE;
    while require_size > slab_size
      invariant slab_size == PGSIZE * Pow2(order) && (order > 0 ==> require_size > PGSIZE * Pow2(order - 1))
      decreases require_size - slab_size
    {
      order := order + 1;
      slab_size := slab_size * 2;
    }
  }

  /** Rounding the size up afterwards does not cost an object: the order is computed from
      the unrounded size, yet four rounded objects fit, exactly filling the pages. */
  lemma FourFit(size: nat, rounded: nat, order: nat)
    requires 0 < size && LeastPower(size, rounded) && MIN_OBJ * size <= PGSIZE * Pow2(order)
    ensures rounded > 0 && Count(order, rounded) >= MIN_OBJ && Count(order, rounded) * rounded == PGSIZE * Pow2(order)
  {
    hide Pow2;
    var k: nat :| rounded == Pow2(k);
    Page();
    PowSplit(10, order);
    assert size <= Pow2(10 + order);
    assert rounded <= Pow2(10 + order);
    if k > 10 + order { PowMonotone(10 + order, k); }
    var rest := 10 + order - k;
    PowSplit(k, rest);
    assert PGSIZE * Pow2(order) == rounded * (4 * Pow2(rest));
    Quotient(rounded, 4 * Pow2(rest));
  }

  lemma Quotient(a: nat, b: nat)
    requires a > 0
    ensures a * b / a == b
  {
    var n := a * b;
    var q, r := n / a, n % a;
    assert n == a * q + r && a * (b - q) == r;
    MulLe(1, b - q, a);
    MulLe(b - q, -1, a);
  }

  lemma MulLe(x: int, y: int, c: nat)
    ensures x <= y ==> x * c <= y * c
  {
    if x <= y { assert y * c - x * c == (y - x) * c >= 0; }
  }

  /** The free stack behind the header fits the slab's page exactly for sizes from 9 on. */
  lemma StackFits(size: nat, rounded: nat, order: nat)
    requires 0 < size && LeastPower(size, rounded) && MIN_OBJ * size <= PGSIZE * Pow2(order)
    requires order > 0 ==> MIN_OBJ * size > PGSIZE * Pow2(order - 1)
    ensures rounded > 0 && (HEADER + 8 * Count(order, rounded) <= PGSIZE <==> size >= 9)
  {
    hide Pow2, Count;
    Page();
    FourFit(size, rounded, order);
    var count := Count(order, rounded);
    var k: nat :| rounded == Pow2(k);
    if size >= 9 {
      if k <= 3 { if k < 3 { PowMonotone(k, 3); } }
      if order == 0 { FewObjects(count, rounded, order); } else { FewLarge(count, rounded, order, size); }
    } else {
      assert rounded <= 8;
      ManySmall(count, rounded, order);
    }
  }

  lemma FewObjects(count: nat, rounded: nat, order: nat)
    requires order == 0 && count * rounded == PGSIZE * Pow2(order) && rounded >= 9
    ensures count <= 455
  {
    assert Pow2(0) == 1;
    MulLe(456, count, rounded);
  }

  lemma FewLarge(count: nat, rounded: nat, order: nat, size: nat)
    requires order > 0 && count * rounded == PGSIZE * Pow2(order) && MIN_OBJ * size > PGSIZE * Pow2(order - 1) && size <= rounded
    ensures count < 8
  {
    assert Pow2(order) == 2 * Pow2(order - 1);
    MulLe(8, count, rounded);
  }

  lemma ManySmall(count: nat, rounded: nat, order: nat)
    requires 0 < rounded <= 8 && count * rounded == PGSIZE * Pow2(order)
    ensures count >= 512
  {
    MulLe(count, 511, rounded);
  }

  /** The arithmetic of kmem_cache_create for a 16-bit size; the rounded size is stored in 16
      bits too, and from 32769 on it is 0: the division that follows has no result. */
  method Geometry(size: nat) returns (ok: bool, rounded: nat, order: nat, count: nat)
    requires size < TWO16
    ensures ok <==> size <= 32768
    ensures ok ==> LeastPower(size, rounded) && 0 < rounded <= 32768 && count * rounded == PGSIZE * Pow2(order)
    ensures ok ==> count >= MIN_OBJ && (HEADER + 8 * count <= PGSIZE <==> size >= 9)
    ensures order == 0 <==> size <= 1024
    ensures !ok ==> rounded == 0
  {
    hide Pow2, LeastPower, Count;
    Page();
    Bounds(size);
    var up := NextPowerOf2(size);
    rounded := up % TWO16;
    order := CalcSlabOrder(size);
    OrderZero(size, order);
    if size == 0 { ZeroSize(up, order); } else { Fits16(size, up); }
    if rounded == 0 { return false, rounded, order, 0; }
    if size > 0 {
      FourFit(size, rounded, order);
      StackFits(size, rounded, order);
    }
    ok, count := true, Count(order, rounded);
  }

  lemma ZeroSize(up: nat, order: nat)
    requires LeastPower(0, up) && order == 0
    ensures up == 1 && Count(order, up) == PGSIZE && Pow2(order) == 1
  {
    assert Pow2(0) == 1;
    assert up <= 1;
  }

  /** (1 << order) * PGSIZE / size */
  function Count(order: nat, size: nat): nat
    requires size > 0
  {
    PGSIZE * Pow2(order) / size
  }

  lemma Bounds(size: nat)
    requires size < TWO16
    ensures size <= Pow2(63) && size < Pow2(64)
  {
    hide Pow2;
    Page();
    PowMonotone(16, 63);
    PowMonotone(16, 64);
  }

  lemma OrderZero(size: nat, order: nat)
    requires MIN_OBJ * size <= PGSIZE * Pow2(order) && (order > 0 ==> MIN_OBJ * size > PGSIZE * Pow2(order - 1))
    ensures order == 0 <==> size <= 1024
  {
    assert Pow2(0) == 1;
    if order > 0 { assert Pow2(order - 1) >= 1; }
  }

  /** Up to 32768 the rounded size survives the cast to 16 bits; from there on it is 0. */
  lemma Fits16(size: nat, up: nat)
    requires 0 < size < 65536 && LeastPower(size, up)
    ensures up % 65536 == up && 0 < up <= 32768 <==> size <= 32768
    ensures size > 32768 ==> up % 65536 == 0
  {
    hide Pow2;
    Page();
    assert size <= 32768 ==> size <= Pow2(15);
    assert size <= Pow2(16);
    var k: nat :| up == Pow2(k);
    if k < 15 { PowMonotone(k, 15); }
    if k > 16 { PowMonotone(16, k); }
    assert size > 32768 ==> k == 16;
  }
}
