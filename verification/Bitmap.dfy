/** A 64-bit word, bit by bit. */
module Word64 {
  type Word = w: seq<bool> | |w| == 64 witness seq(64, i => false)

  const ZERO: Word := seq(64, i => false)
  const ALL_ONES: Word := seq(64, i => true)

  /** w & (1ULL << b) */
  predicate Test(w: Word, b: nat)
    requires b < 64
  {
    w[b]
  }

  /** w | (1ULL << b) */
  function WithBit(w: Word, b: nat): Word
    requires b < 64
  {
    w[b := true]
  }

  /** w & ~(1ULL << b) */
  function WithoutBit(w: Word, b: nat): Word
    requires b < 64
  {
    w[b := false]
  }
}

/** The bitmap allocator of lib/bitmap.c: 64-bit words scanned from a cursor, refining a
    set of free indices. */
module Bitmap {
  import opened Basics
  import opened Word64

  // ---- a sequence of words ----

  predicate Bit(words: seq<Word>, i: nat)
    requires i < 64 * |words|
  {
    Test(words[i / 64], i % 64)
  }

  /** Bits agree everywhere except at index `i`, where the new bit is `v`. */
  ghost predicate BitSet(words: seq<Word>, words': seq<Word>, i: nat, v: bool) {
    && |words'| == |words| && i < 64 * |words|
    && forall k: nat {:trigger Bit(words', k)} :: k < 64 * |words| ==> Bit(words', k) == (if k == i then v else Bit(words, k))
  }

  lemma SetBit(words: seq<Word>, i: nat)
    requires i < 64 * |words|
    ensures BitSet(words, words[i / 64 := WithBit(words[i / 64], i % 64)], i, true)
  {
    var words' := words[i / 64 := WithBit(words[i / 64], i % 64)];
    assert forall k: nat :: k < 64 * |words| && k / 64 == i / 64 && k % 64 == i % 64 ==> k == i;
  }

  lemma ClearBit(words: seq<Word>, i: nat)
    requires i < 64 * |words|
    ensures BitSet(words, words[i / 64 := WithoutBit(words[i / 64], i % 64)], i, false)
  {
    var words' := words[i / 64 := WithoutBit(words[i / 64], i % 64)];
    assert forall k: nat :: k < 64 * |words| && k / 64 == i / 64 && k % 64 == i % 64 ==> k == i;
  }

  /** Every bit in [lo, hi) is set. */
  ghost predicate AllSet(words: seq<Word>, lo: nat, hi: nat)
    requires hi <= 64 * |words|
  {
    forall k: nat :: lo <= k < hi ==> Bit(words, k)
  }

  /** The first clear bit in [lo, hi). */
  function FirstClear(words: seq<Word>, lo: nat, hi: nat): (r: Option<nat>)
    requires hi <= 64 * |words|
    decreases hi - lo
  {
    if lo >= hi then None else if !Bit(words, lo) then Some(lo) else FirstClear(words, lo + 1, hi)
  }

  lemma {:induction false} FirstClearIs(words: seq<Word>, lo: nat, hi: nat)
    requires hi <= 64 * |words|
    ensures FirstClear(words, lo, hi).None? ==> AllSet(words, lo, hi)
    ensures FirstClear(words, lo, hi).Some? ==>
              var r := FirstClear(words, lo, hi).value; lo <= r < hi && !Bit(words, r) && AllSet(words, lo, r)
    decreases hi - lo
  {
    if lo < hi && Bit(words, lo) { FirstClearIs(words, lo + 1, hi); }
  }

  lemma FirstClearFound(words: seq<Word>, lo: nat, hi: nat, r: nat)
    requires hi <= 64 * |words| && lo <= r < hi && !Bit(words, r) && AllSet(words, lo, r)
    ensures FirstClear(words, lo, hi) == Some(r)
  {
    FirstClearIs(words, lo, hi);
  }

  /** The free indices in [lo, hi). */
  ghost function Free(words: seq<Word>, lo: nat, hi: nat): set<nat>
    requires hi <= 64 * |words|
  {
    set k: nat | lo <= k < hi && !Bit(words, k)
  }

  // ---- the allocator as a value ----

  datatype Value = Value(words: seq<Word>, size: int, unused: int, allocation: int) {
    /** The words cover the bits and the cursor is not negative. */
    predicate Safe() {
      0 <= size && Scanned() <= 64 * |words| && 0 <= allocation
    }

    /** The number of bits the scan looks at. */
    function Scanned(): nat {
      if size <= 0 then 0 else (size + 63) / 64 * 64
    }

    /** Indices from `lo` on are managed: the count is exact and everything below the
        cursor is taken. */
    ghost predicate Managed(lo: nat) {
      && Safe() && lo <= allocation <= size + 1
      && AllSet(words, lo, if allocation <= size then allocation else size)
      && unused == |Free(words, lo, size)|
    }
  }

  /** bitmap_alloc */
  function Alloc(v: Value): (r: (int, Value))
    requires v.Safe()
  {
    FirstClearIs(v.words, v.allocation, v.Scanned());
    var first := FirstClear(v.words, v.allocation, v.Scanned());
    if v.unused == 0 || first.None? || first.value > v.size then (-1, v)
    else
      var i: int := first.value;
      (i, Value(v.words[i / 64 := WithBit(v.words[i / 64], i % 64)], v.size, v.unused - 1, i + 1))
  }

  /** bitmap_free */
  function Release(v: Value, index: int): (r: Value)
    requires v.Safe()
  {
    if index < 0 || index >= v.size then v
    else
      var cursor := if index < v.allocation then index else v.allocation;
      if Bit(v.words, index)
      then Value(v.words[index / 64 := WithoutBit(v.words[index / 64], index % 64)], v.size, v.unused + 1, cursor)
      else v.(allocation := cursor)
  }

  /** bitmap_reset_allo */
  function ResetCursor(v: Value, start: nat): Value
    requires v.Safe()
  {
    var r := Alloc(v.(allocation := start));
    AllocSafe(v.(allocation := start));
    Release(r.1, r.0)
  }

  lemma AllocSafe(v: Value)
    requires v.Safe()
    ensures Alloc(v).1.Safe() && Alloc(v).1.size == v.size && |Alloc(v).1.words| == |v.words| && Alloc(v).0 >= -1
  {
    FirstClearIs(v.words, v.allocation, v.Scanned());
  }

  // ---- what the allocator computes ----

  lemma FreeAfterSet(words: seq<Word>, words': seq<Word>, lo: nat, hi: nat, i: nat)
    requires hi <= 64 * |words| && BitSet(words, words', i, true)
    ensures Free(words', lo, hi) == Free(words, lo, hi) - {i}
  {
    assert forall k: nat :: k < 64 * |words| ==> Bit(words', k) == (k == i || Bit(words, k));
  }

  lemma FreeAfterClear(words: seq<Word>, words': seq<Word>, lo: nat, hi: nat, i: nat)
    requires lo <= i < hi <= 64 * |words| && BitSet(words, words', i, false)
    ensures Free(words', lo, hi) == Free(words, lo, hi) + {i}
  {
    assert forall k: nat :: k < 64 * |words| ==> Bit(words', k) == (k != i && Bit(words, k));
  }

  /** Allocation fails exactly when nothing is free and otherwise takes the least free
      index; nothing else changes. */
  lemma AllocLeast(v: Value, lo: nat)
    requires v.Managed(lo)
    ensures Free(v.words, lo, v.size) == {} <==> Alloc(v).0 == -1
    ensures Alloc(v).0 == -1 ==> Alloc(v).1 == v
    ensures Alloc(v).0 != -1 ==>
              && Alloc(v).0 in Free(v.words, lo, v.size)
              && (forall k :: k in Free(v.words, lo, v.size) ==> Alloc(v).0 <= k)
              && BitSet(v.words, Alloc(v).1.words, Alloc(v).0, true)
              && Free(Alloc(v).1.words, lo, v.size) == Free(v.words, lo, v.size) - {Alloc(v).0}
    ensures Alloc(v).1.Managed(lo) && Alloc(v).1.size == v.size
  {
    var free := Free(v.words, lo, v.size);
    if v.unused != 0 {
      var m :| m in free;
      FirstClearIs(v.words, v.allocation, v.Scanned());
      var i := FirstClear(v.words, v.allocation, v.Scanned()).value;
      assert i <= m;
      assert forall k :: k in free ==> (k < i ==> Bit(v.words, k));
      SetBit(v.words, i);
      FreeAfterSet(v.words, Alloc(v).1.words, lo, v.size, i);
      assert AllSet(Alloc(v).1.words, lo, i + 1) by {
        forall k: nat | lo <= k < i + 1 ensures Bit(Alloc(v).1.words, k) {
          assert k < i ==> Bit(v.words, k);
        }
      }
    }
  }

  /** Freeing a managed index makes exactly that index free; freeing a free index
      changes nothing at all. */
  lemma ReleaseOne(v: Value, lo: nat, index: nat)
    requires v.Managed(lo) && lo <= index
    ensures Release(v, index).Managed(lo) && Release(v, index).size == v.size
    ensures index < v.size ==> Free(Release(v, index).words, lo, v.size) == Free(v.words, lo, v.size) + {index}
    ensures index >= v.size || index in Free(v.words, lo, v.size) ==> Release(v, index) == v
  {
    if index < v.size {
      if Bit(v.words, index) {
        ReleaseTaken(v, lo, index);
      } else {
        assert index >= v.allocation;
        assert Free(v.words, lo, v.size) + {index} == Free(v.words, lo, v.size);
      }
    }
  }

  lemma ReleaseTaken(v: Value, lo: nat, index: nat)
    requires v.Managed(lo) && lo <= index < v.size && Bit(v.words, index)
    ensures Release(v, index).Managed(lo) && Release(v, index).size == v.size && index !in Free(v.words, lo, v.size)
    ensures Free(Release(v, index).words, lo, v.size) == Free(v.words, lo, v.size) + {index}
  {
    TakenNotFree(v.words, lo, v.size, index);
    ClearBit(v.words, index);
    hide Bit, Free, AllSet, BitSet, Test, WithoutBit;
    var w := Release(v, index);
    FreeAfterClear(v.words, w.words, lo, v.size, index);
    SetBelow(v.words, w.words, lo, if v.allocation <= v.size then v.allocation else v.size, index);
  }

  lemma TakenNotFree(words: seq<Word>, lo: nat, hi: nat, i: nat)
    requires i < hi <= 64 * |words| && Bit(words, i)
    ensures i !in Free(words, lo, hi)
  {
  }

  /** Below a cleared bit everything stays set. */
  lemma SetBelow(words: seq<Word>, words': seq<Word>, lo: nat, hi: nat, i: nat)
    requires hi <= 64 * |words| && BitSet(words, words', i, false) && AllSet(words, lo, hi)
    ensures AllSet(words', lo, if i < hi then i else hi)
  {
    forall k: nat | lo <= k < (if i < hi then i else hi) ensures Bit(words', k) { assert Bit(words, k); }
  }

  /** Taking an index and giving it back restores the set of free indices, and the next
      allocation returns the same index. */
  lemma AllocReleaseAlloc(v: Value, lo: nat)
    requires v.Managed(lo) && Alloc(v).0 != -1
    ensures var (i, w) := Alloc(v);
            w.Safe() && Free(Release(w, i).words, lo, v.size) == Free(v.words, lo, v.size) && Alloc(Release(w, i)).0 == i
  {
    hide Alloc, Release, BitSet, AllSet;
    AllocLeast(v, lo);
    var (i, w) := Alloc(v);
    assert i in Free(v.words, lo, v.size);
    hide Free;
    ReleaseOne(w, lo, i);
    AllocLeast(Release(w, i), lo);
    var j := Alloc(Release(w, i)).0;
    assert j in Free(v.words, lo, v.size);
  }

  /** efs_fill_bmap: placing the cursor with bitmap_reset_allo(., lo) and then storing
      the exact count yields a managed bitmap whose free set is the one on disk. */
  lemma ResetManaged(v: Value, lo: nat, count: int)
    requires v.Safe() && v.unused == v.size && v.size > 0 && lo <= v.size && count == |Free(v.words, lo, v.size)|
    ensures ResetCursor(v, lo).(unused := count).Managed(lo)
    ensures Free(ResetCursor(v, lo).words, lo, v.size) == Free(v.words, lo, v.size)
  {
    var v1 := v.(allocation := lo);
    FirstClearIs(v.words, lo, v.Scanned());
    var first := FirstClear(v.words, lo, v.Scanned());
    if first.Some? && first.value <= v.size {
      SetBit(v.words, first.value);
      if first.value < v.size {
        ResetFound(v, lo, first.value, Alloc(v1).1);
      } else {
        ResetFull(v, lo, Alloc(v1).1);
      }
    }
  }

  /** No managed index is free and the bit after the last one was clear. */
  lemma ResetFull(v: Value, lo: nat, w: Value)
    requires v.Safe() && lo <= v.size && v.size < 64 * |v.words| && AllSet(v.words, lo, v.size)
    requires BitSet(v.words, w.words, v.size, true)
    ensures AllSet(w.words, lo, v.size) && Free(w.words, lo, v.size) == Free(v.words, lo, v.size) == {}
  {
    forall k: nat | lo <= k < v.size ensures Bit(w.words, k) { assert Bit(v.words, k); }
  }

  lemma ResetFound(v: Value, lo: nat, i: nat, w: Value)
    requires v.Safe() && lo <= i < v.size && !Bit(v.words, i) && AllSet(v.words, lo, i)
    requires BitSet(v.words, w.words, i, true) && w.size == v.size && w.allocation == i + 1
    ensures w.Safe() && Release(w, i).Safe() && Release(w, i).allocation == i
    ensures forall k: nat :: k < 64 * |v.words| ==> Bit(Release(w, i).words, k) == Bit(v.words, k)
    ensures Free(Release(w, i).words, lo, v.size) == Free(v.words, lo, v.size)
    ensures AllSet(Release(w, i).words, lo, i)
  {
    assert Bit(w.words, i);
    ClearBit(w.words, i);
    var x := Release(w, i);
    forall k: nat | k < 64 * |v.words| ensures Bit(x.words, k) == Bit(v.words, k) {
      assert Bit(x.words, k) == (k != i && Bit(w.words, k));
    }
  }

  /** Because of the bound test `res > size` a bitmap whose count includes the index `size`
      hands out what one with that index more would. */
  lemma WiderAlloc(v: Value, n: int)
    requires v.Safe() && v.(size := n).Safe() && v.size <= n <= v.size + 1 && Alloc(v).0 != -1
    ensures Alloc(v.(size := n)) == (Alloc(v).0, Alloc(v).1.(size := n))
  {
    FirstClearIs(v.words, v.allocation, v.Scanned());
    FirstClearFound(v.words, v.allocation, v.(size := n).Scanned(), Alloc(v).0);
  }

  /** Mounting such a bitmap, when an index below `size` is free. */
  lemma ResetWider(v: Value, lo: nat, n: nat, count: int)
    requires v.Safe() && v.(size := n).Safe() && v.unused == v.size && v.size > 0 && lo <= v.size <= n <= v.size + 1
    requires Free(v.words, lo, v.size) != {} && count == |Free(v.words, lo, n)|
    ensures ResetCursor(v, lo).(size := n, unused := count).Managed(lo)
    ensures Free(ResetCursor(v, lo).words, lo, n) == Free(v.words, lo, n)
  {
    var v1 := v.(allocation := lo);
    FirstClearIs(v.words, lo, v.Scanned());
    var i := FirstClear(v.words, lo, v.Scanned()).value;
    assert i < v.size;
    SetBit(v.words, i);
    ResetFound(v, lo, i, Alloc(v1).1);
    SameFree(v.words, ResetCursor(v, lo).words, lo, n);
  }

  lemma SameFree(words: seq<Word>, words': seq<Word>, lo: nat, hi: nat)
    requires |words'| == |words| && hi <= 64 * |words| && forall k: nat :: k < 64 * |words| ==> Bit(words', k) == Bit(words, k)
    ensures Free(words', lo, hi) == Free(words, lo, hi)
  {
  }

  /** The bound test `res > size` is off by one: the code hands out an index out of range
      exactly when the count says something is free, no bit from the cursor to `size` is
      clear, and the bit at `size` is there and clear. */
  lemma AllocInRange(v: Value)
    requires v.Safe()
    ensures Alloc(v).0 >= v.size <==>
              v.unused != 0 && v.allocation <= v.size < v.Scanned() && AllSet(v.words, v.allocation, v.size) && !Bit(v.words, v.size)
  {
    FirstClearIs(v.words, v.allocation, v.Scanned());
  }

  lemma AllocOutOfRange()
    ensures var v := Value([WithBit(ZERO, 0)], 1, 1, 0); v.Safe() && Alloc(v).0 == v.size
  {
    var v := Value([WithBit(ZERO, 0)], 1, 1, 0);
    FirstClearFound(v.words, 0, 64, 1);
  }

  // ---- the allocator in memory ----

  class Map {
    var words: array<Word>
    var size: int
    var unused: int
    var allocation: int

    ghost function Val(): Value
      reads this, words
    {
      Value(words[..], size, unused, allocation)
    }

    /** bitmap_init_zone: adopt a words that is already in memory. */
    constructor InitZone(mem: array<Word>, bits: nat)
      requires bits <= 64 * mem.Length
      ensures words == mem && Val() == Value(mem[..], bits, bits, 0) && Val().Safe()
    {
      words := mem;
      size := bits;
      unused := bits;
      allocation := 0;
    }

    /** bitmap_init: clear (bits + 7) / 8 bytes; the rest of the last word keeps its contents. */
    constructor Init(mem: array<Word>, bits: nat)
      requires bits <= 64 * mem.Length
      modifies mem
      ensures words == mem && Val().Managed(0) && Val().size == bits
      ensures Free(mem[..], 0, bits) == Below(bits)
      ensures forall k: nat :: (bits + 7) / 8 * 8 <= k < 64 * mem.Length ==> Bit(mem[..], k) == Bit(old(mem[..]), k)
    {
      words := mem;
      size := bits;
      unused := bits;
      allocation := 0;
      new;
      hide Bit, Free, Below;
      ZeroBytes(mem, (bits + 7) / 8);
      assert bits <= 8 * ((bits + 7) / 8);
      AllFree(mem[..], bits);
    }

    method BitmapAlloc() returns (res: int)
      requires Val().Safe()
      modifies this, words
      ensures words == old(words) && (res, Val()) == Alloc(old(Val()))
    {
      if unused == 0 { return -1; }
      var total := (size + 63) / 64;
      var i := allocation / 64;
      var startBit := allocation % 64;
      ghost var before := words[..];
      while i < total
        invariant allocation / 64 <= i && (i <= total || i == allocation / 64) && total <= words.Length && words[..] == before
        invariant forall k: nat :: allocation <= k < 64 * i && k < 64 * total ==> Bit(before, k)
      {
        if words[i] != ALL_ONES {
          var bit := if i == allocation / 64 then startBit else 0;
          while bit < 64
            invariant 0 <= bit <= 64 && (i == allocation / 64 ==> startBit <= bit)
            invariant forall k: nat :: allocation <= k < 64 * i + bit ==> Bit(before, k)
          {
            if !Test(words[i], bit) {
              res := i * 64 + bit;
              assert res / 64 == i && res % 64 == bit && !Bit(before, res);
              FirstClearFound(before, allocation, 64 * total, res);
              if res > size { return -1; }
              words[i] := WithBit(words[i], bit);
              unused := unused - 1;
              allocation := res + 1;
              return;
            }
            assert (64 * i + bit) / 64 == i && (64 * i + bit) % 64 == bit && Bit(before, 64 * i + bit);
            bit := bit + 1;
          }
        } else {
          assert forall k: nat :: 64 * i <= k < 64 * i + 64 ==> Bit(before, k);
        }
        i := i + 1;
      }
      FirstClearIs(before, allocation, 64 * total);
      res := -1;
    }

    method BitmapFree(index: int)
      requires Val().Safe()
      modifies this, words
      ensures words == old(words) && Val() == Release(old(Val()), index)
    {
      if index < 0 || index >= size { return; }
      if index < allocation { allocation := index; }
      if Test(words[index / 64], index % 64) {
        words[index / 64] := WithoutBit(words[index / 64], index % 64);
        unused := unused + 1;
      }
    }

    method BitmapResetAllo(start: nat)
      requires Val().Safe()
      modifies this, words
      ensures words == old(words) && Val() == ResetCursor(old(Val()), start)
    {
      allocation := start;
      ghost var v := Val();
      var index := BitmapAlloc();
      AllocSafe(v);
      BitmapFree(index);
    }

    /** bitmap_is_free: -1 out of range, 1 free, 0 taken. */
    method BitmapIsFree(index: int) returns (r: int)
      requires Val().Safe()
      ensures r == -1 <==> index < 0 || index >= size
      ensures 0 <= index < size ==> (r == 1 <==> !Bit(words[..], index)) && (r == 0 <==> Bit(words[..], index))
    {
      if index < 0 || index >= size { return -1; }
      r := if Test(words[index / 64], index % 64) then 0 else 1;
    }
  }

  /** memset(map, 0, bytes): whole words, then the bytes of the last one. */
  method ZeroBytes(words: array<Word>, bytes: nat)
    requires bytes <= 8 * words.Length
    modifies words
    ensures forall k: nat :: k < 64 * words.Length ==> Bit(words[..], k) == (8 * bytes <= k && Bit(old(words[..]), k))
  {
    var i := 0;
    while i < bytes / 8
      invariant i <= bytes / 8
      invariant forall j :: 0 <= j < i ==> words[j] == ZERO
      invariant forall j :: i <= j < words.Length ==> words[j] == old(words[j])
    {
      words[i] := ZERO;
      i := i + 1;
    }
    var b := 0;
    while b < 8 * (bytes % 8)
      invariant b <= 8 * (bytes % 8) && (b > 0 ==> i < words.Length)
      invariant forall j :: 0 <= j < i ==> words[j] == ZERO
      invariant forall j :: i < j < words.Length ==> words[j] == old(words[j])
      invariant i < words.Length ==> forall k :: 0 <= k < 64 ==> words[i][k] == (b <= k && old(words[..])[i][k])
    {
      words[i] := WithoutBit(words[i], b);
      b := b + 1;
    }
  }

  lemma AllFree(words: seq<Word>, bits: nat)
    requires bits <= 64 * |words| && forall k: nat :: k < bits ==> !Bit(words, k)
    ensures Free(words, 0, bits) == Below(bits) && |Free(words, 0, bits)| == bits
  {
    assert forall k: nat :: k in Free(words, 0, bits) <==> k in Below(bits);
  }

  /** The indices below `n`. */
  ghost function Below(n: nat): (r: set<nat>)
    ensures forall k: nat :: k in r <==> k < n
    ensures |r| == n
  {
    if n == 0 then {} else Below(n - 1) + {n - 1}
  }
}
