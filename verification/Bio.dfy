/** Splitting a byte-range request into per-block pieces (kernel/dev/blk/bio.c). */
module Bio {
  import opened Basics

  const BLK: nat := 4096

  type U32 = x: nat | x < TWO32

  /** One piece: `len` bytes at `offset` of block `blockno`. */
  datatype Piece = Piece(blockno: nat, offset: nat, len: nat) {
    function Start(): nat { blockno * BLK + offset }
  }

  /** The pieces are in ascending order, nonempty, each inside one block, and cover
      exactly [start, start + len). */
  predicate Tiles(ps: seq<Piece>, start: nat, len: nat) {
    if ps == [] then len == 0
    else
      && ps[0].Start() == start && 0 < ps[0].len <= len && ps[0].offset + ps[0].len <= BLK
      && Tiles(ps[1..], start + ps[0].len, len - ps[0].len)
  }

  /** The natural split of [start, start + len) at block boundaries. */
  function Split(start: nat, len: nat): (ps: seq<Piece>)
    decreases len
  {
    if len == 0 then []
    else
      var room := BLK - start % BLK;
      var l := if len < room then len else room;
      [Piece(start / BLK, start % BLK, l)] + Split(start + l, len - l)
  }

  lemma {:induction false} SplitTiles(start: nat, len: nat)
    ensures Tiles(Split(start, len), start, len)
    decreases len
  {
    if len > 0 {
      var room := BLK - start % BLK;
      var l := if len < room then len else room;
      SplitTiles(start + l, len - l);
      assert Split(start, len)[1..] == Split(start + l, len - l);
    }
  }

  /** Nothing in bio_list_make exceeds 32 bits. */
  predicate Fits(blockno: nat, offset: nat, len: nat)
    requires len > 0
  {
    offset % BLK + len <= TWO32 && blockno + (offset + len - 1) / BLK < TWO32
  }

  /** A tiling by 32-bit block numbers ends within 2^44 bytes. */
  lemma {:induction false} TilesEnd(ps: seq<Piece>, start: nat, len: nat)
    requires Tiles(ps, start, len) && len > 0 && forall p :: p in ps ==> p.blockno < TWO32
    ensures start + len <= TWO32 * BLK
  {
    if |ps| > 1 {
      assert ps[1] in ps[1..];
      assert forall p :: p in ps[1..] ==> p in ps;
      assert Tiles(ps[1..], start + ps[0].len, len - ps[0].len);
      if len > ps[0].len { TilesEnd(ps[1..], start + ps[0].len, len - ps[0].len); }
    }
    assert ps[0] in ps;
  }

  lemma SplitLast(start: nat, len: nat)
    requires 0 < len && start % BLK == 0 && len <= BLK
    ensures Split(start, len) == [Piece(start / BLK, 0, len)]
  {
    assert Split(start + len, 0) == [];
  }

  lemma SplitFirst(start: nat, len: nat)
    requires len > BLK - start % BLK
    ensures Split(start, len) ==
            [Piece(start / BLK, start % BLK, BLK - start % BLK)] + Split((start / BLK + 1) * BLK, len - (BLK - start % BLK))
  {
    assert start + (BLK - start % BLK) == (start / BLK + 1) * BLK;
  }

  lemma SplitMiddle(n: nat, len: nat)
    requires len > BLK
    ensures Split(n * BLK, len) == [Piece(n, 0, BLK)] + Split((n + 1) * BLK, len - BLK)
  {
    SplitFirst(n * BLK, len);
  }

  lemma SplitOne(start: nat, len: nat)
    requires 0 < len <= BLK - start % BLK
    ensures Split(start, len) == [Piece(start / BLK, start % BLK, len)]
  {
    assert Split(start + len, 0) == [];
  }

  /** What the overflow-free case means for the locals of bio_list_make. */
  lemma FitsMeans(blockno: U32, offset: U32, len: U32)
    requires len > 0
    ensures var start, sum := blockno * BLK + offset, offset % BLK + len - 1;
            && start % BLK == offset % BLK && start / BLK == blockno + offset / BLK
            && (Fits(blockno, offset, len) ==> sum < TWO32 && start / BLK + sum / BLK < TWO32)
            && (!Fits(blockno, offset, len) ==> sum >= TWO32 || start + len > TWO32 * BLK)
  {
  }

  /** A list that does not fit is no tiling: either its only piece is longer than a block,
      or the range ends beyond the last 32-bit block. */
  lemma NoTiling(list: seq<Piece>, start: nat, len: nat)
    requires len > 0 && forall p :: p in list ==> p.blockno < TWO32
    requires start + len > TWO32 * BLK || (|list| == 1 && list[0].len > BLK)
    ensures !Tiles(list, start, len)
  {
    if Tiles(list, start, len) { TilesEnd(list, start, len); }
  }

  /** --blockno */
  function Dec32(n: U32): U32 {
    if n == 0 then TWO32 - 1 else n - 1
  }

  lemma DecMod(b: nat, count: nat)
    requires count > 0
    ensures Dec32((b + count) % TWO32) == (b + count - 1) % TWO32
  {
  }

  /** bio_list_make.  The list is built from its last piece by insertion at the head, with
      block numbers counting down; all arithmetic is modulo 2^32. */
  method BioListMake(blockno: U32, offset: U32, len: U32) returns (list: seq<Piece>)
    ensures len == 0 ==> list == []
    ensures len > 0 && Fits(blockno, offset, len) ==> list == Split(blockno * BLK + offset, len)
    ensures len > 0 ==> (Fits(blockno, offset, len) <==> Tiles(list, blockno * BLK + offset, len))
  {
    hide Split, Tiles, Fits, Dec32;
    list := [];
    if len == 0 { return; }
    ghost var start := blockno * BLK + offset;
    ghost var ok := Fits(blockno, offset, len);
    FitsMeans(blockno, offset, len);
    var b := (blockno + offset / BLK) % TWO32;
    var off := offset % BLK;
    var sum := (off + len - 1) % TWO32;
    var count := sum / BLK + 1;
    if count == 1 {
      list := [Piece(b, off, len)];
      if ok { SplitOne(start, len); }
    } else {
      var n;
      list, n := LastPieces(b, off, len, count, ok);
      DecMod(b, 1);
      n := Dec32(n);
      if ok { SplitFirst(start, len); }
      list := [Piece(n, off, BLK - off)] + list;
    }
    if ok { SplitTiles(start, len); } else { NoTiling(list, start, len); }
  }

  /** The pieces after the first: the last block, then the full blocks before it. */
  method LastPieces(b: U32, off: nat, len: U32, pieces: nat, ghost ok: bool) returns (list: seq<Piece>, n: U32)
    requires len > 0 && off < BLK && pieces == (off + len - 1) % TWO32 / BLK + 1 && pieces > 1
    requires ok ==> off + len - 1 < TWO32 && b + pieces - 1 < TWO32
    ensures list != [] && n == (b + 1) % TWO32 && forall p :: p in list ==> p.blockno < TWO32
    ensures ok ==> list == Split((b + 1) * BLK, off + len - BLK)
  {
    hide Split, Tiles, Dec32;
    var count := pieces;
    var sum := (off + len - 1) % TWO32;
    n := (b + count) % TWO32;
    DecMod(b, count);
    n := Dec32(n);
    list := [Piece(n, 0, sum % BLK + 1)];
    if ok { SplitLast((b + count - 1) * BLK, sum % BLK + 1); }
    count := count - 1;
    while count > 1
      invariant 1 <= count < pieces && n == (b + count) % TWO32 && list != []
      invariant forall p :: p in list ==> p.blockno < TWO32
      invariant ok ==> list == Split(n * BLK, off + len - count * BLK)
    {
      DecMod(b, count);
      n := Dec32(n);
      if ok { SplitMiddle(n, off + len - (count - 1) * BLK); }
      list := [Piece(n, 0, BLK)] + list;
      count := count - 1;
    }
  }

  /** A 32-bit range for which the list bio_list_make builds is no tiling. */
  method DoesNotFit() returns (list: seq<Piece>)
    ensures !Tiles(list, 4095, TWO32 - 1)
  {
    list := BioListMake(0, 4095, TWO32 - 1);
  }
}
