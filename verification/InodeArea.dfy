/** Inodes on disk: efs_i_update and efs_i_fill over the flat disk. */
module InodeArea {
  import opened Basics
  import opened EasyFs

  const INODE_SIZE: nat := 128
  const RECORD: nat := 72
  const WORDS: nat := 18

  /** struct easy_d_inode: 18 little-endian words; `dev` is the word that holds the 16-bit
      device number. */
  datatype DInode = DInode(no: nat, kind: nat, dev: nat, size: nat, addrs: seq<nat>, nlink: nat)

  predicate DShape(d: DInode) {
    && |d.addrs| == NDIRECT + 1 && d.no < TWO32 && d.kind < TWO32 && d.dev < TWO32 && d.size < TWO32 && d.nlink < TWO32
    && forall i :: 0 <= i <= NDIRECT ==> d.addrs[i] < TWO32
  }

  function Words(d: DInode): (w: seq<nat>)
    requires |d.addrs| == NDIRECT + 1
    ensures |w| == WORDS
  {
    [d.no, d.kind, d.dev, d.size] + d.addrs + [d.nlink]
  }

  function RecordBytes(d: DInode): (b: seq<Byte>)
    requires |d.addrs| == NDIRECT + 1
    ensures |b| == RECORD
  {
    seq(RECORD, k requires 0 <= k < RECORD => ByteOf(Words(d)[k / 4], k % 4))
  }

  // ---- the disk as one byte array ----

  predicate Blocks(disk: seq<seq<Byte>>) { forall b :: 0 <= b < |disk| ==> |disk[b]| == BLOCK }

  function ByteAt(disk: seq<seq<Byte>>, p: nat): Byte
    requires Blocks(disk) && p < BLOCK * |disk|
  {
    disk[p / BLOCK][p % BLOCK]
  }

  /** blk_write: the bytes of `data` from position `p` on. */
  function WriteAt(disk: seq<seq<Byte>>, p: nat, data: seq<Byte>): (r: seq<seq<Byte>>)
    requires Blocks(disk)
    ensures |r| == |disk| && Blocks(r)
  {
    seq(|disk|, b requires 0 <= b < |disk| =>
      seq(BLOCK, o requires 0 <= o < BLOCK => if p <= b * BLOCK + o < p + |data| then data[b * BLOCK + o - p] else disk[b][o]))
  }

  lemma WriteAtByte(disk: seq<seq<Byte>>, p: nat, data: seq<Byte>, q: nat)
    requires Blocks(disk) && q < BLOCK * |disk|
    ensures ByteAt(WriteAt(disk, p, data), q) == if p <= q < p + |data| then data[q - p] else ByteAt(disk, q)
  {
    assert q / BLOCK * BLOCK + q % BLOCK == q;
  }

  function WordAt(disk: seq<seq<Byte>>, p: nat): nat
    requires Blocks(disk) && p + 4 <= BLOCK * |disk|
  {
    var a: nat, b: nat, c: nat, d: nat := ByteAt(disk, p), ByteAt(disk, p + 1), ByteAt(disk, p + 2), ByteAt(disk, p + 3);
    a + 0x100 * b + 0x1_0000 * c + 0x100_0000 * d
  }

  // ---- the two operations ----

  /** The byte position of inode `ino`. */
  function Place(start: nat, ino: nat): nat { start * BLOCK + ino * INODE_SIZE }

  function ReadWords(disk: seq<seq<Byte>>, p: nat): (w: seq<nat>)
    requires Blocks(disk) && p + RECORD <= BLOCK * |disk|
    ensures |w| == WORDS
  {
    seq(WORDS, k requires 0 <= k < WORDS => WordAt(disk, p + 4 * k))
  }

  function FromWords(w: seq<nat>): DInode
    requires |w| == WORDS
  {
    DInode(w[0], w[1], w[2], w[3], w[4..17], w[17])
  }

  /** efs_i_fill */
  function IFill(disk: seq<seq<Byte>>, start: nat, ino: nat): (d: DInode)
    requires Blocks(disk) && Place(start, ino) + RECORD <= BLOCK * |disk|
  {
    FromWords(ReadWords(disk, Place(start, ino)))
  }

  /** efs_i_update: the record, and the table when it is in memory. */
  function IUpdate(disk: seq<seq<Byte>>, start: nat, d: DInode, indir: Option<seq<nat>>): (r: seq<seq<Byte>>)
    requires Blocks(disk) && |d.addrs| == NDIRECT + 1 && (indir.Some? ==> |indir.value| == NINDIRECT)
    ensures |r| == |disk| && Blocks(r)
  {
    var disk1 := WriteAt(disk, Place(start, d.no), RecordBytes(d));
    if indir.Some? then WriteAt(disk1, d.addrs[NDIRECT] * BLOCK, Encode(indir.value)) else disk1
  }

  /** Inode records lie below the data area, tables inside it. */
  predicate Layout(disk: seq<seq<Byte>>, start: nat, area: nat, d: DInode, indir: Option<seq<nat>>) {
    && Blocks(disk) && DShape(d) && area <= |disk| && Place(start, d.no) + INODE_SIZE <= area * BLOCK
    && (indir.Some? ==> d.addrs[NDIRECT] != 0 && |indir.value| == NINDIRECT && forall j :: 0 <= j < NINDIRECT ==> indir.value[j] < TWO32)
    && (d.addrs[NDIRECT] != 0 ==> area <= d.addrs[NDIRECT] < |disk|)
  }

  /** A byte of the inode area after an update. */
  lemma AreaByte(disk: seq<seq<Byte>>, start: nat, area: nat, d: DInode, indir: Option<seq<nat>>, q: nat)
    requires Layout(disk, start, area, d, indir) && q < area * BLOCK
    ensures var p := Place(start, d.no);
            ByteAt(IUpdate(disk, start, d, indir), q) == if p <= q < p + RECORD then RecordBytes(d)[q - p] else ByteAt(disk, q)
  {
    hide ByteAt, WriteAt, RecordBytes, Encode;
    var disk1 := WriteAt(disk, Place(start, d.no), RecordBytes(d));
    WriteAtByte(disk, Place(start, d.no), RecordBytes(d), q);
    if indir.Some? {
      assert q < d.addrs[NDIRECT] * BLOCK;
      WriteAtByte(disk1, d.addrs[NDIRECT] * BLOCK, Encode(indir.value), q);
    }
  }

  lemma AreaWord(disk: seq<seq<Byte>>, start: nat, area: nat, d: DInode, indir: Option<seq<nat>>, k: nat)
    requires Layout(disk, start, area, d, indir) && k < WORDS
    ensures WordAt(IUpdate(disk, start, d, indir), Place(start, d.no) + 4 * k) == Words(d)[k]
  {
    hide ByteAt, IUpdate, Words, ByteOf;
    var p := Place(start, d.no) + 4 * k;
    AreaByte(disk, start, area, d, indir, p);
    AreaByte(disk, start, area, d, indir, p + 1);
    AreaByte(disk, start, area, d, indir, p + 2);
    AreaByte(disk, start, area, d, indir, p + 3);
    var b := RecordBytes(d);
    assert b[4 * k] == ByteOf(Words(d)[k], 0) && b[4 * k + 1] == ByteOf(Words(d)[k], 1);
    assert b[4 * k + 2] == ByteOf(Words(d)[k], 2) && b[4 * k + 3] == ByteOf(Words(d)[k], 3);
    WordsFit(d, k);
    WordBytes(Words(d)[k]);
  }

  lemma WordsFit(d: DInode, k: nat)
    requires DShape(d) && k < WORDS
    ensures Words(d)[k] < TWO32
  {
  }

  /** Filling a fresh inode after an update gives the same disk inode back. */
  lemma UpdateFill(disk: seq<seq<Byte>>, start: nat, area: nat, d: DInode, indir: Option<seq<nat>>)
    requires Layout(disk, start, area, d, indir)
    ensures IFill(IUpdate(disk, start, d, indir), start, d.no) == d
  {
    hide WordAt, IUpdate, Place, Words;
    var disk', p := IUpdate(disk, start, d, indir), Place(start, d.no);
    InPlace(disk, start, area, d, indir);
    forall k: nat | k < WORDS ensures ReadWords(disk', p)[k] == Words(d)[k] { AreaWord(disk, start, area, d, indir, k); }
    assert ReadWords(disk', p) == Words(d);
    WordsBack(d);
  }

  lemma WordsBack(d: DInode)
    requires |d.addrs| == NDIRECT + 1
    ensures FromWords(Words(d)) == d
  {
    assert Words(d)[4..17] == d.addrs;
  }

  lemma InPlace(disk: seq<seq<Byte>>, start: nat, area: nat, d: DInode, indir: Option<seq<nat>>)
    requires Layout(disk, start, area, d, indir)
    ensures Place(start, d.no) + RECORD <= BLOCK * |disk|
  {
  }

  /** Inodes with different numbers do not overlap. */
  lemma UpdateOther(disk: seq<seq<Byte>>, start: nat, area: nat, d: DInode, indir: Option<seq<nat>>, other: nat)
    requires Layout(disk, start, area, d, indir) && other != d.no && Place(start, other) + INODE_SIZE <= area * BLOCK
    ensures Place(start, other) + RECORD <= BLOCK * |disk|
    ensures IFill(IUpdate(disk, start, d, indir), start, other) == IFill(disk, start, other)
  {
    hide IUpdate, WordAt, FromWords;
    var disk', p := IUpdate(disk, start, d, indir), Place(start, other);
    forall k: nat | k < WORDS ensures ReadWords(disk', p)[k] == ReadWords(disk, p)[k] { OtherWord(disk, start, area, d, indir, other, k); }
    assert ReadWords(disk', p) == ReadWords(disk, p);
  }

  lemma OtherWord(disk: seq<seq<Byte>>, start: nat, area: nat, d: DInode, indir: Option<seq<nat>>, other: nat, k: nat)
    requires Layout(disk, start, area, d, indir) && other != d.no && Place(start, other) + INODE_SIZE <= area * BLOCK && k < WORDS
    ensures WordAt(IUpdate(disk, start, d, indir), Place(start, other) + 4 * k) == WordAt(disk, Place(start, other) + 4 * k)
  {
    hide ByteAt, IUpdate, RecordBytes, Place;
    var p := Place(start, other);
    OtherByte(disk, start, area, d, indir, other, p + 4 * k);
    OtherByte(disk, start, area, d, indir, other, p + 4 * k + 1);
    OtherByte(disk, start, area, d, indir, other, p + 4 * k + 2);
    OtherByte(disk, start, area, d, indir, other, p + 4 * k + 3);
  }

  lemma OtherByte(disk: seq<seq<Byte>>, start: nat, area: nat, d: DInode, indir: Option<seq<nat>>, other: nat, q: nat)
    requires Layout(disk, start, area, d, indir) && other != d.no && Place(start, other) + INODE_SIZE <= area * BLOCK
    requires Place(start, other) <= q < Place(start, other) + RECORD
    ensures ByteAt(IUpdate(disk, start, d, indir), q) == ByteAt(disk, q)
  {
    hide ByteAt, IUpdate, RecordBytes;
    Apart(start, d.no, other, q);
    AreaByte(disk, start, area, d, indir, q);
  }

  lemma Apart(start: nat, i: nat, j: nat, q: nat)
    requires i != j && Place(start, j) <= q < Place(start, j) + RECORD
    ensures !(Place(start, i) <= q < Place(start, i) + RECORD)
  {
  }

  // ---- the block map ----

  /** The in-memory inode right after efs_i_fill: no table loaded. */
  function Fresh(d: DInode): Inode { Inode(d.kind, d.dev, d.size, d.addrs, None, d.nlink, 0, 0) }

  function InMemory(d: DInode, indir: Option<seq<nat>>): Inode { Inode(d.kind, d.dev, d.size, d.addrs, indir, d.nlink, 0, 0) }

  /** The same logical-to-physical map before the update and after a fresh fill. */
  lemma UpdateKeepsMap(disk: seq<seq<Byte>>, start: nat, area: nat, d: DInode, indir: Option<seq<nat>>, l: nat)
    requires Layout(disk, start, area, d, indir) && l < MAXFILE
    ensures Place(start, d.no) + RECORD <= BLOCK * |disk|
    ensures var disk' := IUpdate(disk, start, d, indir);
            var d' := IFill(disk', start, d.no);
            InodeShape(Fresh(d')) && InodeShape(InMemory(d, indir)) && Blk(disk', Fresh(d'), SlotOf(l)) == Blk(disk, InMemory(d, indir), SlotOf(l))
  {
    hide IUpdate, IFill, ByteAt, Decode, Encode, WordAt, Place;
    InPlace(disk, start, area, d, indir);
    UpdateFill(disk, start, area, d, indir);
    TableKept(disk, start, area, d, indir);
  }

  lemma TableKept(disk: seq<seq<Byte>>, start: nat, area: nat, d: DInode, indir: Option<seq<nat>>)
    requires Layout(disk, start, area, d, indir)
    ensures Table(IUpdate(disk, start, d, indir), Fresh(d)) == Table(disk, InMemory(d, indir))
  {
    var t := d.addrs[NDIRECT];
    var disk' := IUpdate(disk, start, d, indir);
    if t != 0 {
      var disk1 := WriteAt(disk, Place(start, d.no), RecordBytes(d));
      assert disk1[t] == disk[t] by { BelowArea(disk, Place(start, d.no), RecordBytes(d), area, t); }
      if indir.Some? {
        WholeBlock(disk1, t, Encode(indir.value));
        TableRoundTrip(indir.value);
      }
    }
  }

  lemma BelowArea(disk: seq<seq<Byte>>, p: nat, data: seq<Byte>, area: nat, t: nat)
    requires Blocks(disk) && p + |data| <= area * BLOCK && area <= t < |disk|
    ensures WriteAt(disk, p, data)[t] == disk[t]
  {
    assert p + |data| <= t * BLOCK;
  }

  lemma WholeBlock(disk: seq<seq<Byte>>, t: nat, data: seq<Byte>)
    requires Blocks(disk) && t < |disk| && |data| == BLOCK
    ensures WriteAt(disk, t * BLOCK, data)[t] == data
  {
  }

  lemma OtherBlock(disk: seq<seq<Byte>>, t: nat, data: seq<Byte>, b: nat)
    requires Blocks(disk) && |data| == BLOCK && b < |disk| && b != t
    ensures WriteAt(disk, t * BLOCK, data)[b] == disk[b]
  {
    assert b * BLOCK + BLOCK <= t * BLOCK || t * BLOCK + BLOCK <= b * BLOCK;
  }

  /** A data block after an update: only the table's own block can change. */
  lemma UpdateBlock(disk: seq<seq<Byte>>, start: nat, area: nat, d: DInode, indir: Option<seq<nat>>, b: nat)
    requires Layout(disk, start, area, d, indir) && area <= b < |disk|
    ensures IUpdate(disk, start, d, indir)[b] == if indir.Some? && b == d.addrs[NDIRECT] then Encode(indir.value) else disk[b]
  {
    hide WriteAt, Encode, RecordBytes;
    var disk1 := WriteAt(disk, Place(start, d.no), RecordBytes(d));
    BelowArea(disk, Place(start, d.no), RecordBytes(d), area, b);
    if indir.Some? {
      if b == d.addrs[NDIRECT] { WholeBlock(disk1, b, Encode(indir.value)); } else { OtherBlock(disk1, d.addrs[NDIRECT], Encode(indir.value), b); }
    }
  }

  /** The disk part of an inode in memory. */
  function ToDisk(ino: nat, nd: Inode): DInode { DInode(ino, nd.kind, nd.dev, nd.size, nd.addrs, nd.nlink % TWO32) }
}
