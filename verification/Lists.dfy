/** Circular doubly linked lists and the fifo built on them, as sequences of nodes. */
module Lists {
  class ListHead {
    var prev: ListHead
    var next: ListHead

    /** INIT_LIST_HEAD */
    constructor ()
      ensures prev == next == this && Ring([this])
    {
      prev := this;
      next := this;
    }
  }

  /** `r` is a ring: its first node is the head, the others are the entries in order. */
  ghost predicate Ring(r: seq<ListHead>)
    reads r
  {
    && |r| > 0 && (forall i, j :: 0 <= i < j < |r| ==> r[i] != r[j])
    && (forall i :: 0 <= i < |r| - 1 ==> r[i].next == r[i + 1])
    && (forall i :: 0 < i < |r| ==> r[i].prev == r[i - 1])
    && r[|r| - 1].next == r[0] && r[0].prev == r[|r| - 1]
  }

  /** __list_add between ring positions `k - 1` and `k`. */
  method ListAdd(node: ListHead, prev: ListHead, next: ListHead, ghost r: seq<ListHead>, ghost k: nat)
    requires Ring(r) && node !in r && 0 < k <= |r| && prev == r[k - 1] && next == (if k < |r| then r[k] else r[0])
    modifies node, prev, next
    ensures Ring(r[..k] + [node] + r[k..])
  {
    prev.next := node;
    next.prev := node;
    node.next := next;
    node.prev := prev;
  }

  /** list_add_head */
  method ListAddHead(node: ListHead, list: ListHead, ghost r: seq<ListHead>)
    requires Ring(r) && r[0] == list && node !in r
    modifies node, list, list.next
    ensures Ring([list, node] + r[1..])
  {
    ListAdd(node, list, list.next, r, 1);
    assert r[..1] + [node] + r[1..] == [list, node] + r[1..];
  }

  /** list_add_tail */
  method ListAddTail(node: ListHead, list: ListHead, ghost r: seq<ListHead>)
    requires Ring(r) && r[0] == list && node !in r
    modifies node, list, list.prev
    ensures Ring(r + [node])
  {
    ListAdd(node, list.prev, list, r, |r|);
    assert r[..|r|] + [node] + r[|r|..] == r + [node];
  }

  /** list_del: the entry leaves the ring and keeps its own links. */
  method ListDel(entry: ListHead, ghost r: seq<ListHead>, ghost k: nat)
    requires Ring(r) && 0 < k < |r| && r[k] == entry
    modifies entry.prev, entry.next
    ensures Ring(r[..k] + r[k + 1..]) && entry.prev == old(entry.prev) && entry.next == old(entry.next)
  {
    var prev, next := entry.prev, entry.next;
    assert prev == r[k - 1] && next == if k + 1 < |r| then r[k + 1] else r[0];
    prev.next := next;
    next.prev := prev;
    ghost var q := r[..k] + r[k + 1..];
    forall i | 0 <= i < |q| - 1 ensures q[i].next == q[i + 1] {
      if i >= k { assert r[i + 1].next == r[i + 2]; }
    }
    forall i | 0 < i < |q| ensures q[i].prev == q[i - 1] {
      if i > k { assert r[i + 1].prev == r[i]; }
    }
    assert q[|q| - 1] == if k + 1 < |r| then r[|r| - 1] else prev;
  }

  /** list_del_init: and is a list of its own afterwards. */
  method ListDelInit(entry: ListHead, ghost r: seq<ListHead>, ghost k: nat)
    requires Ring(r) && 0 < k < |r| && r[k] == entry
    modifies entry, entry.prev, entry.next
    ensures Ring(r[..k] + r[k + 1..]) && Ring([entry])
  {
    ListDel(entry, r, k);
    assert entry !in r[..k] + r[k + 1..];
    entry.next := entry;
    entry.prev := entry;
  }

  /** list_empty */
  method ListEmpty(list: ListHead, ghost r: seq<ListHead>) returns (empty: bool)
    requires Ring(r) && r[0] == list
    ensures empty <==> |r| == 1
  {
    assert |r| > 1 ==> r[0].next == r[1];
    empty := list.next == list;
  }

  /** list_pop: the first entry, or nothing. */
  method ListPop(list: ListHead, ghost r: seq<ListHead>) returns (node: ListHead?)
    requires Ring(r) && r[0] == list
    modifies list, list.next, list.next.next
    ensures node == null <==> |r| == 1
    ensures |r| == 1 ==> Ring(r)
    ensures |r| > 1 ==> node == r[1] && Ring([list] + r[2..])
  {
    assert |r| > 1 ==> r[0].next == r[1] && r[1].prev == r[0];
    if list.next == list { return null; }
    node := list.next;
    ListDel(list.next, r, 1);
    assert r[..1] + r[2..] == [list] + r[2..];
  }

  /** list_len, while the list is no longer than its panic allows. */
  method ListLen(list: ListHead, ghost r: seq<ListHead>) returns (len: nat, panicked: bool)
    requires Ring(r) && r[0] == list
    ensures panicked <==> |r| - 1 > 1000000
    ensures !panicked ==> len == |r| - 1
  {
    len, panicked := 0, false;
    var pos := list.next;
    while pos != list
      invariant len <= |r| - 1 && len <= 1000000 && pos == (if len + 1 < |r| then r[len + 1] else r[0])
      decreases |r| - len
    {
      len := len + 1;
      if len > 1000000 { return len, true; }
      pos := pos.next;
    }
  }

  /** struct fifo: `ring` is history, the nodes of the list in order. */
  class Fifo {
    var size: int
    const list: ListHead
    ghost var ring: seq<ListHead>

    ghost predicate Valid()
      reads this, ring
    {
      Ring(ring) && ring[0] == list && size == |ring| - 1
    }

    /** fifo_init */
    constructor ()
      ensures Valid() && ring == [list] && fresh(list)
    {
      var l := new ListHead();
      list := l;
      size := 0;
      ring := [l];
    }

    /** fifo_push: at the end of the line. */
    method Push(entry: ListHead)
      requires Valid() && entry !in ring
      modifies this, entry, list, list.prev
      ensures Valid() && ring == old(ring) + [entry]
    {
      ListAddTail(entry, list, ring);
      size := size + 1;
      ring := ring + [entry];
    }

    /** fifo_empty */
    method Empty() returns (empty: bool)
      requires Valid()
      ensures empty <==> |ring| == 1
    {
      empty := size == 0;
    }

    /** fifo_pop: the entry that has waited longest. */
    method Pop() returns (node: ListHead?)
      requires Valid()
      modifies this, list, list.next, list.next.next
      ensures Valid() && (node == null <==> |old(ring)| == 1)
      ensures node == null ==> ring == old(ring)
      ensures node != null ==> node == old(ring)[1] && ring == [list] + old(ring)[2..]
    {
      assert |ring| > 1 ==> ring[0].next == ring[1];
      if list.next == list { return null; }
      size := size - 1;
      node := ListPop(list, ring);
      ring := [list] + ring[2..];
    }
  }
}
