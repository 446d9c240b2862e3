/** The circular doubly linked list of list.h, changed in place. A node carries the record that
    embeds it, so that `list_entry` is a field access; a list's own head carries none. */
module IntrusiveList {

  datatype Entry<+T> = Head | In(record: T)

  class ListHead<T> {
    var next: ListHead<T>
    var prev: ListHead<T>
    const entry: Entry<T>

    /** LIST_HEAD and INIT_LIST_HEAD: a node linked to itself. */
    constructor (entry: Entry<T>)
      ensures this.entry == entry && next == this && prev == this
    {
      this.entry := entry;
      next := this;
      prev := this;
    }
  }

  /** What stands at index `i` of the circle; the head closes it at both ends. */
  function Nth<T>(head: ListHead<T>, nodes: seq<ListHead<T>>, i: int): ListHead<T> {
    if 0 <= i < |nodes| then nodes[i] else head
  }

  predicate Distinct<T>(head: ListHead<T>, nodes: seq<ListHead<T>>) {
    head !in nodes && forall i, j :: 0 <= i < j < |nodes| ==> nodes[i] != nodes[j]
  }

  /** The nodes after `head`, in order, are `nodes`, and `next` and `prev` are mutually inverse
      around the whole circle. */
  ghost predicate Ring<T>(head: ListHead<T>, nodes: seq<ListHead<T>>)
    reads {head} + (set n | n in nodes)
  {
    Distinct(head, nodes)
    && head.next == Nth(head, nodes, 0) && head.prev == Nth(head, nodes, |nodes| - 1)
    && (forall i {:trigger nodes[i].next} :: 0 <= i < |nodes| ==> nodes[i].next == Nth(head, nodes, i + 1))
    && (forall i {:trigger nodes[i].prev} :: 0 <= i < |nodes| ==> nodes[i].prev == Nth(head, nodes, i - 1))
  }

  lemma RingInverse<T>(head: ListHead<T>, nodes: seq<ListHead<T>>, n: ListHead<T>)
    requires Ring(head, nodes) && (n == head || n in nodes)
    ensures n.next.prev == n && n.prev.next == n
  {
    if n != head {
      var i :| 0 <= i < |nodes| && nodes[i] == n;
      assert nodes[i].next == Nth(head, nodes, i + 1) && nodes[i].prev == Nth(head, nodes, i - 1);
      if i + 1 < |nodes| { assert nodes[i + 1].prev == nodes[i]; }
      if i > 0 { assert nodes[i - 1].next == nodes[i]; }
    }
  }

  /** The neighbours of the node at index `k`. */
  lemma Neighbours<T>(head: ListHead<T>, nodes: seq<ListHead<T>>, k: nat)
    requires Ring(head, nodes) && k < |nodes|
    ensures nodes[k].next == Nth(head, nodes, k + 1) && nodes[k].prev == Nth(head, nodes, k - 1)
  {
  }

  /** `nodes` with `p` inserted at index `k`. */
  function Inserted<X>(nodes: seq<X>, k: nat, p: X): seq<X>
    requires k <= |nodes|
  {
    nodes[..k] + [p] + nodes[k..]
  }

  function Removed<X>(nodes: seq<X>, k: nat): seq<X>
    requires k < |nodes|
  {
    nodes[..k] + nodes[k + 1..]
  }

  /** A node stands at one index alone; the head at none. */
  lemma OnlyAt<T>(head: ListHead<T>, nodes: seq<ListHead<T>>, k: int)
    requires Distinct(head, nodes)
    ensures forall j :: 0 <= j < |nodes| && j != k ==> nodes[j] != Nth(head, nodes, k)
    ensures head !in nodes
  {
  }

  lemma RemovedDistinct<T>(head: ListHead<T>, nodes: seq<ListHead<T>>, k: nat)
    requires Distinct(head, nodes) && k < |nodes|
    ensures Distinct(head, Removed(nodes, k)) && nodes[k] !in Removed(nodes, k)
  {
  }

  lemma InsertedDistinct<T>(head: ListHead<T>, nodes: seq<ListHead<T>>, k: nat, p: ListHead<T>)
    requires Distinct(head, nodes) && k <= |nodes| && p != head && p !in nodes
    ensures Distinct(head, Inserted(nodes, k, p))
  {
  }

  method ListInsert<T>(p: ListHead<T>, prev: ListHead<T>, next: ListHead<T>,
                       ghost head: ListHead<T>, ghost nodes: seq<ListHead<T>>, ghost k: nat)
    requires Ring(head, nodes) && p != head && p !in nodes
    requires k <= |nodes| && prev == Nth(head, nodes, k - 1) && next == Nth(head, nodes, k)
    modifies p`next, p`prev, next`prev, prev`next
    ensures Ring(head, Inserted(nodes, k, p))
  {
    ghost var all := Inserted(nodes, k, p);
    hide Distinct;
    OnlyAt(head, nodes, k - 1);
    OnlyAt(head, nodes, k);
    InsertedDistinct(head, nodes, k, p);
    assert forall j :: 0 <= j < |nodes| ==> nodes[j] != p;
    next.prev := p;
    p.next := next;
    p.prev := prev;
    prev.next := p;
    forall i | 0 <= i < |all| ensures all[i].next == Nth(head, all, i + 1) && all[i].prev == Nth(head, all, i - 1) {
      if i != k {
        var j := if i < k then i else i - 1;
        assert all[i] == nodes[j] && old(nodes[j].next) == Nth(head, nodes, j + 1);
        assert old(nodes[j].prev) == Nth(head, nodes, j - 1);
      }
    }
  }

  method ListAdd<T>(p: ListHead<T>, list: ListHead<T>, ghost nodes: seq<ListHead<T>>)
    requires Ring(list, nodes) && p != list && p !in nodes
    modifies p`next, p`prev, list`next, list.next`prev
    ensures Ring(list, [p] + nodes)
  {
    var first := list.next;
    p.next := first;
    first.prev := p;
    list.next := p;
    p.prev := list;
  }

  method ListAddTail<T>(p: ListHead<T>, list: ListHead<T>, ghost nodes: seq<ListHead<T>>)
    requires Ring(list, nodes) && p != list && p !in nodes
    modifies p`next, p`prev, list`prev, list.prev`next
    ensures Ring(list, nodes + [p])
  {
    var last := list.prev;
    last.next := p;
    p.prev := last;
    p.next := list;
    list.prev := p;
  }

  /** Unlinks `p`. The node's own pointers are left as they were. */
  method ListDel<T>(p: ListHead<T>, ghost head: ListHead<T>, ghost nodes: seq<ListHead<T>>, ghost k: nat)
    requires Ring(head, nodes) && k < |nodes| && p == nodes[k]
    modifies p.prev`next, p.next`prev
    ensures Ring(head, Removed(nodes, k))
    ensures p.next == old(p.next) && p.prev == old(p.prev)
  {
    ghost var rest := Removed(nodes, k);
    hide Distinct;
    OnlyAt(head, nodes, k - 1);
    OnlyAt(head, nodes, k);
    OnlyAt(head, nodes, k + 1);
    RemovedDistinct(head, nodes, k);
    p.prev.next := p.next;
    p.next.prev := p.prev;
    forall i | 0 <= i < |rest|
      ensures rest[i].next == Nth(head, rest, i + 1) && rest[i].prev == Nth(head, rest, i - 1)
    {
      var j := if i < k then i else i + 1;
      assert rest[i] == nodes[j] && old(nodes[j].next) == Nth(head, nodes, j + 1);
      assert old(nodes[j].prev) == Nth(head, nodes, j - 1);
    }
  }

  method ListEmpty<T>(list: ListHead<T>, ghost nodes: seq<ListHead<T>>) returns (empty: bool)
    requires Ring(list, nodes)
    ensures empty <==> nodes == []
  {
    empty := list.next == list;
  }

  /** Adding a node and deleting it again gives back the list, wherever it went in. */
  lemma RemovedInserted<X>(nodes: seq<X>, k: nat, p: X)
    requires k <= |nodes|
    ensures Removed(Inserted(nodes, k, p), k) == nodes
  {
  }

  /** A circle is determined by its head: the pointers leave no choice of node sequence. */
  lemma RingUnique<T>(head: ListHead<T>, a: seq<ListHead<T>>, b: seq<ListHead<T>>)
    requires Ring(head, a) && Ring(head, b)
    ensures a == b
  {
    var n := if |a| <= |b| then |a| else |b|;
    RingPrefix(head, a, b, n);
    if n > 0 {
      assert a[n - 1] == a[..n][n - 1] == b[..n][n - 1] == b[n - 1];
      assert a[n - 1].next == Nth(head, a, n) && b[n - 1].next == Nth(head, b, n);
    }
  }

  lemma {:induction false} RingPrefix<T>(head: ListHead<T>, a: seq<ListHead<T>>, b: seq<ListHead<T>>, n: nat)
    requires Ring(head, a) && Ring(head, b) && n <= |a| && n <= |b|
    ensures a[..n] == b[..n]
    decreases n
  {
    if n > 1 {
      RingPrefix(head, a, b, n - 1);
      assert a[n - 2] == a[..n - 1][n - 2] == b[..n - 1][n - 2] == b[n - 2];
      assert a[n - 2].next == a[n - 1] && b[n - 2].next == b[n - 1];
    }
  }
}
