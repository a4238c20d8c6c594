/** The intrusive circular lists of the channel (ares_llist.c): nodes joined in place by prev and next,
    with a dummy head. The sequences of the engine are the contents of such lists. */
module LinkedLists {
  import opened Seqs

  /** struct list_node; data names the query that the node belongs to, and a head has none. */
  class ListNode {
    var prev: ListNode?
    var next: ListNode?
    var data: Option<nat>

    constructor ()
      ensures prev == null && next == null && data == None
    {
      prev, next, data := null, null, None;
    }
  }

  ghost predicate Linked(a: ListNode, b: ListNode)
    reads a`next, b`prev
  {
    a.next == b && b.prev == a
  }

  /** Each node of the chain is joined to the one after it. */
  ghost predicate Chain(c: seq<ListNode>)
    reads c
  {
    forall i, j {:trigger Linked(c[i], c[j])} :: 0 <= i && j == i + 1 < |c| ==> Linked(c[i], c[j])
  }

  function Circle(head: ListNode, nodes: seq<ListNode>): seq<ListNode> {
    [head] + nodes + [head]
  }

  /** The list behind this head holds exactly these nodes, in this order, read in either direction. */
  ghost predicate List(head: ListNode, nodes: seq<ListNode>)
    reads head, nodes
  {
    head !in nodes && NoDup(nodes) && Chain(Circle(head, nodes))
  }

  /** The neighbours of the node at position k of the circle. */
  lemma Neighbours(head: ListNode, nodes: seq<ListNode>, k: nat)
    requires List(head, nodes) && k <= |nodes|
    ensures var c := Circle(head, nodes);
      && c[k].next == c[k + 1] && c[k + 1].prev == c[k]
      && (k < |nodes| ==> c[k + 1].next == c[k + 2] && c[k + 2].prev == c[k + 1])
  {
    var c := Circle(head, nodes);
    assert Linked(c[k], c[k + 1]);
    if k < |nodes| { assert Linked(c[k + 1], c[k + 2]); }
  }

  method InitListHead(head: ListNode)
    modifies head
    ensures List(head, []) && head.data == None
  {
    head.prev := head;
    head.next := head;
    head.data := None;
  }

  method InitListNode(node: ListNode, d: Option<nat>)
    modifies node
    ensures node.prev == null && node.next == null && node.data == d
  {
    node.prev := null;
    node.next := null;
    node.data := d;
  }

  method IsListEmpty(head: ListNode, ghost nodes: seq<ListNode>) returns (b: bool)
    requires List(head, nodes)
    ensures b <==> nodes == []
  {
    Neighbours(head, nodes, 0);
    b := head.next == head && head.prev == head;
  }

  /** Inserts the node before position k of the list; position |nodes| is the head itself. */
  method InsertInList(newNode: ListNode, oldNode: ListNode, ghost head: ListNode, ghost nodes: seq<ListNode>, ghost k: nat)
    requires List(head, nodes) && k <= |nodes| && oldNode == (nodes + [head])[k] && newNode !in [head] + nodes
    requires oldNode.prev != null
    modifies newNode`prev, newNode`next, oldNode`prev, oldNode.prev`next
    ensures List(head, nodes[..k] + [newNode] + nodes[k..])
  {
    ghost var c, d := Circle(head, nodes), Circle(head, nodes[..k] + [newNode] + nodes[k..]);
    Neighbours(head, nodes, k);
    assert Linked(c[k], c[k + 1]) && c[k + 1] == oldNode;
    assert forall i :: 0 <= i <= |nodes| && c[i] == c[k] ==> i == k;
    assert forall i :: 1 <= i <= |nodes| + 1 && c[i] == oldNode ==> i == k + 1;
    newNode.next := oldNode;
    newNode.prev := oldNode.prev;
    oldNode.prev.next := newNode;
    oldNode.prev := newNode;
    forall i, j | 0 <= i && j == i + 1 < |d|
      ensures Linked(d[i], d[j])
    {
      if i < k { assert d[i] == c[i] && d[j] == c[j]; assert old(Linked(c[i], c[j])); }
      else if i > k + 1 { assert d[i] == c[i - 1] && d[j] == c[j - 1]; assert old(Linked(c[i - 1], c[j - 1])); }
    }
  }

  /** Takes the node out of the list it is in, if any. */
  method RemoveFromList(node: ListNode, ghost head: ListNode, ghost nodes: seq<ListNode>, ghost k: nat)
    requires node.next != null ==> node.prev != null && List(head, nodes) && k < |nodes| && node == nodes[k]
    modifies node`prev, node`next
    modifies (if node.prev != null then {node.prev} else {})`next, (if node.next != null then {node.next} else {})`prev
    ensures node.next == null
    ensures old(node.next) != null ==> List(head, nodes[..k] + nodes[k + 1..]) && node.prev == null
    ensures old(node.next) == null ==> node.prev == old(node.prev)
  {
    if node.next != null {
      ghost var c, d := Circle(head, nodes), Circle(head, nodes[..k] + nodes[k + 1..]);
      Neighbours(head, nodes, k);
      assert forall i :: 0 <= i <= |nodes| && c[i] == c[k] ==> i == k;
      assert forall i :: 1 <= i <= |nodes| + 1 && c[i] == c[k + 2] ==> i == k + 2;
      node.prev.next := node.next;
      node.next.prev := node.prev;
      node.prev := null;
      node.next := null;
      forall i, j | 0 <= i && j == i + 1 < |d|
        ensures Linked(d[i], d[j])
      {
        if i < k { assert d[i] == c[i] && d[j] == c[j]; assert old(Linked(c[i], c[j])); }
        else if i > k { assert d[i] == c[i + 1] && d[j] == c[j + 1]; assert old(Linked(c[i + 1], c[j + 1])); }
      }
    }
  }

  /** A list without its head is still a chain, known by its two ends. */
  lemma Beheaded(head: ListNode, nodes: seq<ListNode>)
    requires List(head, nodes)
    ensures Chain(nodes) && NoDup(nodes) && head !in nodes && head.next != null && head.prev != null
    ensures nodes != [] ==> head.next == nodes[0] && head.prev == nodes[|nodes| - 1]
  {
    var c := Circle(head, nodes);
    Neighbours(head, nodes, 0);
    Neighbours(head, nodes, |nodes|);
    forall i, j | 0 <= i && j == i + 1 < |nodes|
      ensures Linked(nodes[i], nodes[j])
    {
      assert Linked(c[i + 1], c[j + 1]);
    }
  }

  twostate lemma Untouched(nodes: seq<ListNode>)
    requires old(Chain(nodes)) && forall n :: n in nodes ==> n.next == old(n.next) && n.prev == old(n.prev)
    ensures Chain(nodes)
  {
    forall i, j | 0 <= i && j == i + 1 < |nodes|
      ensures Linked(nodes[i], nodes[j])
    {
      assert old(Linked(nodes[i], nodes[j]));
    }
  }

  ghost predicate Apart(head: ListNode, nodes: seq<ListNode>, others: seq<ListNode>) {
    forall n :: n in others ==> n != head && n !in nodes
  }

  lemma CircleApart(a: ListNode, ys: seq<ListNode>, b: ListNode, xs: seq<ListNode>)
    requires a != b && a !in ys && b !in xs && a !in xs && b !in ys && forall n :: n in xs ==> n !in ys
    ensures Apart(a, ys, Circle(b, xs)) && Apart(b, xs, ys)
  {
  }

  lemma ListOf(head: ListNode, nodes: seq<ListNode>)
    requires head !in nodes && NoDup(nodes) && Chain(Circle(head, nodes))
    ensures List(head, nodes)
  {
  }

  /** One half of ares__swap_lists: head takes over the nodes whose old head held these fields. */
  method TakeOver(head: ListNode, empty: bool, prev: ListNode, next: ListNode, data: Option<nat>, ghost nodes: seq<ListNode>,
                  ghost others: seq<ListNode>)
    requires Chain(nodes) && NoDup(nodes) && head !in nodes && (empty <==> nodes == [])
    requires Chain(others) && Apart(head, nodes, others)
    requires nodes != [] ==> next == nodes[0] && prev == nodes[|nodes| - 1]
    modifies head, nodes`prev, nodes`next
    ensures List(head, nodes) && Chain(Circle(head, nodes)) && Chain(others)
    ensures head.data == if empty then None else data
  {
    if empty {
      InitListHead(head);
      Untouched(others);
    } else {
      head.prev, head.next, head.data := prev, next, data;
      next.prev := head;
      prev.next := head;
      Untouched(others);
      ghost var d := Circle(head, nodes);
      forall i, j | 0 <= i && j == i + 1 < |d|
        ensures Linked(d[i], d[j])
      {
        if 0 < i < |nodes| { assert d[i] == nodes[i - 1] && d[j] == nodes[j - 1]; assert old(Linked(nodes[i - 1], nodes[j - 1])); }
      }
    }
  }

  /** Exchanges the contents of two lists: no node is lost, and no node's data changes. */
  method SwapLists(a: ListNode, b: ListNode, ghost xs: seq<ListNode>, ghost ys: seq<ListNode>)
    requires List(a, xs) && List(b, ys) && a != b && a !in ys && b !in xs
    requires forall n :: n in xs ==> n !in ys
    modifies a, b, xs`prev, xs`next, ys`prev, ys`next
    ensures List(a, ys) && List(b, xs)
    ensures a.data == (if ys == [] then None else old(b.data)) && b.data == if xs == [] then None else old(a.data)
  {
    hide *;
    Beheaded(a, xs);
    Beheaded(b, ys);
    var aEmpty := IsListEmpty(a, xs);
    var bEmpty := IsListEmpty(b, ys);
    var aPrev, aNext, aData := a.prev, a.next, a.data;
    var bPrev, bNext, bData := b.prev, b.next, b.data;
    CircleApart(a, ys, b, xs);
    TakeOver(b, aEmpty, aPrev, aNext, aData, xs, ys);
    TakeOver(a, bEmpty, bPrev, bNext, bData, ys, Circle(b, xs));
    ListOf(b, xs);
  }

  /** The queries whose nodes are in the list. */
  ghost function Contents(nodes: seq<ListNode>): (r: seq<Option<nat>>)
    reads nodes
    ensures |r| == |nodes| && forall i :: 0 <= i < |r| ==> r[i] == nodes[i].data
  {
    seq(|nodes|, i requires 0 <= i < |nodes| reads nodes => nodes[i].data)
  }

  /** Taking out one node takes out its query and keeps the order of the others, when no query has two
      nodes in the list: what the engine's steps do to their sequences. */
  lemma RemovedContents(nodes: seq<ListNode>, k: nat)
    requires k < |nodes| && NoDup(Contents(nodes))
    ensures Contents(nodes[..k] + nodes[k + 1..]) == Without(Contents(nodes), nodes[k].data)
  {
    TakenOut(Contents(nodes), k);
    hide Without, NoDup;
    assert Contents(nodes[..k] + nodes[k + 1..]) == Contents(nodes)[..k] + Contents(nodes)[k + 1..];
  }

  lemma TakenOut<T>(s: seq<T>, k: nat)
    requires k < |s| && NoDup(s)
    ensures Without(s, s[k]) == s[..k] + s[k + 1..]
  {
    assert s == (s[..k] + [s[k]]) + s[k + 1..];
    WithoutConcat(s[..k] + [s[k]], s[k + 1..], s[k]);
    WithoutConcat(s[..k], [s[k]], s[k]);
    WithoutAbsent(s[..k], s[k]);
    WithoutAbsent(s[k + 1..], s[k]);
    assert Without([s[k]], s[k]) == [];
    hide Without;
  }
}
