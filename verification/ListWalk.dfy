/** Walking along a list while the nodes that are met may leave it or go to its end: the loops of
    process_timeouts and handle_error (ares_process.c), which note the next node before they handle the
    current one. On the nodes this comes to the walk by index that the engine makes on its sequences. */
module ListWalk {
  import opened Seqs
  import opened Clock
  import opened Engine
  import opened EngineInv
  import opened EngineSteps
  import opened EngineOps
  import opened EngineTimers
  import opened LinkedLists

  /** What handling a query does to its place in the list that is walked along. */
  datatype Fate = Stays | GoesLast | Leaves

  function Visit<T>(list: seq<T>, i: nat, fate: Fate): (r: seq<T>)
    requires i < |list|
    ensures |r| == if fate == Leaves then |list| - 1 else |list|
    ensures i + 1 < |list| ==> r[if fate == Stays then i + 1 else i] == list[i + 1]
  {
    match fate
    case Stays => list
    case GoesLast => list[..i] + list[i + 1..] + [list[i]]
    case Leaves => list[..i] + list[i + 1..]
  }

  /** The index of the node noted before the visit, if there was one. */
  function Next(n: nat, i: nat, fate: Fate): Option<nat> {
    if i + 1 < n then Some(if fate == Stays then i + 1 else i) else None
  }

  /** The walk by index, for as many visits as there are fates. */
  function AfterWalk<T>(list: seq<T>, cur: Option<nat>, fates: seq<Fate>): seq<T>
    requires cur.Some? ==> cur.value < |list|
    decreases |fates|
  {
    if cur.None? || fates == [] then list
    else AfterWalk(Visit(list, cur.value, fates[0]), Next(|list|, cur.value, fates[0]), fates[1..])
  }

  /** What the walk meets, in order. */
  function Met<T>(list: seq<T>, cur: Option<nat>, fates: seq<Fate>): seq<T>
    requires cur.Some? ==> cur.value < |list|
    decreases |fates|
  {
    if cur.None? || fates == [] then []
    else [list[cur.value]] + Met(Visit(list, cur.value, fates[0]), Next(|list|, cur.value, fates[0]), fates[1..])
  }

  function First(n: nat): Option<nat> { if n == 0 then None else Some(0) }

  // ---------- the same walk on the nodes ----------

  lemma HeadEnds(head: ListNode, nodes: seq<ListNode>)
    requires List(head, nodes)
    ensures head.prev == if nodes == [] then head else nodes[|nodes| - 1]
    ensures head.next == if nodes == [] then head else nodes[0]
    ensures head !in nodes && NoDup(nodes)
  {
    Neighbours(head, nodes, 0);
    Neighbours(head, nodes, |nodes|);
  }

  lemma NextNode(head: ListNode, nodes: seq<ListNode>, i: nat)
    requires List(head, nodes) && i < |nodes|
    ensures nodes[i].next == (if i + 1 < |nodes| then nodes[i + 1] else head) && nodes[i].prev != null
  {
    Neighbours(head, nodes, i);
    var c := Circle(head, nodes);
    assert c[i + 1] == nodes[i] && c[i + 2] == if i + 1 < |nodes| then nodes[i + 1] else head;
  }

  lemma Others(head: ListNode, nodes: seq<ListNode>, i: nat)
    requires head !in nodes && NoDup(nodes) && i < |nodes|
    ensures var rest := nodes[..i] + nodes[i + 1..];
      && nodes[i] !in [head] + rest && (forall n :: n in rest ==> n in nodes)
      && rest[..|rest|] + [nodes[i]] + rest[|rest|..] == rest + [nodes[i]] && (rest + [head])[|rest|] == head
  {
    var rest := nodes[..i] + nodes[i + 1..];
    assert rest[..|rest|] == rest && rest[|rest|..] == [];
    assert rest + [nodes[i]] + [] == rest + [nodes[i]];
  }

  method MoveNode(head: ListNode, node: ListNode, fate: Fate, ghost nodes: seq<ListNode>, ghost i: nat)
    requires List(head, nodes) && i < |nodes| && node == nodes[i]
    modifies head`prev, head`next, nodes`prev, nodes`next
    ensures List(head, Visit(nodes, i, fate))
  {
    hide *;
    VisitIs(nodes, i, fate);
    if fate == Stays {
      return;
    }
    HeadEnds(head, nodes);
    NextNode(head, nodes, i);
    Others(head, nodes, i);
    PrevInside(head, nodes, i);
    ghost var rest := nodes[..i] + nodes[i + 1..];
    RemoveFromList(node, head, nodes, i);
    if fate == GoesLast {
      HeadEnds(head, rest);
      InsertInList(node, head, head, rest, |rest|);
    }
  }

  lemma VisitIs<T>(list: seq<T>, i: nat, fate: Fate)
    requires i < |list|
    ensures fate == Stays ==> Visit(list, i, fate) == list
    ensures fate == GoesLast ==> Visit(list, i, fate) == list[..i] + list[i + 1..] + [list[i]]
    ensures fate == Leaves ==> Visit(list, i, fate) == list[..i] + list[i + 1..]
  {
  }

  lemma PrevInside(head: ListNode, nodes: seq<ListNode>, i: nat)
    requires List(head, nodes) && i < |nodes|
    ensures nodes[i].prev == if i == 0 then head else nodes[i - 1]
  {
    Neighbours(head, nodes, i);
    var c := Circle(head, nodes);
    assert c[i] == if i == 0 then head else nodes[i - 1];
    assert c[i + 1] == nodes[i];
  }

  lemma VisitMembers(nodes: seq<ListNode>, i: nat, fate: Fate)
    requires i < |nodes|
    ensures forall j :: 0 <= j < |Visit(nodes, i, fate)| ==> Visit(nodes, i, fate)[j] in nodes
  {
  }

  /** The nodes hold these queries, in this order. */
  ghost predicate Holds(nodes: seq<ListNode>, ids: seq<nat>)
    reads nodes`data
  {
    |nodes| == |ids| && forall i :: 0 <= i < |nodes| ==> nodes[i].data == Some(ids[i])
  }

  lemma {:induction false} WalkedHolds(nodes: seq<ListNode>, ids: seq<nat>, cur: Option<nat>, fates: seq<Fate>)
    requires Holds(nodes, ids) && (cur.Some? ==> cur.value < |nodes|)
    ensures Holds(AfterWalk(nodes, cur, fates), AfterWalk(ids, cur, fates))
    decreases |fates|
  {
    if cur.Some? && fates != [] {
      VisitHolds(nodes, ids, cur.value, fates[0]);
      WalkedHolds(Visit(nodes, cur.value, fates[0]), Visit(ids, cur.value, fates[0]), Next(|nodes|, cur.value, fates[0]), fates[1..]);
    }
    hide Visit, Holds;
  }

  lemma VisitHolds(nodes: seq<ListNode>, ids: seq<nat>, i: nat, fate: Fate)
    requires Holds(nodes, ids) && i < |nodes|
    ensures Holds(Visit(nodes, i, fate), Visit(ids, i, fate))
  {
  }

  /** The loop over the nodes. What handling does to a node is read from fates; the next node is noted
      first. Nodes and queries end up as the walk by index says. */
  method WalkNodes(head: ListNode, fates: seq<Fate>, ghost nodes: seq<ListNode>, ghost ids: seq<nat>)
      returns (ghost after: seq<ListNode>)
    requires List(head, nodes) && Holds(nodes, ids)
    modifies head`prev, head`next, nodes`prev, nodes`next
    ensures List(head, after) && after == AfterWalk(nodes, First(|nodes|), fates)
    ensures Holds(after, AfterWalk(ids, First(|ids|), fates))
  {
    hide *;
    HeadEnds(head, nodes);
    FirstIs(|nodes|);
    var node := head.next;
    after := nodes;
    ghost var cur: Option<nat> := First(|nodes|);
    var k := 0;
    assert fates[0..] == fates;
    while node != head && k < |fates|
      invariant 0 <= k <= |fates| && List(head, after)
      invariant forall j :: 0 <= j < |after| ==> after[j] in nodes
      invariant cur.Some? ==> cur.value < |after|
      invariant node == if cur.Some? then after[cur.value] else head
      invariant AfterWalk(after, cur, fates[k..]) == AfterWalk(nodes, First(|nodes|), fates)
    {
      ghost var i := if cur.Some? then cur.value else 0;
      NextNode(head, after, i);
      WalkedTurn(after, i, fates, k);
      VisitMembers(after, i, fates[k]);
      NextIs(|after|, i, fates[k]);
      var next := node.next;
      ghost var was := after;
      MoveNode(head, node, fates[k], after, i);
      after, cur := Visit(was, i, fates[k]), Next(|was|, i, fates[k]);
      node := next;
      k := k + 1;
    }
    HeadEnds(head, after);
    WalkedEnd(after, cur, fates[k..]);
    HoldsSize(nodes, ids);
    WalkedHolds(nodes, ids, First(|nodes|), fates);
  }

  lemma HoldsSize(nodes: seq<ListNode>, ids: seq<nat>)
    requires Holds(nodes, ids)
    ensures |nodes| == |ids|
  {
  }

  lemma FirstIs(n: nat)
    ensures First(n) == if n == 0 then None else Some(0)
  {
  }

  lemma NextIs(n: nat, i: nat, fate: Fate)
    ensures Next(n, i, fate) == if i + 1 < n then Some(if fate == Stays then i + 1 else i) else None
  {
  }

  lemma WalkedTurn<T>(list: seq<T>, i: nat, fates: seq<Fate>, k: nat)
    requires i < |list| && k < |fates|
    ensures Next(|list|, i, fates[k]).Some? ==> Next(|list|, i, fates[k]).value < |Visit(list, i, fates[k])|
    ensures AfterWalk(list, Some(i), fates[k..]) == AfterWalk(Visit(list, i, fates[k]), Next(|list|, i, fates[k]), fates[k + 1..])
  {
    assert fates[k..][0] == fates[k] && fates[k..][1..] == fates[k + 1..];
    hide Visit;
  }

  lemma WalkedEnd<T>(list: seq<T>, cur: Option<nat>, fates: seq<Fate>)
    requires (cur.Some? ==> cur.value < |list|) && (cur.None? || fates == [])
    ensures AfterWalk(list, cur, fates) == list
  {
  }

  // ---------- the timer bucket ----------

  /** What the expiry of a due query does to its bucket. */
  function FateOf(before: seq<nat>, after: seq<nat>, i: nat): Fate
    requires i < |before|
  {
    if after == before[..i] + before[i + 1..] then Leaves else GoesLast
  }

  /** The engine's walk along a timer bucket is such a walk: the queries that are not due stay, and the others
      leave the bucket or go to its end. */
  lemma {:induction false} BucketWalk(st: State, b: nat, cur: Option<nat>, now: Time) returns (fates: seq<Fate>)
    requires Inv(st) && ClockFine(st, now) && b < TIMEOUT_TABLE && |st.byTimeout| == TIMEOUT_TABLE
    requires cur.Some? ==> cur.value < |st.byTimeout[b]|
    ensures |Walk(st, b, cur, now).byTimeout| == TIMEOUT_TABLE
    ensures Walk(st, b, cur, now).byTimeout[b] == AfterWalk(st.byTimeout[b], cur, fates)
    decreases Budget(st.all, st.queries, Limit(st.cfg)), if cur.Some? then |st.byTimeout[b]| - cur.value else 0
  {
    hide *;
    WalkIs(st, b, cur, now);
    var list := st.byTimeout[b];
    if cur.None? {
      fates := [];
      WalkedEnd(list, cur, fates);
    } else {
      var i := cur.value;
      var id := list[i];
      var more := i + 1 < |list|;
      var fate := Stays;
      if Due(now, st.queries[id]) {
        var a := Expire(st, id, now);
        ExpiredMoved(st, a, id, now);
        BucketShape(st, a, b, i);
        fate := FateOf(list, a.byTimeout[b], i);
        FateIs(list, a.byTimeout[b], i);
        fates := BucketWalk(a, b, if more then Some(i) else None, now);
      } else {
        VisitIs(list, i, fate);
        fates := BucketWalk(st, b, if more then Some(i + 1) else None, now);
      }
      NextIs(|list|, i, fate);
      var all := [fate] + fates;
      assert all[0..] == all && all[1..] == fates;
      WalkedTurn(list, i, all, 0);
      fates := all;
    }
  }

  lemma ExpiredMoved(st: State, r: State, id: nat, now: Time)
    requires Expired(st, r, id, now)
    ensures Moved(st, r, id)
  {
    hide Inv, Moved, Later;
  }

  lemma FateIs(before: seq<nat>, after: seq<nat>, i: nat)
    requires i < |before|
    requires var rest := before[..i] + before[i + 1..]; after == rest || after == rest + [before[i]]
    ensures FateOf(before, after, i) != Stays && after == Visit(before, i, FateOf(before, after, i))
  {
  }

  // ---------- the list of handle_error ----------

  /** When every query leaves, each is met once, in order, and nothing is left. */
  lemma {:induction false} AllLeave<T>(list: seq<T>, fates: seq<Fate>)
    requires |fates| == |list| && forall i :: 0 <= i < |fates| ==> fates[i] == Leaves
    ensures AfterWalk(list, First(|list|), fates) == [] && Met(list, First(|list|), fates) == list
    decreases |list|
  {
    hide *;
    FirstIs(|list|);
    if list == [] {
      WalkedEnd(list, None, fates);
      MetEnd(list, fates);
    } else {
      VisitIs(list, 0, Leaves);
      NextIs(|list|, 0, Leaves);
      FirstIs(|list| - 1);
      assert list[..0] + list[1..] == list[1..];
      AllLeave(list[1..], fates[1..]);
      assert fates[0..] == fates;
      WalkedTurn(list, 0, fates, 0);
      MetTurn(list, 0, fates);
      assert list == [list[0]] + list[1..];
    }
  }

  lemma MetEnd<T>(list: seq<T>, fates: seq<Fate>)
    ensures Met(list, None, fates) == []
  {
  }

  lemma MetTurn<T>(list: seq<T>, i: nat, fates: seq<Fate>)
    requires i < |list| && fates != []
    ensures Next(|list|, i, fates[0]).Some? ==> Next(|list|, i, fates[0]).value < |Visit(list, i, fates[0])|
    ensures Met(list, Some(i), fates) == [list[i]] + Met(Visit(list, i, fates[0]), Next(|list|, i, fates[0]), fates[1..])
  {
    hide Visit;
  }
}
