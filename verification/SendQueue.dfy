/** A server's TCP send queue as it is kept: requests joined by next, with pointers to the first and the
    last (ares_process.c, ares__close_sockets.c). Its contents are the queue of the engine's server. */
module SendQueue {
  import opened Seqs
  import opened Clock
  import opened Engine
  import opened EngineSend
  import Framing

  /** struct send_request. */
  class SendRequest {
    var owner: Option<nat>
    var data: seq<byte>
    var copied: bool
    var next: SendRequest?

    constructor (owner: Option<nat>, data: seq<byte>)
      ensures this.owner == owner && this.data == data && !copied && next == null
    {
      this.owner, this.data, copied, next := owner, data, false, null;
    }

    ghost function Value(): Request
      reads this
    {
      Request(owner, data, copied)
    }
  }

  ghost function Values(nodes: seq<SendRequest>): (r: seq<Request>)
    reads nodes
    ensures |r| == |nodes| && forall i :: 0 <= i < |r| ==> r[i] == nodes[i].Value()
  {
    seq(|nodes|, i requires 0 <= i < |nodes| reads nodes => nodes[i].Value())
  }

  /** The nodes hang together by next, and the last one ends the list. */
  ghost predicate Chained(nodes: seq<SendRequest>)
    reads nodes
  {
    && NoDup(nodes)
    && (forall i, j {:trigger nodes[i], nodes[j]} :: 0 <= i && j == i + 1 < |nodes| ==> nodes[i].next == nodes[j])
    && (nodes != [] ==> nodes[|nodes| - 1].next == null)
  }

  lemma ChainedTail(nodes: seq<SendRequest>)
    requires Chained(nodes) && nodes != []
    ensures Chained(nodes[1..]) && nodes[0] !in nodes[1..]
    ensures nodes[0].next == if |nodes| == 1 then null else nodes[1]
    ensures Values(nodes) == [nodes[0].Value()] + Values(nodes[1..])
  {
  }

  /** A node put behind the last one. */
  twostate lemma ChainedMore(nodes: seq<SendRequest>, new last: SendRequest)
    requires old(Chained(nodes)) && last !in nodes && last.next == null
    requires nodes != [] ==> nodes[|nodes| - 1].next == last
    requires forall n :: n in nodes && n != nodes[|nodes| - 1] ==> n.next == old(n.next)
    requires forall n :: n in nodes ==> n.owner == old(n.owner) && n.data == old(n.data) && n.copied == old(n.copied)
    ensures Chained(nodes + [last]) && Values(nodes + [last]) == old(Values(nodes)) + [last.Value()]
  {
  }

  twostate lemma SameLinks(nodes: seq<SendRequest>)
    requires old(Chained(nodes)) && forall n :: n in nodes ==> n.next == old(n.next)
    ensures Chained(nodes)
  {
  }

  twostate lemma SameValues(nodes: seq<SendRequest>)
    requires forall n :: n in nodes ==> n.owner == old(n.owner) && n.data == old(n.data) && n.copied == old(n.copied)
    ensures Values(nodes) == old(Values(nodes))
  {
  }

  lemma ValueIs(n: SendRequest)
    ensures n.Value() == Request(n.owner, n.data, n.copied)
  {
  }

  twostate lemma OldValue(n: SendRequest)
    ensures old(n.Value()) == Request(old(n.owner), old(n.data), old(n.copied))
  {
  }

  /** One turn: the first request goes, or loses its first bytes. */
  lemma TakenIs(q: seq<Request>, left: nat, r: seq<Request>, rest: nat)
    requires q != [] && left > 0
    requires if left >= |q[0].data| then r == q[1..] && rest == (if r == [] then 0 else left - |q[0].data|)
             else r == [q[0].(data := q[0].data[left..])] + q[1..] && rest == 0
    ensures rest > 0 ==> r != []
    ensures AdvanceQueue(q, left) == AdvanceQueue(r, rest)
    ensures |r| < |q| || (|r| == |q| && rest < left)
  {
  }

  lemma AdvanceNone(q: seq<Request>)
    ensures AdvanceQueue(q, 0) == q
  {
  }

  class Queue {
    var qhead: SendRequest?
    var qtail: SendRequest?
    ghost var nodes: seq<SendRequest>

    ghost predicate Valid()
      reads this, nodes
    {
      && Chained(nodes)
      && qhead == (if nodes == [] then null else nodes[0])
      && qtail == (if nodes == [] then null else nodes[|nodes| - 1])
    }

    ghost function Contents(): seq<Request>
      reads this, nodes
    {
      Values(nodes)
    }

    constructor ()
      ensures Valid() && Contents() == []
    {
      qhead, qtail, nodes := null, null, [];
    }

    /** The part of ares__send_query that queues the whole buffer of a query. */
    method Append(owner: nat, tcpbuf: seq<byte>)
      requires Valid()
      modifies this, nodes
      ensures Valid() && (forall n :: n in nodes && n !in old(nodes) ==> fresh(n))
      ensures Contents() == old(Contents()) + [Request(Some(owner), tcpbuf, false)]
    {
      hide *;
      Parts();
      var sendreq := new SendRequest(Some(owner), tcpbuf);
      if qtail != null {
        qtail.next := sendreq;
      } else {
        qhead := sendreq;
      }
      ChainedMore(nodes, sendreq);
      qtail := sendreq;
      nodes := nodes + [sendreq];
      Whole();
      ValueIs(sendreq);
    }

    lemma Head()
      requires Valid()
      ensures qhead == null <==> Contents() == []
      ensures qhead == null <==> qtail == null
      ensures qhead != null ==> nodes != [] && qhead == nodes[0] && Contents()[0] == qhead.Value()
      ensures qhead != null ==> Contents()[0].data == qhead.data
    {
    }

    /** The first request has gone out whole. */
    method TakeFirst()
      requires Valid() && nodes != []
      modifies this
      ensures Valid() && nodes == old(nodes)[1..] && Contents() == old(Contents())[1..]
    {
      hide *;
      Parts();
      ChainedTail(nodes);
      qhead := qhead.next;
      nodes := nodes[1..];
      if qhead == null {
        qtail := null;
      }
      Whole();
    }

    lemma Parts()
      requires Valid()
      ensures Chained(nodes) && Contents() == Values(nodes)
      ensures qhead == (if nodes == [] then null else nodes[0])
      ensures qtail == (if nodes == [] then null else nodes[|nodes| - 1])
    {
    }

    lemma Whole()
      requires Chained(nodes)
      requires qhead == (if nodes == [] then null else nodes[0])
      requires qtail == (if nodes == [] then null else nodes[|nodes| - 1])
      ensures Valid() && Contents() == Values(nodes)
    {
    }

    /** The first request has gone out in part. */
    method TakeBytes(left: nat)
      requires Valid() && nodes != [] && left < |nodes[0].data|
      modifies qhead
      ensures Valid()
      ensures var q := old(Contents()); q != [] && left < |q[0].data| && Contents() == [q[0].(data := q[0].data[left..])] + q[1..]
    {
      hide *;
      Parts();
      ChainedTail(nodes);
      qhead.data := qhead.data[left..];
      SameLinks(nodes);
      SameValues(nodes[1..]);
      ChainedTail(nodes);
      Whole();
      ValueIs(qhead);
      OldValue(qhead);
    }

    /** advance_tcp_send_queue: takes bytes off the front. */
    method Advance(num: nat)
      requires Valid() && (num > 0 ==> Contents() != [])
      modifies this, nodes
      ensures Valid() && exists k :: 0 <= k <= |old(nodes)| && nodes == old(nodes)[k..]
      ensures Contents() == AdvanceQueue(old(Contents()), num)
      ensures qhead == null <==> qtail == null
      ensures Pending(Contents()) == var p := Pending(old(Contents())); if num <= |p| then p[num..] else []
    {
      hide *;
      ghost var was := Contents();
      AdvanceDropsPrefix(was, num);
      var left: nat := num;
      ghost var gone: nat := 0;
      while left > 0
        invariant Valid() && (left > 0 ==> Contents() != []) && AdvanceQueue(Contents(), left) == AdvanceQueue(was, num)
        invariant gone <= |old(nodes)| && nodes == old(nodes)[gone..]
        decreases |Contents()|, left
      {
        ghost var q := Contents();
        ghost var at := left;
        Head();
        if left >= |qhead.data| {
          left := left - |qhead.data|;
          TakeFirst();
          gone := gone + 1;
          Head();
          if qhead == null {
            left := 0;
          }
        } else {
          TakeBytes(left);
          left := 0;
        }
        TakenIs(q, at, Contents(), left);
      }
      AdvanceNone(Contents());
      Head();
    }

    /** The loop of ares__close_sockets. */
    method Drop()
      requires Valid()
      modifies this
      ensures Valid() && Contents() == []
    {
      hide *;
      Parts();
      while qhead != null
        invariant Chained(nodes) && qhead == (if nodes == [] then null else nodes[0])
        decreases |nodes|
      {
        ChainedTail(nodes);
        qhead := qhead.next;
        nodes := nodes[1..];
      }
      qtail := null;
      Whole();
    }
  }

  // ---------- what the other end reads ----------

  /** Each request holds one packet behind its length, as ares_send prepares it. */
  ghost predicate Carries(queue: seq<Request>, packets: seq<seq<byte>>) {
    |queue| == |packets| &&
    forall i :: 0 <= i < |queue| ==> 0 < |packets[i]| < 65536 && queue[i].data == LengthPrefix(|packets[i]|) + packets[i]
  }

  lemma {:induction false} PendingIsFrame(queue: seq<Request>, packets: seq<seq<byte>>)
    requires Carries(queue, packets)
    ensures Pending(queue) == Framing.Frame(packets)
    decreases |queue|
  {
    if queue != [] {
      PendingIsFrame(queue[1..], packets[1..]);
      var n := |packets[0]|;
      assert LengthPrefix(n) == Framing.Prefix(n);
    }
  }

  /** A server that reads the queue off a fresh connection gets exactly the packets, in order. */
  lemma PacketsArrive(queue: seq<Request>, packets: seq<seq<byte>>)
    requires Carries(queue, packets)
    ensures Framing.Unframe(Pending(queue)) == Framing.Split(packets, [])
  {
    PendingIsFrame(queue, packets);
    Framing.UnframeFrame(packets, []);
    Framing.UnframeNothing();
    assert Framing.Frame(packets) + [] == Framing.Frame(packets) && packets + [] == packets;
    hide Framing.Frame, Framing.Unframe, Pending;
  }

  lemma CarriesMore(queue: seq<Request>, packets: seq<seq<byte>>, id: nat, packet: seq<byte>)
    requires Carries(queue, packets) && 0 < |packet| < 65536
    ensures Carries(queue + [Request(Some(id), LengthPrefix(|packet|) + packet, false)], packets + [packet])
  {
  }

  /** ares_send goes out over TCP: the channel insists on it, or the packet is too long for a datagram. */
  ghost predicate OverTcp(cfg: Config, qbuf: seq<byte>) { cfg.usevc || |qbuf| > PACKETSZ }

  lemma AdmittedTcp(st: State, qbuf: seq<byte>)
    requires WF(st) && 12 <= |qbuf| < 65536 && OverTcp(st.cfg, qbuf)
    ensures var a := Admit(st, qbuf);
      && st.nextId in a.queries && a.queries[st.nextId].usingTcp && a.queries[st.nextId].server == st.lastServer
      && a.queries[st.nextId].tcpbuf == LengthPrefix(|qbuf|) + qbuf && Env(a) == Env(st)
  {
  }

  lemma ServersThere(st: State)
    requires WF(st)
    ensures st.lastServer < |st.servers| == st.cfg.nservers
  {
  }

  /** From ares_send to the other end: a packet sent over TCP, when the connection is or comes up and memory
      lasts, is what the server reads after the packets that were waiting; no other server's queue changes. */
  lemma SentArrives(st: State, qbuf: seq<byte>, now: Time, packets: seq<seq<byte>>)
    requires WF(st) && 12 <= |qbuf| < 65536 && OverTcp(st.cfg, qbuf) && Env(st).allocates
    requires st.lastServer < |st.servers| && (st.servers[st.lastServer].tcpOpen || Env(st).opens)
    requires Carries(st.servers[st.lastServer].queue, packets)
    ensures var r := Send(st, qbuf, now);
      && |r.servers| == |st.servers|
      && Framing.Unframe(Pending(r.servers[st.lastServer].queue)) == Framing.Split(packets + [qbuf], [])
      && (forall s :: 0 <= s < |st.servers| && s != st.lastServer ==> r.servers[s].queue == st.servers[s].queue)
  {
    hide *;
    AdmitIs(st, qbuf);
    AdmittedTcp(st, qbuf);
    SendIs(st, qbuf, now);
    var a := Admit(st, qbuf);
    TransmitAppends(a, st.nextId, now);
    ServersThere(a);
    CarriesMore(st.servers[st.lastServer].queue, packets, st.nextId, qbuf);
    PacketsArrive(Send(st, qbuf, now).servers[st.lastServer].queue, packets + [qbuf]);
  }
}
