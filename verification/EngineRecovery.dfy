/** What becomes of queries when a connection fails: they leave it, and while the outside world permits they
    are sent again on a new one. */
module EngineRecovery {
  import opened Seqs
  import opened Clock
  import opened Engine
  import opened EngineInv
  import opened EngineTurns
  import opened EngineSteps
  import opened EngineOps
  import opened EngineApi
  import opened EngineSend

  // ---------- the closed connection is behind everybody ----------

  /** Once an open connection has been closed, no live query bears the stamp of the server's present
      incarnation: each may be queued there again. */
  lemma ClosedIsStale(st: State, s: nat, x: Option<nat>)
    requires Core(st, x) && s < st.cfg.nservers && st.servers[s].tcpOpen
    ensures var r := CloseSockets(st, s);
      forall id :: id in r.queries ==>
        |r.queries[id].info| == st.cfg.nservers && r.queries[id].info[s].generation < r.servers[s].generation
  {
    var r := CloseSockets(st, s);
    forall id | id in r.queries
      ensures |r.queries[id].info| == st.cfg.nservers && r.queries[id].info[s].generation < r.servers[s].generation
    {
      assert Sane(st, id);
    }
    hide Core, Sane;
  }

  /** A connection that is opened, and one that is closed, gives its server an incarnation that no server of
      the channel has had before. */
  lemma NewIncarnation(st: State, s: nat, x: Option<nat>)
    requires Core(st, x) && s < st.cfg.nservers
    ensures var r := if st.servers[s].tcpOpen then CloseSockets(st, s) else OpenTcp(st, s);
      && (r.servers[s].tcpOpen <==> !st.servers[s].tcpOpen)
      && r.servers[s].generation > st.generation && r.generation == r.servers[s].generation
      && forall t :: 0 <= t < |st.servers| ==> st.servers[t].generation <= st.generation
  {
    assert ServersOk(st) && WF(st);
    hide Core;
  }

  // ---------- next_server when nothing fails ----------

  /** Every socket opens, every allocation succeeds and every write goes through. */
  ghost predicate AllWell(cfg: Config) {
    forall n: nat :: cfg.env(n).opens && cfg.env(n).allocates && cfg.env(n).writes
  }

  /** The server k places after this one. */
  function Place(server: nat, k: nat, n: nat): (s: nat)
    requires n >= 1
    ensures s < n
  {
    (server + k) % n
  }

  /** The server k places on would take the query: it is not broken, the query has not given up on it, and it
      has not been queued on its present connection. */
  ghost predicate Takes(st: State, id: nat, k: nat)
    requires WF(st) && id in st.queries
  {
    var q := st.queries[id];
    var t := Place(q.server, k, st.cfg.nservers);
    !st.servers[t].broken && !q.info[t].skip && (q.usingTcp ==> q.info[t].generation != st.servers[t].generation)
  }

  lemma PlaceOn(a: nat, n: nat, k: nat)
    requires n >= 1 && k >= 1
    ensures Place((a + 1) % n, k - 1, n) == Place(a, k, n) && (a + 1) % n == Place(a, 1, n)
  {
    var d, r := (a + 1) / n, (a + 1) % n;
    assert a + 1 == n * d + r;
    var e, u := (r + (k - 1)) / n, (r + (k - 1)) % n;
    assert r + (k - 1) == n * e + u;
    Distrib(n, d, e);
    ModIs(a + k, n, d + e, u);
  }

  lemma AdvanceTakes(st: State, id: nat, k: nat)
    requires WF(st) && id in st.queries && k >= 1
    ensures var a := Advance(st, id);
      && id in a.queries && a.cfg == st.cfg && a.servers == st.servers && a.generation == st.generation
      && a.queries[id].tryCount == st.queries[id].tryCount + 1 && a.queries[id].tcpbuf == st.queries[id].tcpbuf
      && a.queries[id].usingTcp == st.queries[id].usingTcp
      && Place(a.queries[id].server, k - 1, st.cfg.nservers) == Place(st.queries[id].server, k, st.cfg.nservers)
      && (k == 1 ==> Place(st.queries[id].server, 1, st.cfg.nservers) == a.queries[id].server)
      && (Takes(a, id, k - 1) <==> Takes(st, id, k))
      && (Eligible(a, id) <==> Takes(st, id, 1))
  {
    PlaceOn(st.queries[id].server, st.cfg.nservers, k);
    PlaceOn(st.queries[id].server, st.cfg.nservers, 1);
    AdvanceIs(st, id);
    hide Advance, Place;
  }

  lemma AdvanceIs(st: State, id: nat)
    requires WF(st) && id in st.queries
    ensures var a := Advance(st, id);
      var q := st.queries[id];
      var s := (q.server + 1) % st.cfg.nservers;
      && id in a.queries && a.queries[id] == q.(tryCount := q.tryCount + 1, server := s, considered := q.considered + [s])
      && a.cfg == st.cfg && a.servers == st.servers && a.generation == st.generation
  {
  }

  /** What the transmission of this query adds to a send queue. */
  ghost function Added(q: Query, id: nat): seq<Request> {
    if q.usingTcp then [Request(Some(id), q.tcpbuf, false)] else []
  }

  /** The query waits at this server for this attempt; over TCP its whole buffer is at the end of the server's
      queue, on an open connection. */
  ghost predicate Waiting(st: State, r: State, id: nat, server: nat, tryCount: nat)
    requires WF(st) && id in st.queries && server < st.cfg.nservers
  {
    var q := st.queries[id];
    && id in r.queries && r.queries[id].tryCount == tryCount && r.queries[id].server == server
    && |r.servers| == |st.servers|
    && r.servers[server].queue == st.servers[server].queue + Added(q, id)
    && r.servers[server].broken == st.servers[server].broken
    && r.servers[server].generation >= st.servers[server].generation
    && (q.usingTcp ==> r.servers[server].tcpOpen)
  }

  lemma ArmWaits(st: State, id: nat, now: Time, jitter: nat)
    requires WF(st) && id in st.queries
    ensures var r := Arm(st, id, now, jitter);
      id in r.queries && r.queries[id].tryCount == st.queries[id].tryCount && r.queries[id].server == st.queries[id].server
      && |r.servers| == |st.servers|
      && forall s :: 0 <= s < |st.servers| ==> r.servers[s] == st.servers[s].(inflight := r.servers[s].inflight)
  {
    hide Arm, TimeAdd, Backoff, SentEvent;
    ArmIs(st, id, now, jitter);
  }

  /** Incarnations have been given out up to the channel's count. */
  ghost predicate Numbered(st: State) {
    forall s :: 0 <= s < |st.servers| ==> st.servers[s].generation <= st.generation
  }

  /** When nothing fails, transmitting leaves the query waiting at its server. */
  lemma SendWaits(st: State, id: nat, now: Time)
    requires WF(st) && id in st.queries && AllWell(st.cfg) && Numbered(st)
    ensures st.queries[id].server < st.cfg.nservers
    ensures Waiting(st, SendQuery(st, id, now), id, st.queries[id].server, st.queries[id].tryCount)
  {
    var c := Env(st);
    assert c.opens && c.allocates && c.writes;
    hide *;
    var a := st.(step := st.step + 1);
    BumpIs(st);
    SameNumbers(st, a);
    SendQueryIs(st, id, now);
    var s := st.queries[id].server;
    if st.queries[id].usingTcp {
      TransmitIs(a, id, now, c);
      StampWaits(a, id);
      ArmWaits(Stamp(QueueRequest(OpenTcp(a, s), id), id), id, now, c.jitter);
    } else {
      UdpWaits(a, s);
      ArmWaits(OpenUdp(a, s), id, now, c.jitter);
    }
    AddedIs(st.queries[id], id);
    assert st.servers[s].queue + [] == st.servers[s].queue;
    WaitingIs(st, SendQuery(st, id, now), id, s, st.queries[id].tryCount);
  }

  lemma SameNumbers(st: State, a: State)
    requires Numbered(st) && a.servers == st.servers && a.generation == st.generation
    ensures Numbered(a)
  {
  }

  lemma AddedIs(q: Query, id: nat)
    ensures Added(q, id) == if q.usingTcp then [Request(Some(id), q.tcpbuf, false)] else []
  {
  }

  lemma StampWaits(st: State, id: nat)
    requires WF(st) && id in st.queries && st.queries[id].server < st.cfg.nservers && Numbered(st)
    ensures var d := Stamp(QueueRequest(OpenTcp(st, st.queries[id].server), id), id);
      var s := st.queries[id].server;
      && id in d.queries && d.queries[id].tryCount == st.queries[id].tryCount && d.queries[id].server == s
      && |d.servers| == |st.servers| && s < |st.servers|
      && d.servers[s].queue == st.servers[s].queue + [Request(Some(id), st.queries[id].tcpbuf, false)]
      && d.servers[s].tcpOpen && d.servers[s].broken == st.servers[s].broken
      && d.servers[s].generation >= st.servers[s].generation
  {
  }

  lemma UdpWaits(st: State, s: nat)
    requires WF(st) && s < st.cfg.nservers
    ensures OpenUdp(st, s).queries == st.queries && s < |st.servers| && |OpenUdp(st, s).servers| == |st.servers|
    ensures OpenUdp(st, s).servers[s] == st.servers[s].(udpOpen := true)
  {
  }

  lemma WaitingIs(st: State, r: State, id: nat, server: nat, tryCount: nat)
    requires WF(st) && id in st.queries && server < st.cfg.nservers
    ensures Waiting(st, r, id, server, tryCount) <==>
      && id in r.queries && r.queries[id].tryCount == tryCount && r.queries[id].server == server
      && |r.servers| == |st.servers|
      && r.servers[server].queue == st.servers[server].queue + Added(st.queries[id], id)
      && r.servers[server].broken == st.servers[server].broken
      && r.servers[server].generation >= st.servers[server].generation
      && (st.queries[id].usingTcp ==> r.servers[server].tcpOpen)
  {
  }

  /** When nothing fails, next_server leaves the query waiting at the next server in turn that would take it,
      if the attempts reach that far. */
  lemma {:induction false} NextTakes(st: State, id: nat, now: Time, k: nat)
    requires WF(st) && id in st.queries && AllWell(st.cfg) && k >= 1 && st.queries[id].tryCount + k < Limit(st.cfg)
    requires Numbered(st) && Takes(st, id, k) && forall j :: 1 <= j < k ==> !Takes(st, id, j)
    ensures Waiting(st, NextServer(st, id, now), id, Place(st.queries[id].server, k, st.cfg.nservers), st.queries[id].tryCount + k)
    decreases k
  {
    hide *;
    NextServerIs(st, id, now);
    AdvanceTakes(st, id, k);
    ServersExist(st);
    var a := Advance(st, id);
    SameNumbers(st, a);
    AddedIs(st.queries[id], id);
    AddedIs(a.queries[id], id);
    var s, n := Place(st.queries[id].server, k, st.cfg.nservers), st.queries[id].tryCount + k;
    SameLimit(a, st);
    if k == 1 {
      SendWaits(a, id, now);
    } else {
      forall j | 1 <= j < k - 1 ensures !Takes(a, id, j) { AdvanceTakes(st, id, j + 1); }
      assert !Takes(st, id, 1);
      NextTakes(a, id, now, k - 1);
    }
    WaitingIs(a, NextServer(st, id, now), id, s, n);
    WaitingIs(st, NextServer(st, id, now), id, s, n);
  }

  lemma ServersExist(st: State)
    requires WF(st)
    ensures st.cfg.nservers >= 1 && |st.servers| == st.cfg.nservers
    ensures forall id :: id in st.queries ==> st.queries[id].server < st.cfg.nservers
  {
  }

  lemma SameLimit(a: State, b: State)
    requires a.cfg == b.cfg
    ensures Limit(a.cfg) == Limit(b.cfg)
  {
  }

  // ---------- handle_error moves everybody on ----------

  lemma {:induction false} DrainMoves(st: State, s: nat, now: Time)
    requires Draining(st, s) && ClockFine(st, now)
    ensures var r := Drain(st, s, now);
      && (forall id :: id in r.queries ==> id in st.queries)
      && (forall id :: id in st.limbo && id in r.queries ==> r.queries[id].tryCount > st.queries[id].tryCount)
      && (forall id :: id in st.queries && id !in st.limbo ==> id in r.queries && r.queries[id] == st.queries[id])
    decreases |st.limbo|
  {
    hide *;
    DrainIs(st, s, now);
    if st.limbo != [] {
      DrainTurn(st, s, now);
      LimboParts(st, s);
      var first, rest := st.limbo[0], st.limbo[1..];
      var a := NextServer(SkipServer(st, first, s), first, now);
      MovedOthers(st, a, first);
      DrainMoves(a, s, now);
      assert st.limbo == [first] + rest;
    }
  }

  lemma LimboParts(st: State, s: nat)
    requires Draining(st, s) && st.limbo != []
    ensures st.limbo[0] !in st.limbo[1..] && forall id :: id in st.limbo ==> id in st.queries
  {
    assert NoDup(st.limbo);
    LimboLive(st);
    hide Core, QuietOk;
  }

  lemma MovedOthers(st: State, r: State, id: nat)
    requires Moved(st, r, id)
    ensures forall j :: j != id ==> (j in r.queries <==> j in st.queries)
    ensures forall j :: j != id && j in r.queries ==> r.queries[j] == st.queries[j]
  {
  }

  lemma StolenAre(st: State, s: nat)
    requires Inv(st) && s < st.cfg.nservers
    ensures WF(st) && WF(CloseSockets(st, s))
    ensures var a := Steal(CloseSockets(st, s), s);
      && a.queries == st.queries && a.cfg == st.cfg
      && forall id :: id in a.limbo <==> id in st.queries && st.queries[id].server == s
  {
    CloseSocketsCore(st, s, None);
    var c := CloseSockets(st, s);
    assert InflightOk(c, None) && WF(c) && c.limbo == [] && c.queries == st.queries;
    hide Core, QuietOk, CloseSockets;
    StealLists(c, s);
  }

  /** After an error on a connection every query that was assigned to that server is at a later attempt or has
      ended, and every other query is as it was. */
  lemma ErrorMoves(st: State, s: nat, now: Time)
    requires Inv(st) && s < st.cfg.nservers && ClockFine(st, now)
    ensures var r := HandleError(st, s, now);
      forall id :: id in st.queries ==>
        if st.queries[id].server == s then id in r.queries ==> r.queries[id].tryCount > st.queries[id].tryCount
        else id in r.queries && r.queries[id] == st.queries[id]
  {
    hide *;
    CloseThenSteal(st, s, now);
    StolenAre(st, s);
    HandleErrorIs(st, s, now);
    DrainMoves(Steal(CloseSockets(st, s), s), s, now);
  }

  lemma HandleErrorIs(st: State, s: nat, now: Time)
    requires Inv(st) && s < st.cfg.nservers && ClockFine(st, now)
    ensures WF(st) && WF(CloseSockets(st, s))
    ensures var a := Steal(CloseSockets(st, s), s);
      Draining(a, s) && ClockFine(a, now) && HandleError(st, s, now) == Drain(a, s, now)
  {
    CloseThenSteal(st, s, now);
    hide Core, QuietOk, Drain, Steal, CloseSockets, Draining, ClockFine;
  }

  // ---------- with one server and nothing failing, queries go out again on a new connection ----------

  /** While the queries of the only server move on: it is not broken, nothing queued belongs to a query that
      is still to be moved, and none of those has been queued on the present connection. */
  ghost predicate Requeueing(st: State) {
    && WF(st) && Numbered(st) && st.cfg.nservers == 1 && AllWell(st.cfg) && !st.servers[0].broken
    && (forall i :: 0 <= i < |st.servers[0].queue| ==>
         st.servers[0].queue[i].owner.Some? && st.servers[0].queue[i].owner.value !in st.limbo)
    && (forall id :: id in st.limbo ==> id in st.queries && st.queries[id].info[0].generation < st.servers[0].generation)
  }

  /** The last attempt of a query without queued requests, while another query lives. */
  lemma ExhaustQuiet(st: State, id: nat)
    requires WF(st) && id in st.queries && st.cfg.nservers == 1 && !st.servers[0].broken
    requires forall i :: 0 <= i < |st.servers[0].queue| ==> st.servers[0].queue[i].owner != Some(id)
    requires Exhaust(st, id).all != []
    ensures var r := Exhaust(st, id);
      |r.servers| == 1 && r.servers[0].queue == st.servers[0].queue && !r.servers[0].broken
      && r.servers[0].generation == st.servers[0].generation
  {
    hide *;
    LastSteady(st, id);
    var q := st.queries[id];
    var a := SetQuery(st, id, q.(tryCount := q.tryCount + 1));
    SetQueryServers(st, id, q.(tryCount := q.tryCount + 1));
    ServersExist(a);
    EndQuiet(a, id, q.errorStatus);
  }

  lemma EndQuiet(st: State, id: nat, status: nat)
    requires WF(st) && id in st.queries && st.cfg.nservers == 1 && !st.servers[0].broken
    requires forall i :: 0 <= i < |st.servers[0].queue| ==> st.servers[0].queue[i].owner != Some(id)
    requires EndQuery(st, id, status).all != []
    ensures var r := EndQuery(st, id, status);
      |r.servers| == 1 && r.servers[0].queue == st.servers[0].queue && !r.servers[0].broken
      && r.servers[0].generation == st.servers[0].generation
  {
    var v := st.servers[0];
    var w := ReleaseQueue(v, id, status == SUCCESS, CopiesFor(Env(st), 0));
    assert w.queue == v.queue && !w.broken;
    var f := FreeQuery(Release(st, id, status == SUCCESS), id, status, st.queries[id].timeouts);
    assert f.servers[0] == w.(inflight := f.servers[0].inflight);
    if f.all == [] { ClosedAll(f, 0); }
    hide CloseFrom;
  }

  lemma {:induction false} ClosedAll(st: State, s: nat)
    requires WF(st) && s <= st.cfg.nservers
    ensures CloseFrom(st, s).all == st.all
    decreases st.cfg.nservers - s
  {
    if s < st.cfg.nservers { ClosedAll(CloseSockets(st, s), s + 1); }
  }

  /** One query moves on: the queue only grows, by the query's buffer if it is sent over TCP. */
  lemma RequeueTurn(st: State, now: Time)
    requires Draining(st, 0) && st.limbo != [] && ClockFine(st, now) && Requeueing(st)
    requires var id := st.limbo[0];
      id in st.queries && id in SkipServer(st, id, 0).queries && NextServer(SkipServer(st, id, 0), id, now).all != []
    ensures var id := st.limbo[0];
      var r := NextServer(SkipServer(st, id, 0), id, now);
      && Requeueing(r) && st.servers[0].queue <= r.servers[0].queue
      && (st.queries[id].tryCount + 1 < Limit(st.cfg) ==>
           && id in r.queries && r.queries[id].tryCount == st.queries[id].tryCount + 1
           && r.servers[0].queue == st.servers[0].queue + Added(st.queries[id], id))
  {
    hide *;
    var id := st.limbo[0];
    DrainHead(st, 0);
    RequeueParts(st);
    SkipNothing(st, id);
    RestParts(st, id);
    RestServer(st, id);
    DrainTurn(st, 0, now);
    LimboParts(st, 0);
    var r := NextServer(st, id, now);
    MovedOthers(st, r, id);
    if st.queries[id].tryCount + 1 < Limit(st.cfg) {
      NextTakes(st, id, now, 1);
      WaitingIs(st, r, id, 0, st.queries[id].tryCount + 1);
      AddedIs(st.queries[id], id);
    } else {
      NextServerIs(st, id, now);
      ExhaustQuiet(st, id);
      assert st.servers[0].queue + [] == st.servers[0].queue;
    }
    DrainingWF(r, 0);
    MovedCfg(st, r, id);
    RequeueNext(st, r);
  }

  lemma MovedCfg(st: State, r: State, id: nat)
    requires Moved(st, r, id)
    ensures r.cfg == st.cfg
  {
  }

  lemma DrainingWF(st: State, s: nat)
    requires Draining(st, s)
    ensures WF(st) && Numbered(st) && forall id :: id in st.limbo ==> id in st.queries
  {
    LimboLive(st);
    hide AllOk, QidOk, TimersOk, QueriesOk, LogOk, CallbacksOk, CapsOk, StampsOk, QueuesOk, InflightOk, QuietOk;
  }

  lemma RequeueParts(st: State)
    requires Requeueing(st) && st.limbo != []
    ensures WF(st) && Numbered(st) && st.cfg.nservers == 1 && |st.servers| == 1 && AllWell(st.cfg) && !st.servers[0].broken
    ensures forall i :: 0 <= i < |st.servers[0].queue| ==> st.servers[0].queue[i].owner != Some(st.limbo[0])
    ensures st.limbo[0] in st.queries && |st.queries[st.limbo[0]].info| == 1
    ensures st.queries[st.limbo[0]].info[0].generation < st.servers[0].generation
  {
    assert st.limbo[0] in st.limbo;
    hide AllWell;
  }

  lemma SkipNothing(st: State, id: nat)
    requires WF(st) && id in st.queries && st.cfg.nservers == 1
    ensures SkipServer(st, id, 0) == st
  {
  }

  lemma RestServer(st: State, id: nat)
    requires WF(st) && id in st.queries && AtRest(st, id) && st.cfg.nservers == 1
    requires !st.servers[0].broken && st.queries[id].info[0].generation < st.servers[0].generation
    ensures Takes(st, id, 1)
  {
    hide Spent, Limit;
  }

  /** The condition carries over to the shorter list. */
  lemma RequeueNext(st: State, r: State)
    requires Requeueing(st) && st.limbo != [] && WF(r) && Numbered(r) && r.cfg == st.cfg && r.limbo == st.limbo[1..]
    requires |r.servers| == 1 && !r.servers[0].broken && r.servers[0].generation >= st.servers[0].generation
    requires r.servers[0].queue == st.servers[0].queue ||
      exists data :: r.servers[0].queue == st.servers[0].queue + [Request(Some(st.limbo[0]), data, false)]
    requires st.limbo[0] !in st.limbo[1..]
    requires forall id :: id in r.limbo ==> id in r.queries
    requires forall j :: j != st.limbo[0] && j in r.queries ==> j in st.queries && r.queries[j] == st.queries[j]
    ensures Requeueing(r) && st.servers[0].queue <= r.servers[0].queue
  {
    assert st.limbo == [st.limbo[0]] + st.limbo[1..];
    hide AllWell;
  }

  lemma {:induction false} DrainRequeues(st: State, now: Time, id: nat)
    requires Draining(st, 0) && ClockFine(st, now) && Requeueing(st) && id in st.queries
    requires if id in st.limbo then st.queries[id].usingTcp && st.queries[id].tryCount + 1 < Limit(st.cfg)
             else Request(Some(id), st.queries[id].tcpbuf, false) in st.servers[0].queue
    ensures var r := Drain(st, 0, now);
      && |r.servers| == 1 && id in r.queries
      && r.queries[id].tryCount == st.queries[id].tryCount + (if id in st.limbo then 1 else 0)
      && r.queries[id].tcpbuf == st.queries[id].tcpbuf
      && Request(Some(id), st.queries[id].tcpbuf, false) in r.servers[0].queue
    decreases |st.limbo|
  {
    hide *;
    DrainIs(st, 0, now);
    OneServer(st);
    if st.limbo != [] {
      DrainTurn(st, 0, now);
      LimboParts(st, 0);
      RequeueParts(st);
      var first := st.limbo[0];
      SkipNothing(st, first);
      var a := NextServer(st, first, now);
      MovedOthers(st, a, first);
      MovedCfg(st, a, first);
      SameLimit(a, st);
      assert st.limbo == [first] + st.limbo[1..];
      if id == first { TurnSends(st, now); }
      StillLive(a, 0, id);
      RequeueTurn(st, now);
      AddedIs(st.queries[first], first);
      OneServer(a);
      if id == first { OutcomeBuffer(st, a, id, now); }
      PrefixHas(st.servers[0].queue, a.servers[0].queue, Request(Some(id), st.queries[id].tcpbuf, false));
      DrainRequeues(a, now, id);
    }
  }

  lemma OneServer(st: State)
    requires Requeueing(st)
    ensures WF(st) && st.cfg.nservers == 1 && |st.servers| == 1 && AllWell(st.cfg)
  {
    hide AllWell;
  }

  lemma PrefixHas(p: seq<Request>, q: seq<Request>, r: Request)
    requires p <= q
    ensures r in p ==> r in q
  {
  }

  /** The query is live after its turn. */
  lemma TurnSends(st: State, now: Time)
    requires Draining(st, 0) && st.limbo != [] && ClockFine(st, now) && Requeueing(st)
    requires st.limbo[0] in st.queries && st.queries[st.limbo[0]].tryCount + 1 < Limit(st.cfg)
    ensures WF(st) && st.limbo[0] in NextServer(st, st.limbo[0], now).queries
  {
    hide *;
    var id := st.limbo[0];
    DrainHead(st, 0);
    RequeueParts(st);
    RestParts(st, id);
    RestServer(st, id);
    NextTakes(st, id, now, 1);
    WaitingIs(st, NextServer(st, id, now), id, 0, st.queries[id].tryCount + 1);
  }

  lemma StillLive(st: State, s: nat, id: nat)
    requires Draining(st, s) && id in st.queries
    ensures st.all != []
  {
    assert id in st.all;
    hide Core, QuietOk;
  }

  lemma OutcomeBuffer(st: State, r: State, id: nat, now: Time)
    requires Outcome(st, r, id, now) && id in r.queries
    ensures id in st.queries && r.queries[id].tcpbuf == st.queries[id].tcpbuf
  {
  }

  lemma ClosedOne(st: State)
    requires Inv(st) && st.cfg.nservers == 1 && st.servers != [] && st.servers[0].tcpOpen && AllWell(st.cfg)
    ensures WF(st) && WF(CloseSockets(st, 0)) && Requeueing(Steal(CloseSockets(st, 0), 0))
  {
    hide AllWell;
    ClosedIsStale(st, 0, None);
    StolenAre(st, 0);
    CloseSocketsCore(st, 0, None);
    var c := CloseSockets(st, 0);
    assert ServersOk(c) && Closed(c.servers[0]);
    hide Inv, Core, CloseSockets;
  }

  /** With a single server and nothing else failing: after an error on its open connection, a live TCP query
      that has an attempt left is at its next attempt, and its whole buffer is queued on the connection that
      has been opened anew. */
  lemma ErrorRequeues(st: State, now: Time, id: nat)
    requires Inv(st) && ClockFine(st, now) && st.cfg.nservers == 1 && AllWell(st.cfg)
    requires st.servers != [] && st.servers[0].tcpOpen
    requires id in st.queries && st.queries[id].usingTcp && st.queries[id].tryCount + 1 < Limit(st.cfg)
    ensures var r := HandleError(st, 0, now);
      && id in r.queries && r.queries[id].tryCount == st.queries[id].tryCount + 1
      && |r.servers| == 1 && r.servers[0].tcpOpen
      && Request(Some(id), st.queries[id].tcpbuf, false) in r.servers[0].queue
  {
    hide *;
    CloseThenSteal(st, 0, now);
    StolenAre(st, 0);
    ServerZero(st, id);
    HandleErrorIs(st, 0, now);
    ClosedOne(st);
    var a := Steal(CloseSockets(st, 0), 0);
    SameLimit(a, st);
    DrainRequeues(a, now, id);
    HandleErrorInv(st, 0, now);
    QueueOpen(HandleError(st, 0, now));
  }

  lemma ServerZero(st: State, id: nat)
    requires Inv(st) && st.cfg.nservers == 1 && id in st.queries
    ensures st.queries[id].server == 0
  {
    assert WF(st);
    hide Inv;
  }

  lemma QueueOpen(r: State)
    requires Inv(r)
    ensures forall s :: 0 <= s < |r.servers| && r.servers[s].queue != [] ==> r.servers[s].tcpOpen
  {
    assert ServersOk(r);
    hide Inv;
  }
}
