/** ares_send, ares_cancel and the writing of queued bytes keep the invariant. */
module EngineSend {
  import opened Seqs
  import opened Clock
  import opened Engine
  import opened EngineInv
  import opened EngineTurns
  import opened EngineSteps
  import opened EngineOps
  import opened EngineApi

  // ---------- ares_send ----------

  lemma AdmitIs(st: State, qbuf: seq<byte>)
    requires WF(st) && 12 <= |qbuf| < 65536
    ensures var id := st.nextId;
      var q := NewQuery(st.cfg, qbuf, st.lastServer);
      var r := Admit(st, qbuf);
      && r.queries == st.queries[id := q] && r.all == st.all + [id] && r.nextId == id + 1
      && |r.byQid| == |st.byQid|
      && (forall b :: 0 <= b < QID_TABLE ==>
           r.byQid[b] == st.byQid[b] + if b == QidBucket(q.qid) then [id] else [])
      && r.cfg == st.cfg && r.servers == st.servers && r.byTimeout == st.byTimeout && r.limbo == st.limbo
      && r.log == st.log && r.clockOk == st.clockOk && r.lastTimeout == st.lastTimeout && r.dangling == st.dangling
      && r.generation == st.generation
      && r.lastServer == (if st.cfg.rotate then (st.lastServer + 1) % st.cfg.nservers else st.lastServer)
  {
    hide NewQuery, QidBucket;
    assert forall b :: 0 <= b < QID_TABLE ==> st.byQid[b] + [] == st.byQid[b];
  }

  lemma TurnPasses(cfg: Config, id: nat)
    requires cfg.nservers >= 1
    ensures FirstServer(cfg, id) < cfg.nservers
    ensures FirstServer(cfg, id + 1) == if cfg.rotate then (FirstServer(cfg, id) + 1) % cfg.nservers else FirstServer(cfg, id)
  {
    NextInTurn(0, cfg.nservers, id);
  }

  lemma AdmitLists(st: State, qbuf: seq<byte>)
    requires WF(st) && 12 <= |qbuf| < 65536 && AllOk(st) && QidOk(st)
    ensures var r := Admit(st, qbuf); AllOk(r) && QidOk(r)
  {
    hide Admit, NewQuery, InBucket, QidBucket, FirstServer;
    AdmitIs(st, qbuf);
    AppendNoDup(st.all, st.nextId);
    AppendAscending(st.all, st.nextId);
    TurnPasses(st.cfg, st.nextId);
    var r := Admit(st, qbuf);
    forall b | 0 <= b < QID_TABLE ensures r.byQid[b] == InBucket(r.all, r.queries, b) {
      BucketSame(st.all, st.queries, r.queries, b);
      BucketAppend(st.all, r.queries, b, st.nextId);
    }
  }

  lemma AdmitPlaces(st: State, qbuf: seq<byte>)
    requires WF(st) && 12 <= |qbuf| < 65536 && TimersOk(st, None) && InflightOk(st, None) && AllOk(st)
    ensures var r := Admit(st, qbuf); TimersOk(r, Some(st.nextId)) && InflightOk(r, Some(st.nextId))
  {
    hide Admit, NewQuery, NoDup, Ascending, QidBucket, TimeoutBucket;
    AdmitIs(st, qbuf);
  }

  lemma NewSane(st: State, r: State, qbuf: seq<byte>, id: nat)
    requires WF(st) && WF(r) && 12 <= |qbuf| < 65536 && id in r.queries && r.cfg == st.cfg
    requires r.queries[id] == NewQuery(st.cfg, qbuf, st.lastServer) && ServersOk(r) && st.lastServer == FirstServer(st.cfg, id)
    ensures Sane(r, id)
  {
    ModIs(st.lastServer, st.cfg.nservers, 0, st.lastServer);
  }

  lemma AdmitQueries(st: State, qbuf: seq<byte>)
    requires WF(st) && 12 <= |qbuf| < 65536 && QueriesOk(st, None) && AllOk(st) && ServersOk(st)
    ensures QueriesOk(Admit(st, qbuf), Some(st.nextId))
  {
    hide Admit, NewQuery, Sane, AtRest, NoDup, Ascending, QidBucket;
    AdmitIs(st, qbuf);
    var r := Admit(st, qbuf);
    NewSane(st, r, qbuf, st.nextId);
    forall j | j in r.queries && j != st.nextId ensures Sane(r, j) && AtRest(r, j) { QueryKept(st, r, j); }
  }

  lemma AdmitLog(st: State, qbuf: seq<byte>)
    requires WF(st) && 12 <= |qbuf| < 65536 && AllOk(st) && LogOk(st) && CallbacksOk(st) && CapsOk(st) && StampsOk(st)
    ensures var r := Admit(st, qbuf); LogOk(r) && CallbacksOk(r) && CapsOk(r) && StampsOk(r)
  {
    hide Admit, NewQuery, Sends, Waits, Dones, WaitCap, EndOk, Limit, NoDup, Ascending, QidBucket;
    AdmitIs(st, qbuf);
  }

  lemma AdmitServers(st: State, qbuf: seq<byte>)
    requires WF(st) && 12 <= |qbuf| < 65536 && AllOk(st) && ServersOk(st) && QueuesOk(st)
    ensures var r := Admit(st, qbuf); ServersOk(r) && QueuesOk(r)
  {
    hide Admit, NewQuery, NoDup, Ascending, QueueOk, QidBucket;
    AdmitIs(st, qbuf);
    var r := Admit(st, qbuf);
    forall s | 0 <= s < |r.servers| && !r.dangling ensures QueueOk(r.queries, r.servers[s]) {
      QueueKept(st.queries, r.queries, st.servers[s], r.servers[s]);
    }
  }

  lemma AdmitCore(st: State, qbuf: seq<byte>)
    requires Core(st, None) && 12 <= |qbuf| < 65536
    ensures Core(Admit(st, qbuf), Some(st.nextId))
  {
    hide AllOk, QidOk, TimersOk, InflightOk, QueriesOk, LogOk, CallbacksOk, CapsOk, StampsOk, ServersOk, QueuesOk, Admit;
    AdmitLists(st, qbuf);
    AdmitPlaces(st, qbuf);
    AdmitQueries(st, qbuf);
    AdmitLog(st, qbuf);
    AdmitServers(st, qbuf);
  }

  lemma AdmitPre(st: State, qbuf: seq<byte>)
    requires Core(st, None) && 12 <= |qbuf| < 65536
    ensures WF(st)
    ensures var r := Admit(st, qbuf);
      && st.nextId in r.queries && PreSend(r, st.nextId)
      && forall now :: ClockFine(st, now) ==> ClockFine(r, now)
  {
    var r := Admit(st, qbuf);
    AdmitIs(st, qbuf);
    assert CapsOk(st) && ServersOk(st);
    hide Core, Admit, AllOk, QidOk, TimersOk, InflightOk, QueriesOk, LogOk, CallbacksOk, StampsOk, QueuesOk, Sends, Waits, QidBucket;
    MulMono(st.cfg.nservers, 1, st.cfg.tries);
  }

  /** Everything that was live before stays as it was while a new query is admitted and sent. */
  lemma SendInv(st: State, qbuf: seq<byte>, now: Time)
    requires Inv(st) && ClockFine(st, now)
    ensures WF(st)
    ensures var r := Send(st, qbuf, now);
      && Inv(r)
      && (forall id :: id in st.queries ==> id in r.queries && r.queries[id] == st.queries[id])
      && (forall id :: id in r.queries ==> id in st.queries || id == st.nextId)
  {
    hide *;
    InvParts(st);
    SendIs(st, qbuf, now);
    if |qbuf| < 12 || |qbuf| >= 65536 {
      RejectInv(st);
    } else {
      AdmitIs(st, qbuf);
      AdmitCore(st, qbuf);
      AdmitPre(st, qbuf);
      var a := Admit(st, qbuf);
      CoreWF(a, Some(st.nextId));
      SendQueryCore(a, st.nextId, now);
      var r := SendQuery(a, st.nextId, now);
      SettledParts(a, r, st.nextId, now);
      SendMoved(a, r, st.nextId);
      BackToInv(a, r, st.nextId);
      NewId(st);
    }
  }

  lemma SendIs(st: State, qbuf: seq<byte>, now: Time)
    requires WF(st)
    ensures 12 <= |qbuf| < 65536 ==> st.nextId in Admit(st, qbuf).queries
    ensures Send(st, qbuf, now) ==
      if |qbuf| < 12 || |qbuf| >= 65536 then st.(log := st.log + [Rejected(EBADQUERY)])
      else SendQuery(Admit(st, qbuf), st.nextId, now)
  {
    hide SendQuery;
  }

  lemma NewId(st: State)
    requires Core(st, None)
    ensures st.nextId !in st.queries
  {
  }

  lemma SendMoved(a: State, r: State, id: nat)
    requires Moved(a, r, id)
    ensures r.limbo == Without(a.limbo, id)
    ensures forall j :: j in a.queries && j != id ==> j in r.queries && r.queries[j] == a.queries[j]
    ensures forall j :: j in r.queries && j != id ==> j in a.queries
  {
  }

  lemma RejectInv(st: State)
    requires Inv(st)
    ensures Inv(st.(log := st.log + [Rejected(EBADQUERY)]))
    ensures st.(log := st.log + [Rejected(EBADQUERY)]).queries == st.queries
  {
    var r := st.(log := st.log + [Rejected(EBADQUERY)]);
    forall j: nat
      ensures Sends(r.log, j) == Sends(st.log, j) && Waits(r.log, j) == Waits(st.log, j) && Dones(r.log, j) == Dones(st.log, j)
    {
      Appended(st.log, Rejected(EBADQUERY), j);
    }
    hide LogOk, CallbacksOk, CapsOk, StampsOk, QueriesOk, ServersOk, QueuesOk, AllOk, QidOk, TimersOk, InflightOk, Sends, Waits, Dones;
    RejectLog(st, r);
    RejectQueries(st, r);
    OtherClauses(st, r, None);
  }

  /** Clauses that look neither at the log nor at the flag. */
  lemma OtherClauses(st: State, r: State, x: Option<nat>)
    requires r == st.(log := r.log, dangling := r.dangling)
    ensures AllOk(st) ==> AllOk(r)
    ensures QidOk(st) ==> QidOk(r)
    ensures TimersOk(st, x) ==> TimersOk(r, x)
    ensures InflightOk(st, x) ==> InflightOk(r, x)
    ensures ServersOk(st) ==> ServersOk(r)
    ensures st.dangling == r.dangling && QueuesOk(st) ==> QueuesOk(r)
  {
    hide InBucket, NoDup, Ascending, TimeoutBucket, QueueOk;
  }

  ghost predicate SameTotals(st: State, r: State) {
    forall j: nat :: Sends(r.log, j) == Sends(st.log, j) && Waits(r.log, j) == Waits(st.log, j) && Dones(r.log, j) == Dones(st.log, j)
  }

  lemma RejectLog(st: State, r: State)
    requires WF(st) && WF(r) && LogOk(st) && CallbacksOk(st) && CapsOk(st) && StampsOk(st) && SameTotals(st, r)
    requires r == st.(log := st.log + [Rejected(EBADQUERY)])
    ensures LogOk(r) && CallbacksOk(r) && CapsOk(r) && StampsOk(r)
  {
    hide Sends, Waits, Dones, WaitCap, Limit;
  }

  lemma RejectQueries(st: State, r: State)
    requires WF(st) && WF(r) && QueriesOk(st, None) && SameTotals(st, r)
    requires r == st.(log := st.log + [Rejected(EBADQUERY)])
    ensures QueriesOk(r, None)
  {
    hide Sane, AtRest, Sends, Waits, Dones;
    forall j | j in r.queries ensures Sane(r, j) && AtRest(r, j) { QueryKept(st, r, j); }
  }

  // ---------- ares_cancel ----------

  lemma Redangle(st: State, d: bool, x: Option<nat>)
    requires Core(st, x) && (!d ==> forall s :: 0 <= s < |st.servers| ==> QueueOk(st.queries, st.servers[s]))
    ensures Core(st.(dangling := d), x)
  {
    var r := st.(dangling := d);
    hide LogOk, CallbacksOk, CapsOk, StampsOk, QueriesOk, ServersOk, AllOk, QidOk, TimersOk, InflightOk, QueueOk;
    RedangleQueries(st, r, x);
    RedangleLog(st, r);
    OtherClauses(st, r, x);
  }

  lemma RedangleLog(st: State, r: State)
    requires WF(st) && WF(r) && LogOk(st) && CallbacksOk(st) && CapsOk(st) && StampsOk(st) && r == st.(dangling := r.dangling)
    ensures LogOk(r) && CallbacksOk(r) && CapsOk(r) && StampsOk(r)
  {
    hide Sends, Waits, Dones, WaitCap, EndOk, Limit, TcpSent;
  }

  lemma RedangleQueries(st: State, r: State, x: Option<nat>)
    requires WF(st) && WF(r) && QueriesOk(st, x) && r == st.(dangling := r.dangling)
    ensures QueriesOk(r, x)
  {
    hide Sane, AtRest, Sends, Waits;
    forall j | j in r.queries ensures Sane(r, j) && (x != Some(j) ==> AtRest(r, j)) { QueryKept(st, r, j); }
  }

  lemma CancelledEnd(st: State, id: nat)
    requires WF(st) && id in st.queries && st.queries[id].tryCount < Limit(st.cfg)
    ensures EndOk(st.cfg, Done(id, ECANCELLED, 0, st.queries[id].tryCount, st.queries[id].considered))
  {
    hide Limit;
  }

  lemma AllLive(st: State)
    requires Core(st, None)
    ensures forall id :: id in st.all <==> id in st.queries
  {
  }

  /** The loop of ares_cancel frees every query and leaves the queues as they were. */
  lemma {:induction false} CancelAllCore(st: State)
    requires Core(st, None) && st.dangling && st.limbo == []
    ensures WF(st) && forall id :: id in st.all ==> id in st.queries
    ensures var r := CancelAll(st);
      && Core(r, None) && r.all == [] && r.queries == map[] && r.limbo == [] && SameQueues(st.servers, r.servers)
      && Kept(st, r) && r.cfg == st.cfg
    decreases |st.all|
  {
    hide *;
    CoreWF(st, None);
    AllLive(st);
    CancelAllIs(st);
    if st.all == [] {
      NoneLive(st);
      SameQueuesSelf(st.servers);
      KeptSelf(st);
    } else {
      var id := st.all[0];
      RestParts(st, id);
      Depart(st, id);
      CancelledEnd(st, id);
      FreeCore(st, id, ECANCELLED, 0);
      var a := FreeQuery(st, id, ECANCELLED, 0);
      FreeKept(st, id);
      FreedShorter(st.all, id);
      CancelAllCore(a);
      SameQueuesTrans(st.servers, a.servers, CancelAll(a).servers);
      SameConfig(st, a);
      KeptTrans(st, a, CancelAll(a));
    }
  }

  lemma CancelAllIs(st: State)
    requires WF(st) && forall id :: id in st.all ==> id in st.queries
    ensures st.all == [] ==> CancelAll(st) == st
    ensures st.all != [] ==>
      var a := FreeQuery(st, st.all[0], ECANCELLED, 0);
      (forall id :: id in a.all ==> id in a.queries) && CancelAll(st) == CancelAll(a)
  {
    if st.all != [] { FreedShorter(st.all, st.all[0]); }
    hide UnlinkServers, Unlink;
  }

  lemma NoneLive(st: State)
    requires Core(st, None) && st.all == []
    ensures st.queries == map[]
  {
    assert forall id :: id in st.queries ==> id in st.all;
  }

  ghost predicate SameQueues(v: seq<Server>, w: seq<Server>) {
    |w| == |v| && forall s :: 0 <= s < |v| ==> w[s].queue == v[s].queue && w[s].broken == v[s].broken
  }

  lemma SameConfig(st: State, r: State)
    requires Kept(st, r)
    ensures r.cfg == st.cfg && r.dangling == st.dangling
  {
  }

  lemma SameQueuesSelf(v: seq<Server>)
    ensures SameQueues(v, v)
  {
  }

  lemma SameQueuesTrans(a: seq<Server>, b: seq<Server>, c: seq<Server>)
    requires SameQueues(a, b) && SameQueues(b, c)
    ensures SameQueues(a, c)
  {
  }

  lemma FreeKept(st: State, id: nat)
    requires WF(st) && id in st.queries && st.limbo == []
    ensures var a := FreeQuery(st, id, ECANCELLED, 0);
      SameQueues(st.servers, a.servers) && a.limbo == [] && a.dangling == st.dangling && a.all == Without(st.all, id) && Kept(st, a)
  {
  }

  /** ares_cancel leaves nothing live, and every index empty; the invariant holds again. */
  lemma CancelInv(st: State)
    requires Inv(st)
    ensures WF(st) && forall id :: id in st.all ==> id in st.queries
    ensures var r := Cancel(st);
      && Inv(r) && r.queries == map[] && r.all == []
      && r.cfg == st.cfg && r.nextId == st.nextId && r.lastTimeout == st.lastTimeout && r.clockOk == st.clockOk
      && (forall b :: 0 <= b < QID_TABLE ==> r.byQid[b] == [])
      && (forall b :: 0 <= b < TIMEOUT_TABLE ==> r.byTimeout[b] == [])
  {
    hide *;
    InvParts(st);
    AllLive(st);
    CancelIs(st);
    Redangle(st, true, None);
    var t := st.(dangling := true);
    CoreWF(t, None);
    CancelAllCore(t);
    var a := CancelAll(t);
    if st.cfg.stayopen {
      var d := st.dangling || Owned(st.servers);
      if !d { CancelStayOpen(st, a); }
      Redangle(a, d, None);
      CancelDone(a.(dangling := d));
      CancelKept(t, a, a.(dangling := d));
    } else {
      CoreWF(a, None);
      CloseFromCore(a, 0, None);
      var b := CloseFrom(a, 0);
      ClosedQueues(b);
      Redangle(b, st.dangling, None);
      SocketStepIs(a, b);
      CancelDone(b.(dangling := st.dangling));
      CancelKept(t, a, b.(dangling := st.dangling));
    }
  }

  lemma CancelKept(t: State, a: State, r: State)
    requires Kept(t, a) && r == a.(servers := r.servers, generation := r.generation, step := r.step, dangling := r.dangling)
    ensures r.cfg == t.cfg && r.nextId == t.nextId && r.lastTimeout == t.lastTimeout && r.clockOk == t.clockOk
  {
  }

  lemma SocketStepIs(a: State, b: State)
    requires SocketStep(a, b)
    ensures b == a.(servers := b.servers, generation := b.generation, step := b.step)
  {
  }

  lemma CancelIs(st: State)
    requires WF(st) && forall id :: id in st.all ==> id in st.queries
    ensures var t := st.(dangling := true);
      && WF(t) && 0 <= CancelAll(t).cfg.nservers && WF(CancelAll(t))
      && Cancel(st) ==
           if st.cfg.stayopen then CancelAll(t).(dangling := st.dangling || Owned(st.servers))
           else CloseFrom(CancelAll(t), 0).(dangling := st.dangling)
  {
    hide CancelAll, CloseFrom, Owned;
  }

  lemma ClosedQueues(b: State)
    requires forall s :: 0 <= s < |b.servers| ==> Closed(b.servers[s])
    ensures forall s :: 0 <= s < |b.servers| ==> QueueOk(b.queries, b.servers[s])
  {
  }

  lemma HeadIn(s: seq<nat>)
    ensures s == [] || s[0] in s
  {
  }

  lemma CancelDone(r: State)
    requires Core(r, None) && r.limbo == [] && r.all == [] && r.queries == map[]
    requires r.cfg.stayopen || forall s :: 0 <= s < |r.servers| ==> Closed(r.servers[s])
    ensures Inv(r)
    ensures forall b :: 0 <= b < QID_TABLE ==> r.byQid[b] == []
    ensures forall b :: 0 <= b < TIMEOUT_TABLE ==> r.byTimeout[b] == []
  {
    forall b | 0 <= b < TIMEOUT_TABLE ensures r.byTimeout[b] == [] {
      assert forall id :: id in r.byTimeout[b] ==> id in r.queries;
      HeadIn(r.byTimeout[b]);
    }
    hide NoDup, Ascending, QueriesOk, LogOk, CallbacksOk, CapsOk, StampsOk, Closed;
  }

  lemma CancelStayOpen(st: State, a: State)
    requires Core(st, None) && !st.dangling && !Owned(st.servers) && SameQueues(st.servers, a.servers)
    ensures forall s :: 0 <= s < |a.servers| ==> QueueOk(a.queries, a.servers[s])
  {
    hide AllOk, QidOk, TimersOk, InflightOk, QueriesOk, LogOk, CallbacksOk, CapsOk, StampsOk, IsSuffix;
    forall s, i | 0 <= s < |a.servers| && 0 <= i < |a.servers[s].queue|
      ensures RequestOk(a.queries, a.servers[s].broken, a.servers[s].queue[i])
    {
      assert QueueOk(st.queries, st.servers[s]);
      assert RequestOk(st.queries, st.servers[s].broken, st.servers[s].queue[i]);
    }
  }

  /** Exactly when every queued request is still sound after ares_cancel: when sockets are closed
      anyway, or when no request points into a query's buffer. */
  lemma CancelDangles(st: State)
    requires Inv(st) && !st.dangling
    ensures WF(st) && forall id :: id in st.all ==> id in st.queries
    ensures var r := Cancel(st);
      (forall s :: 0 <= s < |r.servers| ==> QueueOk(r.queries, r.servers[s])) <==> (!st.cfg.stayopen || !Owned(st.servers))
  {
    hide *;
    InvParts(st);
    AllLive(st);
    CancelIs(st);
    Redangle(st, true, None);
    var t := st.(dangling := true);
    CoreWF(t, None);
    CancelAllCore(t);
    var a := CancelAll(t);
    if !st.cfg.stayopen {
      CloseFromCore(a, 0, None);
      ClosedQueues(CloseFrom(a, 0));
    } else if Owned(st.servers) {
      OwnedFails(st, a);
    } else {
      CancelStayOpen(st, a);
    }
  }

  lemma OwnedFails(st: State, a: State)
    requires Owned(st.servers) && SameQueues(st.servers, a.servers) && a.queries == map[]
    ensures exists s :: 0 <= s < |a.servers| && !QueueOk(a.queries, a.servers[s])
  {
    var s, i :| 0 <= s < |st.servers| && 0 <= i < |st.servers[s].queue| && st.servers[s].queue[i].owner.Some?;
    assert a.servers[s].queue[i].owner.Some?;
    assert !RequestOk(a.queries, a.servers[s].broken, a.servers[s].queue[i]);
  }

  // ---------- advance_tcp_send_queue ----------

  /** The bytes still to be written on a connection, in order. */
  ghost function Pending(queue: seq<Request>): seq<byte> {
    if queue == [] then [] else queue[0].data + Pending(queue[1..])
  }

  /** Sending over TCP, when the connection is or comes up and memory lasts, puts the query's whole buffer at
      the end of its server's queue, leaves every other queue alone, and stamps the query with the
      connection it is queued on. */
  lemma TransmitAppends(st: State, id: nat, now: Time)
    requires WF(st) && id in st.queries && st.queries[id].usingTcp && Env(st).allocates
    requires st.servers[st.queries[id].server].tcpOpen || Env(st).opens
    ensures var r := SendQuery(st, id, now);
      var q := st.queries[id];
      && |r.servers| == |st.servers|
      && r.servers[q.server].queue == st.servers[q.server].queue + [Request(Some(id), q.tcpbuf, false)]
      && r.servers[q.server].tcpOpen
      && (forall s :: 0 <= s < |st.servers| && s != q.server ==> r.servers[s].queue == st.servers[s].queue)
      && id in r.queries && r.queries[id].info[q.server].generation == r.servers[q.server].generation
  {
    hide *;
    var c := Env(st);
    var a := st.(step := st.step + 1);
    SendQueryIs(st, id, now);
    BumpIs(st);
    var s := st.queries[id].server;
    TransmitIs(a, id, now, c);
    var d := Stamp(QueueRequest(OpenTcp(a, s), id), id);
    QueuedThenStamped(a, id);
    ArmIs(d, id, now, c.jitter);
  }

  lemma BumpIs(st: State)
    requires WF(st)
    ensures WF(st.(step := st.step + 1))
    ensures forall id :: id in st.queries ==> st.queries[id].server < st.cfg.nservers == |st.servers|
  {
  }

  lemma TransmitIs(st: State, id: nat, now: Time, c: Choice)
    requires WF(st) && id in st.queries && st.queries[id].server < st.cfg.nservers && c.allocates
    ensures var a := OpenTcp(st, st.queries[id].server);
      && WF(a) && id in a.queries && WF(QueueRequest(a, id)) && id in QueueRequest(a, id).queries
      && WF(Stamp(QueueRequest(a, id), id)) && id in Stamp(QueueRequest(a, id), id).queries
      && TransmitTcp(st, id, now, c) == Arm(Stamp(QueueRequest(a, id), id), id, now, c.jitter)
  {
    hide Arm, EndQuery;
  }

  lemma QueuedThenStamped(st: State, id: nat)
    requires WF(st) && id in st.queries && st.queries[id].server < st.cfg.nservers
    ensures var q := st.queries[id];
      var d := Stamp(QueueRequest(OpenTcp(st, q.server), id), id);
      && id in d.queries && d.queries[id].server == q.server && |d.servers| == |st.servers|
      && d.servers[q.server].queue == st.servers[q.server].queue + [Request(Some(id), q.tcpbuf, false)]
      && d.servers[q.server].tcpOpen
      && (forall s :: 0 <= s < |st.servers| && s != q.server ==> d.servers[s].queue == st.servers[s].queue)
      && |d.queries[id].info| == st.cfg.nservers
      && d.queries[id].info[q.server].generation == d.servers[q.server].generation
  {
  }

  /** Writing n bytes takes exactly the first n bytes off the pending stream. */
  lemma {:induction false} AdvanceDropsPrefix(queue: seq<Request>, n: nat)
    requires n > 0 ==> queue != []
    ensures var p := Pending(queue); Pending(AdvanceQueue(queue, n)) == if n <= |p| then p[n..] else []
    decreases |queue|
  {
    if n > 0 {
      var head, rest := queue[0], queue[1..];
      if n >= |head.data| {
        if |queue| == 1 {
          assert Pending(rest) == [];
        } else {
          AdvanceDropsPrefix(rest, n - |head.data|);
        }
      } else {
        var after := [head.(data := head.data[n..])] + rest;
        assert after[1..] == rest;
      }
    }
  }

  /** Requests that remain keep their owner and storage and the tail of their bytes. */
  lemma {:induction false} AdvanceKeeps(queries: map<nat, Query>, broken: bool, queue: seq<Request>, n: nat)
    requires n > 0 ==> queue != []
    requires forall i :: 0 <= i < |queue| ==> RequestOk(queries, broken, queue[i])
    ensures var w := AdvanceQueue(queue, n); forall i :: 0 <= i < |w| ==> RequestOk(queries, broken, w[i])
    decreases |queue|
  {
    hide RequestOk;
    if n > 0 {
      var head, rest := queue[0], queue[1..];
      forall i | 0 <= i < |rest| ensures RequestOk(queries, broken, rest[i]) {
        assert rest[i] == queue[i + 1];
      }
      if n < |head.data| {
        HeadKept(queries, broken, head, n);
        var w := [head.(data := head.data[n..])] + rest;
        assert AdvanceQueue(queue, n) == w;
        forall i | 0 <= i < |w| ensures RequestOk(queries, broken, w[i]) {
          if i > 0 { assert w[i] == rest[i - 1]; }
        }
      } else if |queue| > 1 {
        AdvanceKeeps(queries, broken, rest, n - |head.data|);
        assert AdvanceQueue(queue, n) == AdvanceQueue(rest, n - |head.data|);
      }
    }
  }

  lemma HeadKept(queries: map<nat, Query>, broken: bool, head: Request, n: nat)
    requires RequestOk(queries, broken, head) && n <= |head.data|
    ensures RequestOk(queries, broken, head.(data := head.data[n..]))
  {
    hide IsSuffix;
    if head.owner.Some? { SuffixTail(head.data, queries[head.owner.value].tcpbuf, n); }
  }

  lemma SuffixTail(a: seq<byte>, b: seq<byte>, n: nat)
    requires IsSuffix(a, b) && n <= |a|
    ensures IsSuffix(a[n..], b)
  {
    assert a[n..] == b[|b| - |a|..][n..] == b[|b| - (|a| - n)..];
  }

  lemma WroteInv(st: State, s: nat, n: nat)
    requires Inv(st) && s < st.cfg.nservers && st.servers[s].queue != []
    ensures WF(st) && Inv(Wrote(st, s, n)) && Wrote(st, s, n).queries == st.queries
  {
    InvParts(st);
    ServerParts(st, None);
    hide Core, AdvanceQueue, RequestOk;
    var r := Wrote(st, s, n);
    AdvanceOk(st, s, n);
    assert st.all != [] || st.cfg.stayopen;
    SocketCore(st, r, None);
  }

  lemma AdvanceQueueOk(queries: map<nat, Query>, v: Server, n: nat)
    requires v.queue != [] && QueueOk(queries, v)
    ensures QueueOk(queries, v.(queue := AdvanceQueue(v.queue, n)))
  {
    hide AdvanceQueue, RequestOk;
    AdvanceKeeps(queries, v.broken, v.queue, n);
  }

  lemma AdvanceOk(st: State, s: nat, n: nat)
    requires WF(st) && s < st.cfg.nservers && st.servers[s].queue != [] && QueuesOk(st)
    ensures QueuesOk(Wrote(st, s, n))
  {
    hide AdvanceQueue, QueueOk;
    var r := Wrote(st, s, n);
    forall t | 0 <= t < |r.servers| && !r.dangling ensures QueueOk(r.queries, r.servers[t]) {
      assert QueueOk(st.queries, st.servers[t]);
      if t == s { AdvanceQueueOk(st.queries, st.servers[s], n); }
    }
  }
}
