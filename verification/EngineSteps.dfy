/** The steps that move one query keep the engine's invariant (next_server, ares__send_query,
    end_query and what they call). */
module EngineSteps {
  import opened Seqs
  import opened Clock
  import opened Engine
  import opened EngineInv
  import opened EngineTurns

  // ---------- sockets ----------

  lemma ServerParts(st: State, x: Option<nat>)
    requires Core(st, x)
    ensures WF(st) && ServersOk(st) && QueuesOk(st)
  {
  }

  lemma OpenTcpCore(st: State, s: nat, x: Option<nat>)
    requires Core(st, x) && s < st.cfg.nservers
    ensures var r := OpenTcp(st, s);
      && Core(r, x) && SocketStep(st, r) && r.servers[s].tcpOpen
      && (!st.servers[s].tcpOpen ==> r.servers[s].generation > st.servers[s].generation)
      && r.step == st.step
  {
    var r := OpenTcp(st, s);
    hide Core, RequestOk;
    ServerParts(st, x);
    forall t | 0 <= t < |r.servers| && !r.dangling ensures QueueOk(r.queries, r.servers[t]) {
      assert QueueOk(st.queries, st.servers[t]);
    }
    SocketCore(st, r, x);
  }

  lemma OpenUdpCore(st: State, s: nat, x: Option<nat>)
    requires Core(st, x) && s < st.cfg.nservers
    ensures var r := OpenUdp(st, s); Core(r, x) && SocketStep(st, r) && r.step == st.step
  {
    var r := OpenUdp(st, s);
    hide Core, RequestOk;
    ServerParts(st, x);
    forall t | 0 <= t < |r.servers| && !r.dangling ensures QueueOk(r.queries, r.servers[t]) {
      assert QueueOk(st.queries, st.servers[t]);
    }
    SocketCore(st, r, x);
  }

  lemma CloseSocketsCore(st: State, s: nat, x: Option<nat>)
    requires Core(st, x) && s < st.cfg.nservers
    ensures var r := CloseSockets(st, s);
      && Core(r, x) && SocketStep(st, r) && Closed(r.servers[s]) && r.step == st.step
      && (forall t :: 0 <= t < |st.servers| && t != s ==> r.servers[t] == st.servers[t])
  {
    var r := CloseSockets(st, s);
    hide Core, RequestOk;
    ServerParts(st, x);
    forall t | 0 <= t < |r.servers| && !r.dangling ensures QueueOk(r.queries, r.servers[t]) {
      assert QueueOk(st.queries, st.servers[t]);
    }
    SocketCore(st, r, x);
  }

  lemma SocketTrans(a: State, b: State, c: State)
    requires SocketStep(a, b) && SocketStep(b, c)
    ensures SocketStep(a, c)
  {
  }

  lemma {:induction false} CloseFromCore(st: State, s: nat, x: Option<nat>)
    requires Core(st, x) && s <= st.cfg.nservers
    requires forall t :: 0 <= t < s ==> Closed(st.servers[t])
    ensures var r := CloseFrom(st, s);
      && Core(r, x) && SocketStep(st, r) && r.step == st.step
      && (forall t :: 0 <= t < |r.servers| ==> Closed(r.servers[t]))
    decreases st.cfg.nservers - s
  {
    hide Core, CloseSockets, Closed;
    ServerParts(st, x);
    if s < st.cfg.nservers {
      CloseSocketsCore(st, s, x);
      var a := CloseSockets(st, s);
      CloseFromCore(a, s + 1, x);
      SocketTrans(st, a, CloseFrom(a, s + 1));
    }
  }

  /** Reading one outcome from the environment. */
  lemma StepCore(st: State, x: Option<nat>)
    requires Core(st, x)
    ensures Core(st.(step := st.step + 1), x)
  {
    hide Core, QueueOk;
    ServerParts(st, x);
    SocketCore(st, st.(step := st.step + 1), x);
  }

  // ---------- releasing queued requests ----------

  ghost predicate Unowned(servers: seq<Server>, id: nat) {
    forall s, i :: 0 <= s < |servers| && 0 <= i < |servers[s].queue| ==> servers[s].queue[i].owner != Some(id)
  }

  lemma ReleaseQueueOk(queries: map<nat, Query>, v: Server, id: nat, success: bool, copies: nat -> bool)
    ensures var w := ReleaseQueue(v, id, success, copies);
      && (QueueOk(queries, v) ==> QueueOk(queries, w))
      && (forall i :: 0 <= i < |w.queue| ==> w.queue[i].owner != Some(id))
      && w.inflight == v.inflight && w.generation == v.generation && w.tcpOpen == v.tcpOpen
      && (w.queue != [] <==> v.queue != [])
  {
    var w := ReleaseQueue(v, id, success, copies);
    forall i | 0 <= i < |w.queue| && QueueOk(queries, v) ensures RequestOk(queries, w.broken, w.queue[i]) {
      hide IsSuffix;
      assert RequestOk(queries, v.broken, v.queue[i]);
      assert Drops(v.queue[i], id, success, copies(i)) ==> w.broken;
    }
  }

  lemma ReleaseCore(st: State, id: nat, success: bool, x: Option<nat>)
    requires Core(st, x)
    ensures var r := Release(st, id, success);
      && Core(r, x) && SocketStep(st, r) && Unowned(r.servers, id) && r.generation == st.generation
      && forall s :: 0 <= s < |st.servers| ==> r.servers[s].generation == st.servers[s].generation
  {
    var r := Release(st, id, success);
    hide Core, QueueOk, ReleaseQueue;
    ServerParts(st, x);
    forall t | 0 <= t < |r.servers|
      ensures st.dangling || QueueOk(r.queries, r.servers[t])
      ensures forall i :: 0 <= i < |r.servers[t].queue| ==> r.servers[t].queue[i].owner != Some(id)
      ensures r.servers[t].inflight == st.servers[t].inflight && r.servers[t].generation == st.servers[t].generation
      ensures r.servers[t].queue != [] ==> r.servers[t].tcpOpen
    {
      ReleaseQueueOk(st.queries, st.servers[t], id, success, CopiesFor(Env(st), t));
    }
    SocketCore(st, r, x);
  }

  // ---------- freeing a query ----------

  lemma FreeLists(st: State, id: nat, status: nat, timeouts: nat)
    requires WF(st) && id in st.queries
    requires AllOk(st) && QidOk(st)
    ensures AllOk(FreeQuery(st, id, status, timeouts)) && QidOk(FreeQuery(st, id, status, timeouts))
  {
    hide InBucket, NoDup, Ascending;
    var r := FreeQuery(st, id, status, timeouts);
    WithoutNoDup(st.all, id);
    WithoutAscending(st.all, id);
    WithoutMembers(st.all, id);
    forall b | 0 <= b < QID_TABLE ensures r.byQid[b] == InBucket(r.all, r.queries, b) {
      BucketWithout(st.all, st.queries, b, id);
      BucketSame(r.all, st.queries, r.queries, b);
    }
  }

  lemma FreeTimers(st: State, id: nat, status: nat, timeouts: nat)
    requires WF(st) && id in st.queries && TimersOk(st, Some(id))
    ensures TimersOk(FreeQuery(st, id, status, timeouts), None)
  {
    hide NoDup, Ascending, TimeoutBucket;
    forall b | 0 <= b < TIMEOUT_TABLE
      ensures NoDup(Without(st.byTimeout[b], id))
      ensures forall j :: j in Without(st.byTimeout[b], id) <==> j in st.byTimeout[b] && j != id
    {
      WithoutNoDup(st.byTimeout[b], id);
      WithoutMembers(st.byTimeout[b], id);
    }
  }

  lemma FreeInflight(st: State, id: nat, status: nat, timeouts: nat)
    requires WF(st) && id in st.queries && InflightOk(st, Some(id))
    ensures InflightOk(FreeQuery(st, id, status, timeouts), None)
  {
    hide NoDup, Ascending;
    WithoutNoDup(st.limbo, id);
    WithoutMembers(st.limbo, id);
    forall s | 0 <= s < |st.servers|
      ensures NoDup(Without(st.servers[s].inflight, id))
      ensures forall j :: j in Without(st.servers[s].inflight, id) <==> j in st.servers[s].inflight && j != id
    {
      WithoutNoDup(st.servers[s].inflight, id);
      WithoutMembers(st.servers[s].inflight, id);
    }
  }

  lemma FreeQueries(st: State, id: nat, status: nat, timeouts: nat)
    requires WF(st) && id in st.queries && QueriesOk(st, Some(id))
    ensures QueriesOk(FreeQuery(st, id, status, timeouts), None)
  {
    var r := FreeQuery(st, id, status, timeouts);
    hide Sane, AtRest;
    forall j | j in r.queries ensures Sane(r, j) && AtRest(r, j) {
      Appended(st.log, Done(id, status, timeouts, st.queries[id].tryCount, st.queries[id].considered), j);
      QueryKept(st, r, j);
    }
  }

  /** What freeing changes outside the lists. */
  lemma FreeIs(st: State, id: nat, status: nat, timeouts: nat)
    requires WF(st) && id in st.queries
    ensures var r := FreeQuery(st, id, status, timeouts);
      && r.log == st.log + [Done(id, status, timeouts, st.queries[id].tryCount, st.queries[id].considered)]
      && (forall j :: j in r.queries <==> j in st.queries && j != id)
      && (forall j :: j in r.queries ==> r.queries[j] == st.queries[j])
      && r.cfg == st.cfg && r.nextId == st.nextId && |r.servers| == |st.servers|
  {
    hide Unlink, UnlinkServers, Without;
  }

  lemma MoreLog(st: State, r: State, e: Event)
    requires WF(st) && WF(r) && r.log == st.log + [e] && r.cfg == st.cfg && r.nextId == st.nextId
    requires LogOk(st) && e.Done? && EndOk(st.cfg, e)
    ensures LogOk(r)
  {
    hide EndOk, WaitOk;
  }

  lemma MoreStamps(st: State, r: State, e: Event)
    requires WF(st) && WF(r) && r.log == st.log + [e] && r.cfg == st.cfg && StampsOk(st) && e.Done?
    requires forall j :: j in r.queries ==> j in st.queries && r.queries[j] == st.queries[j]
    ensures StampsOk(r)
  {
    hide InOrder, WF;
    MoreOrder(st, r, e);
    hide OrderOk;
    assert forall id, s :: !TcpSent(e, id, s);
  }

  lemma MoreOrder(st: State, r: State, e: Event)
    requires r.log == st.log + [e] && OrderOk(st) && e.Done?
    requires forall j :: j in r.queries ==> j in st.queries && r.queries[j] == st.queries[j]
    ensures OrderOk(r)
  {
    hide InOrder;
  }

  lemma FreeLog(st: State, id: nat, status: nat, timeouts: nat)
    requires WF(st) && id in st.queries && id < st.nextId
    requires LogOk(st) && CallbacksOk(st) && CapsOk(st) && StampsOk(st)
    requires EndOk(st.cfg, Done(id, status, timeouts, st.queries[id].tryCount, st.queries[id].considered))
    ensures var r := FreeQuery(st, id, status, timeouts); LogOk(r) && CallbacksOk(r) && CapsOk(r) && StampsOk(r)
  {
    var r := FreeQuery(st, id, status, timeouts);
    var e := Done(id, status, timeouts, st.queries[id].tryCount, st.queries[id].considered);
    hide FreeQuery, EndOk, LogOk, StampsOk, WF, Sends, Waits, Dones, WaitCap, Limit;
    FreeIs(st, id, status, timeouts);
    MoreLog(st, r, e);
    MoreStamps(st, r, e);
    forall j: nat
      ensures Sends(r.log, j) == Sends(st.log, j) && Waits(r.log, j) == Waits(st.log, j)
      ensures Dones(r.log, j) == Dones(st.log, j) + if j == id then 1 else 0
    {
      Appended(st.log, e, j);
    }
  }

  lemma FreeServers(st: State, id: nat, status: nat, timeouts: nat)
    requires WF(st) && id in st.queries && ServersOk(st) && QueuesOk(st) && (st.dangling || Unowned(st.servers, id))
    ensures var r := FreeQuery(st, id, status, timeouts); ServersOk(r) && QueuesOk(r)
  {
    var r := FreeQuery(st, id, status, timeouts);
    forall s | 0 <= s < |r.servers| && !r.dangling ensures QueueOk(r.queries, r.servers[s]) {
      hide IsSuffix;
      assert QueueOk(st.queries, st.servers[s]);
      forall i | 0 <= i < |r.servers[s].queue| ensures RequestOk(r.queries, r.servers[s].broken, r.servers[s].queue[i]) {
        assert RequestOk(st.queries, st.servers[s].broken, st.servers[s].queue[i]);
      }
    }
  }

  lemma FreeCore(st: State, id: nat, status: nat, timeouts: nat)
    requires Core(st, Some(id)) && id in st.queries && (st.dangling || Unowned(st.servers, id))
    requires EndOk(st.cfg, Done(id, status, timeouts, st.queries[id].tryCount, st.queries[id].considered))
    ensures Core(FreeQuery(st, id, status, timeouts), None)
  {
    assert id < st.nextId;
    hide AllOk, QidOk, TimersOk, InflightOk, QueriesOk, LogOk, CallbacksOk, CapsOk, StampsOk, ServersOk, QueuesOk,
      EndOk, FreeQuery, Unowned, WF;
    FreeLists(st, id, status, timeouts);
    FreeTimers(st, id, status, timeouts);
    FreeInflight(st, id, status, timeouts);
    FreeQueries(st, id, status, timeouts);
    FreeLog(st, id, status, timeouts);
    FreeServers(st, id, status, timeouts);
  }

  // ---------- what moving one query does to the rest ----------

  /** r differs from st only in query id's record (progress fields only grow), in the servers' sockets
      and in the environment position. */
  ghost predicate Steady(st: State, r: State, id: nat) {
    && id in st.queries && id in r.queries
    && r == st.(queries := st.queries[id := r.queries[id]], servers := r.servers, generation := r.generation, step := r.step)
    && Progress(st.queries[id], r.queries[id])
  }

  ghost predicate Progress(q: Query, p: Query) {
    && p.qid == q.qid && p.tcpbuf == q.tcpbuf && p.first == q.first && p.startedTcp == q.startedTcp
    && p.usingTcp == q.usingTcp && p.timeouts == q.timeouts && p.errorStatus == q.errorStatus
    && p.tryCount >= q.tryCount
    && |p.info| == |q.info| && forall s :: 0 <= s < |q.info| && q.info[s].skip ==> p.info[s].skip
  }

  lemma SteadyTrans(a: State, b: State, c: State, id: nat)
    requires Steady(a, b, id) && Steady(b, c, id)
    ensures Steady(a, c, id)
  {
  }

  /** id has been taken out of a list, and perhaps put back at its end. */
  ghost predicate Relisted(before: seq<nat>, after: seq<nat>, id: nat) {
    after == Without(before, id) || after == Without(before, id) + [id]
  }

  /** Everything but query id is where it was; id itself is out of limbo, and live or gone. */
  ghost predicate Moved(st: State, r: State, id: nat) {
    && r.cfg == st.cfg && r.nextId == st.nextId && r.lastTimeout == st.lastTimeout && r.lastServer == st.lastServer
    && r.clockOk == st.clockOk && r.dangling == st.dangling
    && r.limbo == Without(st.limbo, id)
    && r.all == (if id in r.queries then st.all else Without(st.all, id))
    && (forall j :: j != id ==> (j in r.queries <==> j in st.queries))
    && (forall j :: j != id && j in r.queries ==> r.queries[j] == st.queries[j])
    && |r.byTimeout| == |st.byTimeout|
    && (forall b :: 0 <= b < |st.byTimeout| ==> Relisted(st.byTimeout[b], r.byTimeout[b], id))
  }

  /** How the move ended for id itself: transmitted with a new deadline, or its callback ran. */
  ghost predicate Outcome(st: State, r: State, id: nat, now: Time) {
    && id in st.queries && st.log < r.log
    && var e := r.log[|r.log| - 1];
       if id in r.queries then
         && Progress(st.queries[id], r.queries[id])
         && e.Sent? && e.id == id && e.attempt == r.queries[id].tryCount
         && r.queries[id].timeout == TimeAdd(now, e.wait)
         && (st.cfg.timeout >= 2 ==> e.wait >= 1)
       else e.Done? && e.id == id && e.timeouts == st.queries[id].timeouts
  }

  lemma MovedTrans(a: State, b: State, c: State, id: nat, now: Time)
    requires Steady(a, b, id) && Moved(b, c, id) && Outcome(b, c, id, now)
    ensures Moved(a, c, id) && Outcome(a, c, id, now)
  {
  }

  /** end_query, whatever the status: the invariant holds again with the query gone. */
  lemma EndQueryCore(st: State, id: nat, status: nat)
    requires Core(st, Some(id)) && id in st.queries
    requires EndOk(st.cfg, Done(id, status, st.queries[id].timeouts, st.queries[id].tryCount, st.queries[id].considered))
    ensures var r := EndQuery(st, id, status);
      && Core(r, None) && QuietOk(r) && Moved(st, r, id) && id !in r.queries
      && st.log < r.log
      && r.log[|r.log| - 1] == Done(id, status, st.queries[id].timeouts, st.queries[id].tryCount, st.queries[id].considered)
  {
    hide Core, EndOk, Closed, CloseFrom, ReleaseQueue, Unowned, Without, UnlinkServers, Unlink, CopiesFor;
    ReleaseCore(st, id, status == SUCCESS, Some(id));
    var a := Release(st, id, status == SUCCESS);
    FreeCore(a, id, status, st.queries[id].timeouts);
    var b := FreeQuery(a, id, status, st.queries[id].timeouts);
    if !st.cfg.stayopen && b.all == [] { CloseFromCore(b, 0, None); }
  }

  // ---------- transmitting ----------

  /** Every earlier queueing of id on its current server was on an older incarnation. */
  ghost predicate FreshStamp(st: State, id: nat)
    requires WF(st) && id in st.queries
  {
    var q := st.queries[id];
    q.usingTcp ==> forall i :: 0 <= i < |st.log| && TcpSent(st.log[i], id, q.server) ==>
      st.log[i].generation < q.info[q.server].generation
  }

  ghost predicate ArmReady(st: State, id: nat)
    requires WF(st) && id in st.queries
  {
    var q := st.queries[id];
    && q.tryCount < Limit(st.cfg) && Spent(st, id, q.tryCount) && !q.info[q.server].skip
    && FreshStamp(st, id) && FreshTry(st, id)
  }

  lemma QueueRequestCore(st: State, id: nat)
    requires Core(st, Some(id)) && id in st.queries && st.servers[st.queries[id].server].tcpOpen
    ensures var r := QueueRequest(st, id); Core(r, Some(id)) && SocketStep(st, r)
    ensures forall s :: 0 <= s < |st.servers| ==> QueueRequest(st, id).servers[s].generation == st.servers[s].generation
  {
    var r := QueueRequest(st, id);
    hide Core, QueueOk;
    ServerParts(st, Some(id));
    if !st.dangling { AppendedOk(st.queries, st.servers[st.queries[id].server], id); }
    SocketCore(st, r, Some(id));
  }

  lemma AppendedOk(queries: map<nat, Query>, v: Server, id: nat)
    requires QueueOk(queries, v) && id in queries
    ensures QueueOk(queries, v.(queue := v.queue + [Request(Some(id), queries[id].tcpbuf, false)]))
  {
    hide IsSuffix;
    WholeIsSuffix(queries[id].tcpbuf);
  }

  lemma WholeIsSuffix(s: seq<byte>)
    ensures IsSuffix(s, s)
  {
  }

  lemma QueryParts(st: State, id: nat)
    requires Core(st, Some(id)) && id in st.queries
    ensures WF(st) && Sane(st, id) && StampsOk(st)
  {
  }

  /** A bare change of id's record to q keeps the invariant if q is sane and its stamps do not go back. */
  lemma SetQueryCore(st: State, id: nat, q: Query)
    requires Core(st, Some(id)) && id in st.queries && WF(SetQuery(st, id, q)) && Sane(SetQuery(st, id, q), id)
    requires q.qid == st.queries[id].qid && q.tcpbuf == st.queries[id].tcpbuf
    requires q.tryCount >= st.queries[id].tryCount && (st.queries[id].usingTcp ==> q.usingTcp)
    requires forall s :: 0 <= s < st.cfg.nservers ==> q.info[s].generation >= st.queries[id].info[s].generation
    ensures Core(SetQuery(st, id, q), Some(id))
  {
    hide Core, Sane;
    RecordCore(st, SetQuery(st, id, q), id);
  }

  lemma StampCore(st: State, id: nat)
    requires Core(st, Some(id)) && id in st.queries && st.queries[id].usingTcp && PreSend(st, id)
    ensures var r := Stamp(st, id); Core(r, Some(id)) && Steady(st, r, id)
  {
    hide Core, Spent;
    QueryParts(st, id);
    var q := st.queries[id];
    SetQueryCore(st, id, q.(info := q.info[q.server := q.info[q.server].(generation := st.servers[q.server].generation)]));
  }

  lemma StampReady(st: State, id: nat)
    requires Core(st, Some(id)) && id in st.queries && st.queries[id].usingTcp && PreSend(st, id)
    ensures ArmReady(Stamp(st, id), id)
  {
    hide Core, Sends, Waits, WaitCap, Sane;
    QueryParts(st, id);
  }

  /** The clock handed to a step: normalised, past the epoch, and not behind the timer wheel. */
  ghost predicate ClockFine(st: State, now: Time) {
    st.clockOk ==> now.Normal() && now.sec > 0 && now.sec >= st.lastTimeout
  }

  lemma ArmLists(st: State, id: nat, now: Time, jitter: nat)
    requires WF(st) && id in st.queries && AllOk(st) && QidOk(st)
    ensures AllOk(Arm(st, id, now, jitter)) && QidOk(Arm(st, id, now, jitter))
  {
    hide Arm, InBucket, NoDup, Ascending, TimeAdd, Backoff, SentEvent;
    var r := Arm(st, id, now, jitter);
    ArmIs(st, id, now, jitter);
    forall b | 0 <= b < QID_TABLE ensures r.byQid[b] == InBucket(r.all, r.queries, b) {
      BucketSame(st.all, st.queries, r.queries, b);
    }
  }

  lemma TailAdded(list: seq<nat>, id: nat)
    requires NoDup(list)
    ensures NoDup(Without(list, id) + [id])
    ensures forall j :: j in Without(list, id) + [id] <==> j in list || j == id
  {
    WithoutNoDup(list, id);
    WithoutMembers(list, id);
    AppendNoDup(Without(list, id), id);
  }

  lemma ArmTimers(st: State, id: nat, now: Time, jitter: nat)
    requires WF(st) && id in st.queries && TimersOk(st, Some(id))
    ensures var r := Arm(st, id, now, jitter);
      && TimersOk(r, None)
      && forall b :: 0 <= b < |st.byTimeout| ==> Relisted(st.byTimeout[b], r.byTimeout[b], id)
  {
    hide NoDup, Ascending, TimeoutBucket, TimeAdd, Backoff, SentEvent, InflightOk, UnlinkServers;
    var r := Arm(st, id, now, jitter);
    forall b | 0 <= b < TIMEOUT_TABLE
      ensures NoDup(r.byTimeout[b])
      ensures forall j :: j in r.byTimeout[b] <==>
        (j in st.byTimeout[b] && j != id) || (j == id && b == TimeoutBucket(r.queries[id].timeout))
      ensures Relisted(st.byTimeout[b], r.byTimeout[b], id)
    {
      TailAdded(st.byTimeout[b], id);
      WithoutNoDup(st.byTimeout[b], id);
      WithoutMembers(st.byTimeout[b], id);
    }
  }

  lemma ArmInflight(st: State, id: nat, now: Time, jitter: nat)
    requires WF(st) && id in st.queries && InflightOk(st, Some(id))
    ensures InflightOk(Arm(st, id, now, jitter), None)
  {
    hide NoDup, Ascending, TimeoutBucket, TimeAdd, Backoff, SentEvent;
    var r := Arm(st, id, now, jitter);
    WithoutNoDup(st.limbo, id);
    WithoutMembers(st.limbo, id);
    forall s | 0 <= s < |st.servers|
      ensures NoDup(r.servers[s].inflight)
      ensures forall j :: j in r.servers[s].inflight <==>
        (j in st.servers[s].inflight && j != id) || (j == id && s == st.queries[id].server)
    {
      TailAdded(st.servers[s].inflight, id);
      WithoutNoDup(st.servers[s].inflight, id);
      WithoutMembers(st.servers[s].inflight, id);
    }
  }

  /** What arming changes outside the lists. */
  lemma ArmIs(st: State, id: nat, now: Time, jitter: nat)
    requires WF(st) && id in st.queries
    ensures var r := Arm(st, id, now, jitter);
      var q := st.queries[id];
      && r.queries == st.queries[id := q.(timeout := TimeAdd(now, Backoff(st, id, jitter)))]
      && r.log == st.log + [SentEvent(st, id, jitter)] && r.cfg == st.cfg && r.all == st.all && r.byQid == st.byQid
      && r.nextId == st.nextId && r.lastTimeout == st.lastTimeout && r.lastServer == st.lastServer
      && r.clockOk == st.clockOk && r.dangling == st.dangling && r.generation == st.generation && |r.servers| == |st.servers|
      && r.limbo == Without(st.limbo, id)
      && forall s :: 0 <= s < |st.servers| ==> r.servers[s] == st.servers[s].(inflight := r.servers[s].inflight)
  {
    hide TimeAdd, Backoff, SentEvent, TimeoutBucket;
  }

  lemma CapStep(cfg: Config, n: nat, extra: nat)
    requires cfg.nservers >= 1 && cfg.tries >= 1
    ensures WaitCap(cfg, n + 1, extra) == WaitCap(cfg, n, extra) + cfg.timeout * Pow2(n / cfg.nservers)
  {
  }

  /** The transmission of attempt tryCount fits in the budget of the next one. */
  lemma ArmSpent(st: State, id: nat, now: Time, jitter: nat)
    requires WF(st) && id in st.queries && Spent(st, id, st.queries[id].tryCount)
    ensures Spent(Arm(st, id, now, jitter), id, st.queries[id].tryCount + 1)
    ensures id in Arm(st, id, now, jitter).queries
  {
    hide Arm, Sends, Waits, WaitCap;
    var q := st.queries[id];
    ArmIs(st, id, now, jitter);
    Appended(st.log, SentEvent(st, id, jitter), id);
    WaitBounds(st.cfg.timeout, q.tryCount, st.cfg.nservers, jitter);
    CapStep(st.cfg, q.tryCount, Extra(q));
  }

  lemma DeadlineFine(now: Time, ms: nat)
    requires now.Normal()
    ensures TimeAdd(now, ms).Normal() && TimeAdd(now, ms).sec >= now.sec
  {
  }

  lemma ArmSane(st: State, id: nat, now: Time, jitter: nat)
    requires WF(st) && id in st.queries && Sane(st, id)
    ensures id in Arm(st, id, now, jitter).queries && Sane(Arm(st, id, now, jitter), id)
  {
    hide Arm, TimeAdd, Backoff, SentEvent, Limit;
    ArmIs(st, id, now, jitter);
  }

  lemma ArmQueries(st: State, id: nat, now: Time, jitter: nat)
    requires WF(st) && id in st.queries && QueriesOk(st, Some(id)) && ArmReady(st, id) && ClockFine(st, now)
    ensures QueriesOk(Arm(st, id, now, jitter), None)
  {
    hide Arm, Spent, TimeAdd, Backoff, Sane, Limit, FreshStamp;
    var r := Arm(st, id, now, jitter);
    ArmIs(st, id, now, jitter);
    ArmSpent(st, id, now, jitter);
    ArmSane(st, id, now, jitter);
    if st.clockOk { DeadlineFine(now, Backoff(st, id, jitter)); }
    assert AtRest(r, id);
    hide AtRest;
    forall j | j in r.queries && j != id ensures Sane(r, j) && AtRest(r, j) {
      OtherSpent(st.log, SentEvent(st, id, jitter), id, j);
      QueryKept(st, r, j);
    }
  }

  /** An event of query id changes no other query's totals. */
  lemma OtherSpent(log: seq<Event>, e: Event, id: nat, j: nat)
    requires (e.Sent? || e.Done?) && e.id == id && j != id
    ensures Sends(log + [e], j) == Sends(log, j) && Waits(log + [e], j) == Waits(log, j) && Dones(log + [e], j) == Dones(log, j)
  {
    Appended(log, e, j);
  }

  lemma ArmWait(st: State, id: nat, jitter: nat)
    requires WF(st) && id in st.queries && st.queries[id].tryCount < Limit(st.cfg)
    ensures SentEvent(st, id, jitter).Sent? && WaitOk(st.cfg, SentEvent(st, id, jitter))
  {
    hide Limit, Sixteenths, Pow2;
    var full := st.cfg.timeout * Pow2(st.queries[id].tryCount / st.cfg.nservers);
    assert SentEvent(st, id, jitter).wait == Sixteenths(full, 9 + jitter % 8);
  }

  lemma ArmLog(st: State, id: nat, now: Time, jitter: nat)
    requires WF(st) && id in st.queries && id < st.nextId && ArmReady(st, id)
    requires LogOk(st) && CallbacksOk(st) && CapsOk(st)
    ensures var r := Arm(st, id, now, jitter); LogOk(r) && CallbacksOk(r) && CapsOk(r)
  {
    hide Arm, Sends, Waits, Dones, WaitCap, Limit, Spent, TimeAdd, Extra, FreshStamp, FreshTry, Backoff, WaitOk, EachServer;
    var r := Arm(st, id, now, jitter);
    var e := SentEvent(st, id, jitter);
    ArmWait(st, id, jitter);
    ArmIs(st, id, now, jitter);
    ArmSpent(st, id, now, jitter);
    SpentCap(r, id, st.queries[id].tryCount + 1);
    forall j: nat
      ensures j != id ==> Sends(r.log, j) == Sends(st.log, j) && Waits(r.log, j) == Waits(st.log, j)
      ensures Dones(r.log, j) == Dones(st.log, j)
    {
      Appended(st.log, e, j);
    }
  }

  /** What fits in the attempts made so far fits in all of them. */
  lemma SpentCap(st: State, id: nat, attempts: nat)
    requires WF(st) && id in st.queries && attempts <= Limit(st.cfg) && Spent(st, id, attempts)
    ensures Sends(st.log, id) <= Limit(st.cfg) + 1 && Waits(st.log, id) <= WaitCap(st.cfg, Limit(st.cfg), 1)
  {
    CapMono(st.cfg, attempts, Limit(st.cfg), Extra(st.queries[id]));
    hide Sends, Waits, WaitCap, Limit;
  }

  lemma CapMono(cfg: Config, a: nat, b: nat, extra: nat)
    requires cfg.nservers >= 1 && cfg.tries >= 1 && a <= b && extra <= 1
    ensures WaitCap(cfg, a, extra) <= WaitCap(cfg, b, 1)
  {
    ScheduleMono(cfg.timeout, cfg.nservers, a, b);
    hide Schedule;
    var x: nat := cfg.timeout * Pow2(cfg.tries - 1);
    hide Pow2;
    if extra == 0 { assert extra * x == 0; } else { assert extra * x == x; }
  }

  lemma ArmOrder(st: State, id: nat, now: Time, jitter: nat)
    requires WF(st) && id in st.queries && FreshTry(st, id) && OrderOk(st)
    ensures OrderOk(Arm(st, id, now, jitter))
  {
    hide Arm, TimeAdd, Backoff, WF;
    ArmIs(st, id, now, jitter);
  }

  lemma ArmStamps(st: State, id: nat, now: Time, jitter: nat)
    requires WF(st) && id in st.queries && ArmReady(st, id) && StampsOk(st)
    ensures StampsOk(Arm(st, id, now, jitter))
  {
    hide Arm, Spent, TimeAdd, Backoff, Limit, OrderOk, FreshTry;
    ArmIs(st, id, now, jitter);
    ArmOrder(st, id, now, jitter);
  }

  /** A request stays fine while its server is as broken and the owners keep their buffers. */
  lemma QueueKept(p: map<nat, Query>, q: map<nat, Query>, v: Server, w: Server)
    requires QueueOk(p, v) && w.queue == v.queue && (v.broken ==> w.broken)
    requires forall id :: id in p ==> id in q && q[id].tcpbuf == p[id].tcpbuf
    ensures QueueOk(q, w)
  {
    hide IsSuffix;
    forall i | 0 <= i < |w.queue| ensures RequestOk(q, w.broken, w.queue[i]) {
      assert RequestOk(p, v.broken, v.queue[i]);
    }
  }

  lemma ArmServers(st: State, id: nat, now: Time, jitter: nat)
    requires WF(st) && id in st.queries && ServersOk(st) && QueuesOk(st)
    ensures var r := Arm(st, id, now, jitter); ServersOk(r) && QueuesOk(r)
  {
    hide Arm, TimeAdd, Backoff, SentEvent, QueueOk;
    var r := Arm(st, id, now, jitter);
    ArmIs(st, id, now, jitter);
    forall s | 0 <= s < |r.servers| && !r.dangling ensures QueueOk(r.queries, r.servers[s]) {
      QueueKept(st.queries, r.queries, st.servers[s], r.servers[s]);
    }
  }

  lemma ArmCore(st: State, id: nat, now: Time, jitter: nat)
    requires Core(st, Some(id)) && id in st.queries && ArmReady(st, id) && ClockFine(st, now)
    ensures Core(Arm(st, id, now, jitter), None)
  {
    assert id < st.nextId;
    hide AllOk, QidOk, TimersOk, InflightOk, QueriesOk, LogOk, CallbacksOk, CapsOk, StampsOk, ServersOk, QueuesOk,
      ArmReady, Arm, ClockFine, WF;
    ArmLists(st, id, now, jitter);
    ArmTimers(st, id, now, jitter);
    ArmInflight(st, id, now, jitter);
    ArmQueries(st, id, now, jitter);
    ArmLog(st, id, now, jitter);
    ArmStamps(st, id, now, jitter);
    ArmServers(st, id, now, jitter);
  }

  lemma ArmMoved(st: State, id: nat, now: Time, jitter: nat)
    requires WF(st) && id in st.queries && TimersOk(st, Some(id))
    ensures var r := Arm(st, id, now, jitter); Moved(st, r, id) && Outcome(st, r, id, now)
  {
    hide Arm, TimeAdd, Wait, TimersOk;
    ArmIs(st, id, now, jitter);
    ArmTimers(st, id, now, jitter);
    WaitBounds(st.cfg.timeout, st.queries[id].tryCount, st.cfg.nservers, jitter);
  }

  // ---------- next_server and ares__send_query ----------

  lemma SpentMore(st: State, id: nat, m: nat, n: nat)
    requires WF(st) && id in st.queries && m <= n && Spent(st, id, m)
    ensures Spent(st, id, n)
  {
    ScheduleMono(st.cfg.timeout, st.cfg.nservers, m, n);
  }

  lemma SocketKeeps(st: State, r: State, id: nat)
    requires WF(st) && WF(r) && id in st.queries && SocketStep(st, r)
    ensures Steady(st, r, id)
    ensures PreSend(st, id) ==> PreSend(r, id)
  {
    hide Sends, Waits, WaitCap, Limit;
    assert r.queries == r.queries[id := r.queries[id]];
  }

  lemma SkipServerIs(st: State, id: nat, s: nat)
    requires WF(st) && id in st.queries && s < st.cfg.nservers
    ensures var q := st.queries[id];
      var p := if st.cfg.nservers > 1 then q.(info := q.info[s := q.info[s].(skip := true)]) else q;
      var r := SkipServer(st, id, s);
      && r == SetQuery(st, id, p) && r.queries[id] == p && Progress(q, p) && Steady(st, r, id)
      && (forall t :: 0 <= t < st.cfg.nservers ==> p.info[t].generation == q.info[t].generation)
      && (Sane(st, id) ==> Sane(r, id))
  {
    assert st.queries[id := st.queries[id]] == st.queries;
    hide Limit;
  }

  lemma SkipServerCore(st: State, id: nat, s: nat)
    requires Core(st, Some(id)) && id in st.queries && s < st.cfg.nservers
    ensures var r := SkipServer(st, id, s); Core(r, Some(id)) && Steady(st, r, id)
    ensures SkipServer(st, id, s).queries[id].tryCount == st.queries[id].tryCount
    ensures st.cfg.nservers > 1 ==> SkipServer(st, id, s).queries[id].info[s].skip
    ensures forall n: nat :: Spent(st, id, n) ==> Spent(SkipServer(st, id, s), id, n)
  {
    hide Core, Sends, Waits, WaitCap, SkipServer, Sane, Progress;
    QueryParts(st, id);
    SkipServerIs(st, id, s);
    var q := st.queries[id];
    SetQueryCore(st, id, if st.cfg.nservers > 1 then q.(info := q.info[s := q.info[s].(skip := true)]) else q);
  }

  lemma AdvanceCore(st: State, id: nat)
    requires Core(st, Some(id)) && id in st.queries && st.queries[id].tryCount + 1 < Limit(st.cfg)
    requires Spent(st, id, st.queries[id].tryCount + 1)
    ensures var r := Advance(st, id);
      && Core(r, Some(id)) && Steady(st, r, id) && Spent(r, id, r.queries[id].tryCount)
      && r.queries[id].tryCount == st.queries[id].tryCount + 1 && AttemptsLeft(r, id) < AttemptsLeft(st, id)
      && (Eligible(r, id) ==> PreSend(r, id))
  {
    hide Core, Sends, Waits, WaitCap;
    QueryParts(st, id);
    var q := st.queries[id];
    NextInTurn(q.first, st.cfg.nservers, q.tryCount);
    var s := (q.server + 1) % st.cfg.nservers;
    var p := q.(tryCount := q.tryCount + 1, server := s, considered := q.considered + [s]);
    assert Sane(SetQuery(st, id, p), id);
    SetQueryCore(st, id, p);
  }

  /** What both recursive functions guarantee. */
  ghost predicate Settled(st: State, r: State, id: nat, now: Time) {
    Core(r, None) && QuietOk(r) && Moved(st, r, id) && Outcome(st, r, id, now)
  }

  lemma SettledTrans(a: State, b: State, c: State, id: nat, now: Time)
    requires Steady(a, b, id) && Settled(b, c, id, now)
    ensures Settled(a, c, id, now)
  {
    hide Core, QuietOk, Steady, Moved, Outcome;
    MovedTrans(a, b, c, id, now);
  }

  lemma EndSettled(st: State, id: nat, status: nat, now: Time)
    requires Core(st, Some(id)) && id in st.queries
    requires EndOk(st.cfg, Done(id, status, st.queries[id].timeouts, st.queries[id].tryCount, st.queries[id].considered))
    ensures Settled(st, EndQuery(st, id, status), id, now) && id !in EndQuery(st, id, status).queries
  {
    hide Core, QuietOk, Moved, EndOk, EndQuery;
    EndQueryCore(st, id, status);
  }

  lemma ArmSettled(st: State, id: nat, now: Time, jitter: nat)
    requires Core(st, Some(id)) && id in st.queries && ArmReady(st, id) && ClockFine(st, now)
    ensures Settled(st, Arm(st, id, now, jitter), id, now)
  {
    assert TimersOk(st, Some(id)) && id in st.all;
    var r := Arm(st, id, now, jitter);
    assert r.all == st.all;
    hide Core, Moved, Outcome, ArmReady, ClockFine, Arm, TimersOk;
    ArmCore(st, id, now, jitter);
    ArmMoved(st, id, now, jitter);
  }

  lemma CoreWF(st: State, x: Option<nat>)
    requires Core(st, x)
    ensures WF(st)
  {
  }

  lemma NextServerIs(st: State, id: nat, now: Time)
    requires WF(st) && id in st.queries
    ensures NextServer(st, id, now) ==
      if st.queries[id].tryCount + 1 >= Limit(st.cfg) then Exhaust(st, id)
      else if Eligible(Advance(st, id), id) then SendQuery(Advance(st, id), id, now)
      else NextServer(Advance(st, id), id, now)
  {
    hide Exhaust, Eligible, SendQuery, Advance, Limit;
  }

  lemma LastSteady(st: State, id: nat)
    requires WF(st) && id in st.queries
    ensures var q := st.queries[id];
      var p := q.(tryCount := q.tryCount + 1);
      var a := SetQuery(st, id, p);
      && WF(a) && id in a.queries && a.queries[id] == p && a.cfg == st.cfg && Steady(st, a, id)
      && Exhaust(st, id) == EndQuery(a, id, q.errorStatus)
      && |q.info| == st.cfg.nservers && p.info == q.info
  {
    hide EndQuery, Limit;
  }

  lemma SetQueryServers(st: State, id: nat, p: Query)
    ensures SetQuery(st, id, p).servers == st.servers
  {
  }

  lemma LastSane(st: State, a: State, id: nat)
    requires WF(st) && WF(a) && id in st.queries && id in a.queries && Sane(st, id)
    requires a.cfg == st.cfg && a.servers == st.servers
    requires a.queries[id] == st.queries[id].(tryCount := st.queries[id].tryCount + 1)
    requires a.queries[id].tryCount == Limit(st.cfg)
    ensures Sane(a, id)
    ensures EndOk(a.cfg,
      Done(id, st.queries[id].errorStatus, a.queries[id].timeouts, a.queries[id].tryCount, a.queries[id].considered))
  {
    hide Limit, EachServer, InTurn;
    var q := st.queries[id];
    EveryServerTries(q.considered, q.first, st.cfg);
  }

  /** The last attempt is used up. */
  lemma ExhaustedCore(st: State, id: nat, now: Time)
    requires Core(st, Some(id)) && id in st.queries && st.queries[id].tryCount + 1 == Limit(st.cfg)
    ensures Settled(st, Exhaust(st, id), id, now) && id !in Exhaust(st, id).queries
  {
    hide *;
    var q := st.queries[id];
    var p := q.(tryCount := q.tryCount + 1);
    QueryParts(st, id);
    LastSteady(st, id);
    var a := SetQuery(st, id, p);
    SetQueryServers(st, id, p);
    LastSane(st, a, id);
    SetQueryCore(st, id, p);
    EndSettled(a, id, q.errorStatus, now);
    SettledTrans(st, a, EndQuery(a, id, q.errorStatus), id, now);
  }

  lemma NextServerCore(st: State, id: nat, now: Time)
    requires Core(st, Some(id)) && id in st.queries && ClockFine(st, now)
    requires st.queries[id].tryCount < Limit(st.cfg) && Spent(st, id, st.queries[id].tryCount + 1)
    ensures var r := NextServer(st, id, now);
      Settled(st, r, id, now) && (id in r.queries ==> r.queries[id].tryCount > st.queries[id].tryCount)
    decreases AttemptsLeft(st, id), 0
  {
    hide *;
    CoreWF(st, Some(id));
    NextServerIs(st, id, now);
    var q := st.queries[id];
    if q.tryCount + 1 >= Limit(st.cfg) {
      ExhaustedCore(st, id, now);
    } else {
      AdvanceCore(st, id);
      var a := Advance(st, id);
      SteadyBasics(st, a, id);
      if Eligible(a, id) {
        SendQueryCore(a, id, now);
      } else {
        SpentMore(a, id, a.queries[id].tryCount, a.queries[id].tryCount + 1);
        AttemptsRemain(a, st, id);
        NextServerCore(a, id, now);
      }
      SettledTrans(st, a, NextServer(st, id, now), id, now);
    }
  }

  lemma AttemptsRemain(a: State, st: State, id: nat)
    requires Steady(st, a, id)
    ensures Limit(a.cfg) == Limit(st.cfg)
  {
  }

  lemma SteadyBasics(st: State, a: State, id: nat)
    requires Steady(st, a, id)
    ensures id in a.queries && a.cfg == st.cfg && a.clockOk == st.clockOk && a.lastTimeout == st.lastTimeout
    ensures forall now :: ClockFine(st, now) ==> ClockFine(a, now)
    ensures a.queries[id].tryCount >= st.queries[id].tryCount && a.log == st.log
  {
  }

  /** The current server would not take the query: skip it and go on to the next. */
  lemma GiveUpOnServer(st: State, a: State, id: nat, now: Time)
    requires WF(st) && id in st.queries && Steady(st, a, id) && Core(a, Some(id)) && ClockFine(a, now)
    requires a.queries[id] == st.queries[id] && PreSend(a, id)
    ensures var s := a.queries[id].server;
      var r := NextServer(SkipServer(a, id, s), id, now);
      Settled(st, r, id, now) && (id in r.queries ==> r.queries[id].tryCount >= st.queries[id].tryCount)
    decreases AttemptsLeft(st, id), 1
  {
    hide *;
    CoreWF(a, Some(id));
    SteadyBasics(st, a, id);
    var s := a.queries[id].server;
    var n := a.queries[id].tryCount;
    ServerInRange(a, id);
    var b := SkipServer(a, id, s);
    PreSendSpent(a, id);
    SkipServerCore(a, id, s);
    CoreWF(b, Some(id));
    SteadyBasics(a, b, id);
    SpentMore(b, id, n, n + 1);
    SteadyTrans(st, a, b, id);
    SameAttempts(st, b, id);
    AttemptsRemain(b, a, id);
    NextServerCore(b, id, now);
    SettledTrans(st, b, NextServer(b, id, now), id, now);
  }

  lemma ServerInRange(st: State, id: nat)
    requires WF(st) && id in st.queries
    ensures st.queries[id].server < st.cfg.nservers
  {
  }

  lemma PreSendSpent(st: State, id: nat)
    requires WF(st) && id in st.queries && PreSend(st, id)
    ensures st.queries[id].tryCount < Limit(st.cfg) && Spent(st, id, st.queries[id].tryCount)
  {
  }

  lemma SameAttempts(st: State, b: State, id: nat)
    requires Steady(st, b, id) && b.queries[id].tryCount == st.queries[id].tryCount
    ensures AttemptsLeft(b, id) == AttemptsLeft(st, id)
  {
  }

  lemma TransmitTcpCore(a: State, id: nat, now: Time, c: Choice)
    requires Core(a, Some(id)) && id in a.queries && ClockFine(a, now) && PreSend(a, id) && a.queries[id].usingTcp
    ensures Settled(a, TransmitTcp(a, id, now, c), id, now)
  {
    var s := a.queries[id].server;
    assert a.queries[id].tryCount < Limit(a.cfg);
    var b := OpenTcp(a, s);
    OpenTcpCore(a, s, Some(id));
    SocketKeeps(a, b, id);
    assert b.queries == a.queries && b.cfg == a.cfg;
    assert EndOk(b.cfg, Done(id, ENOMEM, b.queries[id].timeouts, b.queries[id].tryCount, b.queries[id].considered));
    var d := QueueRequest(b, id);
    assert d.queries == a.queries;
    hide Core, Settled, Steady, PreSend, Moved, Outcome, EndOk, OpenTcp, QueueRequest, Stamp, Arm, EndQuery, ArmReady, SocketStep;
    if !c.allocates {
      EndSettled(b, id, ENOMEM, now);
      SettledTrans(a, b, EndQuery(b, id, ENOMEM), id, now);
    } else {
      QueueRequestCore(b, id);
      SocketKeeps(b, d, id);
      SteadyTrans(a, b, d, id);
      StampCore(d, id);
      StampReady(d, id);
      var e := Stamp(d, id);
      SteadyTrans(a, d, e, id);
      SteadyBasics(a, e, id);
      ArmSettled(e, id, now, c.jitter);
      SettledTrans(a, e, Arm(e, id, now, c.jitter), id, now);
    }
  }

  lemma SendUdpCore(a: State, id: nat, now: Time, c: Choice)
    requires Core(a, Some(id)) && id in a.queries && ClockFine(a, now) && PreSend(a, id) && !a.queries[id].usingTcp
    ensures var ready := OpenUdp(a, a.queries[id].server);
      && Core(ready, Some(id)) && Steady(a, ready, id) && PreSend(ready, id) && ClockFine(ready, now)
      && ready.queries == a.queries
      && Settled(a, Arm(ready, id, now, c.jitter), id, now)
  {
    var s := a.queries[id].server;
    var b := OpenUdp(a, s);
    OpenUdpCore(a, s, Some(id));
    SocketKeeps(a, b, id);
    assert ArmReady(b, id);
    assert b.queries == a.queries && b.cfg == a.cfg;
    hide Core, Settled, Steady, PreSend, Moved, Outcome, OpenUdp, Arm, ArmReady, SocketStep;
    SteadyBasics(a, b, id);
    ArmSettled(b, id, now, c.jitter);
    SettledTrans(a, b, Arm(b, id, now, c.jitter), id, now);
  }

  lemma BumpSteady(st: State, id: nat)
    requires Core(st, Some(id)) && id in st.queries && PreSend(st, id)
    ensures var a := st.(step := st.step + 1); Core(a, Some(id)) && Steady(st, a, id) && PreSend(a, id)
  {
    var a := st.(step := st.step + 1);
    StepCore(st, Some(id));
    assert SocketStep(st, a);
    SocketKeeps(st, a, id);
  }

  lemma SendQueryIs(st: State, id: nat, now: Time)
    requires WF(st) && id in st.queries
    ensures var c := Env(st);
      var a := st.(step := st.step + 1);
      var s := st.queries[id].server;
      SendQuery(st, id, now) ==
        if st.queries[id].usingTcp then
          if !st.servers[s].tcpOpen && !c.opens then NextServer(SkipServer(a, id, s), id, now)
          else TransmitTcp(a, id, now, c)
        else if !st.servers[s].udpOpen && !c.opens then NextServer(SkipServer(a, id, s), id, now)
        else if !c.writes then NextServer(SkipServer(OpenUdp(a, s), id, s), id, now)
        else Arm(OpenUdp(a, s), id, now, c.jitter)
  {
    hide NextServer, SkipServer, TransmitTcp, OpenUdp, Arm, Env;
  }

  lemma SendQueryCore(st: State, id: nat, now: Time)
    requires Core(st, Some(id)) && id in st.queries && PreSend(st, id) && ClockFine(st, now)
    ensures var r := SendQuery(st, id, now);
      Settled(st, r, id, now) && (id in r.queries ==> r.queries[id].tryCount >= st.queries[id].tryCount)
    decreases AttemptsLeft(st, id), 2
  {
    hide *;
    CoreWF(st, Some(id));
    SendQueryIs(st, id, now);
    var c := Env(st);
    var a := st.(step := st.step + 1);
    BumpSteady(st, id);
    SteadyBasics(st, a, id);
    CoreWF(a, Some(id));
    ServerInRange(a, id);
    if a.queries[id].usingTcp {
      TransmitTcpCore(a, id, now, c);
      SettledTrans(st, a, TransmitTcp(a, id, now, c), id, now);
      OutcomeTries(st, TransmitTcp(a, id, now, c), id, now);
      GiveUpOnServer(st, a, id, now);
    } else {
      SendUdpCore(a, id, now, c);
      var b := OpenUdp(a, a.queries[id].server);
      SettledTrans(st, a, Arm(b, id, now, c.jitter), id, now);
      OutcomeTries(st, Arm(b, id, now, c.jitter), id, now);
      GiveUpOnServer(st, a, id, now);
      SteadyTrans(st, a, b, id);
      GiveUpOnServer(st, b, id, now);
    }
  }

  lemma OutcomeTries(st: State, r: State, id: nat, now: Time)
    requires Settled(st, r, id, now)
    ensures id in st.queries
    ensures id in r.queries ==> r.queries[id].tryCount >= st.queries[id].tryCount
  {
  }
}
