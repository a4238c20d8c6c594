/** What holds of the query engine between any two steps, and how each small step keeps it. The
    parameter x names a query in transit: one that is being moved and whose own timer, server list
    and retry bookkeeping are not yet up to date. */
module EngineInv {
  import opened Seqs
  import opened Clock
  import opened Engine

  // ---------- history ----------

  ghost function Sends(log: seq<Event>, id: nat): nat {
    if log == [] then 0
    else
      var e := log[|log| - 1];
      Sends(log[..|log| - 1], id) + if e.Sent? && e.id == id then 1 else 0
  }

  ghost function Waits(log: seq<Event>, id: nat): nat {
    if log == [] then 0
    else
      var e := log[|log| - 1];
      Waits(log[..|log| - 1], id) + if e.Sent? && e.id == id then e.wait else 0
  }

  ghost function Dones(log: seq<Event>, id: nat): nat {
    if log == [] then 0
    else
      var e := log[|log| - 1];
      Dones(log[..|log| - 1], id) + if e.Done? && e.id == id then 1 else 0
  }

  lemma Appended(log: seq<Event>, e: Event, id: nat)
    ensures Sends(log + [e], id) == Sends(log, id) + if e.Sent? && e.id == id then 1 else 0
    ensures Waits(log + [e], id) == Waits(log, id) + if e.Sent? && e.id == id then e.wait else 0
    ensures Dones(log + [e], id) == Dones(log, id) + if e.Done? && e.id == id then 1 else 0
  {
    assert (log + [e])[..|log + [e]| - 1] == log;
  }

  // ---------- the four indexes ----------

  ghost function InBucket(ids: seq<nat>, queries: map<nat, Query>, b: nat): seq<nat> {
    if ids == [] then []
    else
      var id := ids[|ids| - 1];
      InBucket(ids[..|ids| - 1], queries, b) + if id in queries && QidBucket(queries[id].qid) == b then [id] else []
  }

  lemma {:induction false} BucketSame(ids: seq<nat>, p: map<nat, Query>, q: map<nat, Query>, b: nat)
    requires forall id :: id in ids ==> (id in p <==> id in q)
    requires forall id :: id in ids && id in p ==> p[id].qid == q[id].qid
    ensures InBucket(ids, p, b) == InBucket(ids, q, b)
  {
    if ids != [] {
      var front := ids[..|ids| - 1];
      assert ids[|ids| - 1] in ids && forall id :: id in front ==> id in ids;
      BucketSame(front, p, q, b);
    }
  }

  lemma {:induction false} BucketWithout(ids: seq<nat>, queries: map<nat, Query>, b: nat, id: nat)
    ensures InBucket(Without(ids, id), queries, b) == Without(InBucket(ids, queries, b), id)
  {
    if ids != [] {
      var front, last := ids[..|ids| - 1], ids[|ids| - 1];
      BucketWithout(front, queries, b, id);
      var fb := InBucket(front, queries, b);
      WithoutConcat(fb, [last], id);
      assert fb + [] == fb;
      if last != id {
        assert (Without(front, id) + [last])[..|Without(front, id)|] == Without(front, id);
      }
    }
  }

  lemma BucketAppend(ids: seq<nat>, queries: map<nat, Query>, b: nat, id: nat)
    requires id in queries
    ensures InBucket(ids + [id], queries, b) == InBucket(ids, queries, b) + if QidBucket(queries[id].qid) == b then [id] else []
  {
    assert (ids + [id])[..|ids + [id]| - 1] == ids;
  }

  /** all_queries lists every live query once, in the order in which they were begun, and the server of the next
      query is that whose turn it is. */
  ghost predicate AllOk(st: State) {
    && NoDup(st.all) && Ascending(st.all)
    && (forall id :: id in st.all <==> id in st.queries)
    && (forall id :: id in st.queries ==> id < st.nextId)
    && st.lastServer == FirstServer(st.cfg, st.nextId)
  }

  /** Where the query with this number begins: with rotation the servers take turns. */
  function FirstServer(cfg: Config, id: nat): nat {
    if cfg.rotate && cfg.nservers >= 1 then id % cfg.nservers else 0
  }

  /** Each query-id bucket is the order-preserving filter of all_queries. */
  ghost predicate QidOk(st: State) {
    |st.byQid| == QID_TABLE && forall b :: 0 <= b < QID_TABLE ==> st.byQid[b] == InBucket(st.all, st.queries, b)
  }

  /** Each live query not in transit is in the timer bucket of its deadline and in no other. */
  ghost predicate TimersOk(st: State, x: Option<nat>) {
    && |st.byTimeout| == TIMEOUT_TABLE
    && (forall b :: 0 <= b < TIMEOUT_TABLE ==> NoDup(st.byTimeout[b]))
    && (forall b, id :: 0 <= b < TIMEOUT_TABLE && id in st.byTimeout[b] ==> id in st.queries)
    && (forall b, id :: 0 <= b < TIMEOUT_TABLE && id in st.queries && x != Some(id) ==>
         (id in st.byTimeout[b] <==> b == TimeoutBucket(st.queries[id].timeout)))
  }

  /** Each live query not in transit is in its server's list, or in the temporary list while an error
      is being handled, and in no other. */
  ghost predicate InflightOk(st: State, x: Option<nat>) {
    && NoDup(st.limbo)
    && (forall id :: id in st.limbo ==> id in st.queries)
    && (forall s :: 0 <= s < |st.servers| ==> NoDup(st.servers[s].inflight))
    && (forall s, id :: 0 <= s < |st.servers| && id in st.servers[s].inflight ==> id in st.queries)
    && (forall s, id :: 0 <= s < |st.servers| && id in st.queries && x != Some(id) ==>
         (id in st.servers[s].inflight <==> s == st.queries[id].server && id !in st.limbo))
  }

  // ---------- one query ----------

  ghost function Extra(q: Query): nat { if q.usingTcp && !q.startedTcp then 1 else 0 }

  ghost function WaitCap(cfg: Config, attempts: nat, extra: nat): nat
    requires cfg.nservers >= 1 && cfg.tries >= 1
  {
    Schedule(cfg.timeout, cfg.nservers, attempts) + extra * (cfg.timeout * Pow2(cfg.tries - 1))
  }

  /** How many servers a query has been due to go to: the last attempt counted goes to none. */
  ghost function Considered(cfg: Config, tryCount: nat): nat {
    if tryCount < Limit(cfg) then tryCount + 1 else Limit(cfg)
  }

  /** Attempt k is due at the server k places after the first. */
  ghost predicate InTurn(considered: seq<nat>, first: nat, n: nat)
    requires n >= 1
  {
    forall k :: 0 <= k < |considered| ==> considered[k] == (first + k) % n
  }

  /** Each server has been considered `tries` times. */
  ghost predicate EachServer(cfg: Config, considered: seq<nat>) {
    forall s :: 0 <= s < cfg.nservers ==> multiset(considered)[s] == cfg.tries
  }

  /** Holds of every live query at all times: the retry schedule, the incarnation stamps, and that its id is
      that of the packet it sends. */
  ghost predicate Sane(st: State, id: nat)
    requires WF(st) && id in st.queries
  {
    var q := st.queries[id];
    && q.tryCount <= Limit(st.cfg)
    && (q.tryCount < Limit(st.cfg) ==> q.server == (q.first + q.tryCount) % st.cfg.nservers)
    && |q.considered| == Considered(st.cfg, q.tryCount) && InTurn(q.considered, q.first, st.cfg.nservers)
    && q.errorStatus == (if q.timeouts > 0 then ETIMEOUT else ECONNREFUSED)
    && q.first == FirstServer(st.cfg, id)
    && |q.tcpbuf| >= 14 && q.qid == q.tcpbuf[2] as nat * 256 + q.tcpbuf[3]
    && (q.startedTcp ==> q.usingTcp)
    && (forall s :: 0 <= s < st.cfg.nservers ==> q.info[s].generation <= st.servers[s].generation)
    && (!q.usingTcp ==> forall s :: 0 <= s < st.cfg.nservers ==> q.info[s].generation == 0)
  }

  /** The sends and waits so far fit in the first `attempts` attempts plus the one switch to TCP. */
  ghost predicate Spent(st: State, id: nat, attempts: nat)
    requires WF(st) && id in st.queries
  {
    var extra := Extra(st.queries[id]);
    Sends(st.log, id) <= attempts + extra && Waits(st.log, id) <= WaitCap(st.cfg, attempts, extra)
  }

  /** A query that waits for its answer. */
  ghost predicate AtRest(st: State, id: nat)
    requires WF(st) && id in st.queries
  {
    var q := st.queries[id];
    && q.tryCount < Limit(st.cfg)
    && Spent(st, id, q.tryCount + 1)
    && !q.info[q.server].skip
    && (st.clockOk ==> q.timeout.Normal() && q.timeout.sec > 0 && q.timeout.sec >= st.lastTimeout)
  }

  /** A query about to be transmitted to its current server. */
  ghost predicate PreSend(st: State, id: nat)
    requires WF(st) && id in st.queries
  {
    var q := st.queries[id];
    && q.tryCount < Limit(st.cfg)
    && Spent(st, id, q.tryCount) && FreshTry(st, id)
    && !q.info[q.server].skip
    && (q.usingTcp ==> q.info[q.server].generation < st.servers[q.server].generation)
  }

  ghost predicate QueriesOk(st: State, x: Option<nat>)
    requires WF(st)
  {
    && (forall id :: id in st.queries ==> Sane(st, id))
    && (forall id :: id in st.queries && x != Some(id) ==> AtRest(st, id))
  }

  // ---------- the log ----------

  /** A query ends in refusal or timeout exactly when all its attempts are used up; it is a timeout when any
      has been counted, and each server has been considered equally often. */
  ghost predicate EndOk(cfg: Config, e: Event) {
    e.Done? ==>
      && e.attempts <= Limit(cfg)
      && ((e.status == ECONNREFUSED || e.status == ETIMEOUT) <==> e.attempts == Limit(cfg))
      && (e.attempts == Limit(cfg) ==> EachServer(cfg, e.considered) && (e.status == ETIMEOUT <==> e.timeouts > 0))
  }

  /** The wait is 9 to 16 sixteenths, rounded down, of the base timeout doubled once a round. */
  ghost predicate WaitOk(cfg: Config, e: Event)
    requires cfg.nservers >= 1 && e.Sent?
  {
    && e.attempt < Limit(cfg)
    && exists k :: 9 <= k <= 16 && e.wait == Sixteenths(cfg.timeout * Pow2(e.attempt / cfg.nservers), k)
  }

  ghost predicate LogOk(st: State)
    requires st.cfg.nservers >= 1 && st.cfg.tries >= 1
  {
    && (forall i :: 0 <= i < |st.log| ==> EndOk(st.cfg, st.log[i]))
    && (forall i :: 0 <= i < |st.log| && st.log[i].Sent? ==>
         !st.log[i].skipped && st.log[i].id < st.nextId && st.log[i].server < st.cfg.nservers)
    && (forall i :: 0 <= i < |st.log| && st.log[i].Sent? ==> WaitOk(st.cfg, st.log[i]))
  }

  /** Callbacks: once for a query that has ended, never for one that lives or does not exist yet. */
  ghost predicate CallbacksOk(st: State) {
    forall id: nat :: Dones(st.log, id) == if id < st.nextId && id !in st.queries then 1 else 0
  }

  ghost predicate CapsOk(st: State)
    requires st.cfg.nservers >= 1 && st.cfg.tries >= 1
  {
    forall id: nat ::
      && Sends(st.log, id) <= Limit(st.cfg) + 1
      && Waits(st.log, id) <= WaitCap(st.cfg, Limit(st.cfg), 1)
      && (id >= st.nextId ==> Sends(st.log, id) == 0 && Waits(st.log, id) == 0)
  }

  ghost predicate TcpSent(e: Event, id: nat, s: nat) { e.Sent? && e.tcp && e.id == id && e.server == s }

  ghost predicate SentBy(e: Event, id: nat) { e.Sent? && e.id == id }

  /** f is a later attempt than e, or the same one once more because the query has gone over to TCP; and
      there is no way back. */
  ghost predicate InOrder(e: Event, f: Event)
    requires e.Sent? && f.Sent?
  {
    (e.attempt < f.attempt || (e.attempt == f.attempt && !e.tcp && f.tcp)) && (e.tcp ==> f.tcp)
  }

  /** The transmissions of a query are in the order of its attempts. */
  ghost predicate OrderOk(st: State) {
    && (forall i, j, id :: 0 <= i < j < |st.log| && SentBy(st.log[i], id) && SentBy(st.log[j], id) ==>
         InOrder(st.log[i], st.log[j]))
    && (forall i, id :: 0 <= i < |st.log| && SentBy(st.log[i], id) && id in st.queries ==>
         st.log[i].attempt <= st.queries[id].tryCount && (st.log[i].tcp ==> st.queries[id].usingTcp))
  }

  /** The current attempt has not been transmitted, or not over TCP while it is due there now. */
  ghost predicate FreshTry(st: State, id: nat)
    requires id in st.queries
  {
    var q := st.queries[id];
    forall i :: 0 <= i < |st.log| && SentBy(st.log[i], id) ==>
      && (st.log[i].attempt < q.tryCount || (st.log[i].attempt == q.tryCount && !st.log[i].tcp && q.usingTcp))
      && (st.log[i].tcp ==> q.usingTcp)
  }

  /** The incarnations a query was queued on, per server, strictly increase. */
  ghost predicate StampsOk(st: State)
    requires WF(st)
  {
    && (forall i, j, id, s :: 0 <= i < j < |st.log| && TcpSent(st.log[i], id, s) && TcpSent(st.log[j], id, s) ==>
         st.log[i].generation < st.log[j].generation)
    && (forall i, id, s: nat :: 0 <= i < |st.log| && TcpSent(st.log[i], id, s) && id in st.queries && s < st.cfg.nservers ==>
         st.log[i].generation <= st.queries[id].info[s].generation)
    && OrderOk(st)
  }

  // ---------- servers ----------

  ghost predicate ServersOk(st: State) {
    forall s :: 0 <= s < |st.servers| ==>
      1 <= st.servers[s].generation <= st.generation && (st.servers[s].queue != [] ==> st.servers[s].tcpOpen)
  }

  ghost predicate IsSuffix(a: seq<byte>, b: seq<byte>) {
    |a| <= |b| && a == b[|b| - |a|..]
  }

  /** A queued request points into its live owner's buffer, or owns its bytes, or its server is broken. */
  ghost predicate RequestOk(queries: map<nat, Query>, broken: bool, r: Request) {
    match r.owner
    case Some(id) => !r.copied && id in queries && IsSuffix(r.data, queries[id].tcpbuf)
    case None => r.copied || broken
  }

  ghost predicate QueueOk(queries: map<nat, Query>, v: Server) {
    forall i :: 0 <= i < |v.queue| ==> RequestOk(queries, v.broken, v.queue[i])
  }

  ghost predicate QueuesOk(st: State) {
    !st.dangling ==> forall s :: 0 <= s < |st.servers| ==> QueueOk(st.queries, st.servers[s])
  }

  ghost predicate Closed(v: Server) { !v.tcpOpen && !v.udpOpen && v.queue == [] && !v.broken }

  /** With nothing left to do and no wish to stay open, every socket and queue is gone. */
  ghost predicate QuietOk(st: State) {
    !st.cfg.stayopen && st.all == [] ==> forall s :: 0 <= s < |st.servers| ==> Closed(st.servers[s])
  }

  ghost predicate Core(st: State, x: Option<nat>) {
    && WF(st)
    && AllOk(st) && QidOk(st) && TimersOk(st, x) && InflightOk(st, x)
    && QueriesOk(st, x)
    && LogOk(st) && CallbacksOk(st) && CapsOk(st) && StampsOk(st)
    && ServersOk(st) && QueuesOk(st)
  }

  /** The invariant between API calls. */
  ghost predicate Inv(st: State) { Core(st, None) && st.limbo == [] && QuietOk(st) }

  // ---------- steps that touch only sockets, queues and incarnations ----------

  ghost predicate SocketStep(st: State, r: State) {
    && r == st.(servers := r.servers, generation := r.generation, step := r.step)
    && |r.servers| == |st.servers|
    && (forall s :: 0 <= s < |st.servers| ==>
         r.servers[s].inflight == st.servers[s].inflight && r.servers[s].generation >= st.servers[s].generation)
  }

  lemma SocketLists(st: State, r: State, x: Option<nat>)
    requires SocketStep(st, r)
    requires AllOk(st) && QidOk(st) && TimersOk(st, x) && InflightOk(st, x)
    ensures AllOk(r) && QidOk(r) && TimersOk(r, x) && InflightOk(r, x)
  {
    hide InBucket, NoDup, Ascending;
  }

  /** A query whose own record is untouched stays as it is while stamps grow elsewhere. */
  lemma QueryKept(st: State, r: State, id: nat)
    requires WF(st) && WF(r) && id in st.queries && id in r.queries && r.queries[id] == st.queries[id]
    requires r.cfg == st.cfg && r.clockOk == st.clockOk && r.lastTimeout == st.lastTimeout
    requires Sends(r.log, id) == Sends(st.log, id) && Waits(r.log, id) == Waits(st.log, id)
    requires forall s :: 0 <= s < |st.servers| ==> r.servers[s].generation >= st.servers[s].generation
    ensures Sane(st, id) ==> Sane(r, id)
    ensures AtRest(st, id) ==> AtRest(r, id)
  {
    hide Sends, Waits, WaitCap, Limit, Extra;
    if Sane(st, id) {
      forall s | 0 <= s < r.cfg.nservers ensures r.queries[id].info[s].generation <= r.servers[s].generation {
        assert r.servers[s].generation >= st.servers[s].generation;
      }
    }
  }

  lemma SocketQueries(st: State, r: State, x: Option<nat>)
    requires WF(st) && WF(r) && SocketStep(st, r) && QueriesOk(st, x)
    ensures QueriesOk(r, x)
  {
    hide Sane, AtRest;
    forall id | id in r.queries ensures Sane(r, id) && (x != Some(id) ==> AtRest(r, id)) { QueryKept(st, r, id); }
  }

  lemma SocketLog(st: State, r: State)
    requires WF(st) && WF(r) && SocketStep(st, r) && LogOk(st) && CallbacksOk(st) && CapsOk(st) && StampsOk(st)
    ensures LogOk(r) && CallbacksOk(r) && CapsOk(r) && StampsOk(r)
  {
    hide Sends, Waits, Dones, WaitCap, EndOk;
  }

  lemma SocketCore(st: State, r: State, x: Option<nat>)
    requires Core(st, x) && WF(r) && SocketStep(st, r) && ServersOk(r) && QueuesOk(r)
    ensures Core(r, x)
  {
    hide AllOk, QidOk, TimersOk, InflightOk, QueriesOk, LogOk, CallbacksOk, CapsOk, StampsOk, ServersOk, QueuesOk,
      SocketStep, WF;
    SocketLists(st, r, x);
    SocketQueries(st, r, x);
    SocketLog(st, r);
  }

  // ---------- steps that touch only the record of the query in transit ----------

  ghost predicate RecordStep(st: State, r: State, id: nat)
    requires WF(st) && WF(r)
  {
    && id in st.queries && id in r.queries
    && r == st.(queries := st.queries[id := r.queries[id]])
    && r.queries[id].qid == st.queries[id].qid && r.queries[id].tcpbuf == st.queries[id].tcpbuf
    && r.queries[id].tryCount >= st.queries[id].tryCount && (st.queries[id].usingTcp ==> r.queries[id].usingTcp)
    && (forall s :: 0 <= s < st.cfg.nservers ==> r.queries[id].info[s].generation >= st.queries[id].info[s].generation)
  }

  lemma RecordLists(st: State, r: State, id: nat)
    requires WF(st) && WF(r) && RecordStep(st, r, id)
    requires AllOk(st) && QidOk(st) && TimersOk(st, Some(id)) && InflightOk(st, Some(id))
    ensures AllOk(r) && QidOk(r) && TimersOk(r, Some(id)) && InflightOk(r, Some(id))
  {
    hide InBucket, NoDup, Ascending, TimeoutBucket, QidBucket;
    forall b | 0 <= b < QID_TABLE ensures r.byQid[b] == InBucket(r.all, r.queries, b) {
      BucketSame(st.all, st.queries, r.queries, b);
    }
  }

  lemma RecordQueries(st: State, r: State, id: nat)
    requires WF(st) && WF(r) && RecordStep(st, r, id) && QueriesOk(st, Some(id)) && Sane(r, id)
    ensures QueriesOk(r, Some(id))
  {
    hide Sane, AtRest;
    forall j | j in r.queries && j != id ensures Sane(r, j) && AtRest(r, j) { QueryKept(st, r, j); }
  }

  lemma RecordLog(st: State, r: State, id: nat)
    requires WF(st) && WF(r) && RecordStep(st, r, id) && LogOk(st) && CallbacksOk(st) && CapsOk(st) && StampsOk(st)
    ensures LogOk(r) && CallbacksOk(r) && CapsOk(r) && StampsOk(r)
  {
    hide Sends, Waits, Dones, WaitCap, EndOk;
  }

  lemma RecordServers(st: State, r: State, id: nat)
    requires WF(st) && WF(r) && RecordStep(st, r, id) && ServersOk(st) && QueuesOk(st)
    ensures ServersOk(r) && QueuesOk(r)
  {
    hide IsSuffix;
    if !r.dangling {
      forall s | 0 <= s < |r.servers| ensures QueueOk(r.queries, r.servers[s]) {
        assert QueueOk(st.queries, st.servers[s]);
      }
    }
  }

  lemma RecordCore(st: State, r: State, id: nat)
    requires Core(st, Some(id)) && WF(r) && RecordStep(st, r, id) && Sane(r, id)
    ensures Core(r, Some(id))
  {
    hide AllOk, QidOk, TimersOk, InflightOk, QueriesOk, LogOk, CallbacksOk, CapsOk, StampsOk, ServersOk, QueuesOk,
      RecordStep, WF, Sane;
    RecordLists(st, r, id);
    RecordQueries(st, r, id);
    RecordLog(st, r, id);
    RecordServers(st, r, id);
  }
}
