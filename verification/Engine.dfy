/** The c-ares query engine as a state machine: the channel's data and the steps that move one
    query (ares_process.c, ares__close_sockets.c). What the outside world decides - whether a
    socket opens, a write or an allocation succeeds, the random jitter - is read from an
    environment stream, so every statement about all environments is a statement about all
    outcomes. The log records what the engine does that can be seen from outside. */
module Engine {
  import opened Seqs
  import opened Clock

  const QID_TABLE: nat := 2048
  const TIMEOUT_TABLE: nat := 1024
  const PACKETSZ: nat := 512

  const SUCCESS: nat := 0
  const EBADQUERY: nat := 7
  const ECONNREFUSED: nat := 11
  const ETIMEOUT: nat := 12
  const ENOMEM: nat := 15
  const ECANCELLED: nat := 24

  /** Outcomes of the outside world while one step runs. copies(s, i) tells whether the copy of
      request i of server s's queue can be allocated. */
  datatype Choice = Choice(opens: bool, allocates: bool, writes: bool, jitter: nat, copies: (nat, nat) -> bool)

  datatype Config = Config(nservers: nat, tries: nat, timeout: nat, usevc: bool, igntc: bool, stayopen: bool,
                           nocheckresp: bool, rotate: bool, env: nat -> Choice)

  datatype ServerInfo = ServerInfo(skip: bool, generation: nat)

  /** struct query; first and startedTcp never change after ares_send and only record how it began;
      considered lists, attempt by attempt, the servers it has been due to go to. */
  datatype Query = Query(qid: nat, timeout: Time, tcpbuf: seq<byte>, tryCount: nat, server: nat, info: seq<ServerInfo>,
                         usingTcp: bool, errorStatus: nat, timeouts: nat, first: nat, startedTcp: bool,
                         considered: seq<nat>)

  /** struct send_request: copied means data_storage owns the bytes. */
  datatype Request = Request(owner: Option<nat>, data: seq<byte>, copied: bool)

  datatype Server = Server(udpOpen: bool, tcpOpen: bool, generation: nat, broken: bool, queue: seq<Request>, inflight: seq<nat>)

  /** Sent: a datagram was written or a request queued on a connection, and a deadline set.
      Done: the query's callback ran. Rejected: ares_send refused the packet. */
  datatype Event =
    | Sent(id: nat, server: nat, tcp: bool, generation: nat, attempt: nat, wait: nat, skipped: bool)
    | Done(id: nat, status: nat, timeouts: nat, attempts: nat, considered: seq<nat>)
    | Rejected(status: nat)

  /** struct ares_channeldata. Queries are named by numbers that are never reused; limbo is the
      temporary list head of handle_error. */
  datatype State = State(cfg: Config, servers: seq<Server>, queries: map<nat, Query>, all: seq<nat>,
                         byQid: seq<seq<nat>>, byTimeout: seq<seq<nat>>, limbo: seq<nat>, nextId: nat,
                         generation: nat, lastTimeout: nat, lastServer: nat, step: nat, log: seq<Event>,
                         clockOk: bool, dangling: bool)

  ghost predicate WF(st: State) {
    && st.cfg.nservers >= 1 && st.cfg.tries >= 1
    && |st.servers| == st.cfg.nservers && st.lastServer < st.cfg.nservers
    && |st.byQid| == QID_TABLE && |st.byTimeout| == TIMEOUT_TABLE
    && (forall id :: id in st.queries ==> |st.queries[id].info| == st.cfg.nservers && st.queries[id].server < st.cfg.nservers)
  }

  function Limit(cfg: Config): nat { cfg.nservers * cfg.tries }

  ghost function Env(st: State): Choice { st.cfg.env(st.step) }

  /** Unlinking a node from whichever of these lists holds it. */
  function Unlink(lists: seq<seq<nat>>, id: nat): (r: seq<seq<nat>>)
    ensures |r| == |lists| && forall i :: 0 <= i < |lists| ==> r[i] == Without(lists[i], id)
  {
    seq(|lists|, i requires 0 <= i < |lists| => Without(lists[i], id))
  }

  function UnlinkServers(servers: seq<Server>, id: nat): (r: seq<Server>)
    ensures |r| == |servers|
    ensures forall i :: 0 <= i < |servers| ==> r[i] == servers[i].(inflight := Without(servers[i].inflight, id))
  {
    seq(|servers|, i requires 0 <= i < |servers| => servers[i].(inflight := Without(servers[i].inflight, id)))
  }

  ghost function SetQuery(st: State, id: nat, q: Query): State { st.(queries := st.queries[id := q]) }

  /** skip_server: only with servers to spare. */
  ghost function SkipServer(st: State, id: nat, s: nat): (r: State)
    requires WF(st) && id in st.queries && s < st.cfg.nservers
    ensures WF(r)
  {
    var q := st.queries[id];
    if st.cfg.nservers > 1 then SetQuery(st, id, q.(info := q.info[s := q.info[s].(skip := true)])) else st
  }

  /** ares__close_sockets for server s. */
  ghost function CloseSockets(st: State, s: nat): (r: State)
    requires WF(st) && s < st.cfg.nservers
    ensures WF(r) && r.cfg == st.cfg
  {
    var v := st.servers[s].(queue := [], broken := false, udpOpen := false);
    if v.tcpOpen then
      st.(generation := st.generation + 1,
          servers := st.servers[s := v.(tcpOpen := false, generation := st.generation + 1)])
    else st.(servers := st.servers[s := v])
  }

  /** Closing servers s, s+1, ... in turn. */
  ghost function CloseFrom(st: State, s: nat): (r: State)
    requires WF(st) && s <= st.cfg.nservers
    ensures WF(r) && r.cfg == st.cfg
    decreases st.cfg.nservers - s
  {
    if s == st.cfg.nservers then st else CloseFrom(CloseSockets(st, s), s + 1)
  }

  ghost predicate Drops(r: Request, id: nat, success: bool, copy: bool) {
    r.owner == Some(id) && !(success && copy)
  }

  /** What end_query does to one queued request. */
  ghost function ReleaseRequest(r: Request, id: nat, success: bool, copy: bool): Request {
    if r.owner != Some(id) then r
    else if success && copy then Request(None, r.data, true)
    else Request(None, [], false)
  }

  ghost function ReleaseQueue(v: Server, id: nat, success: bool, copies: nat -> bool): Server {
    v.(queue := seq(|v.queue|, i requires 0 <= i < |v.queue| => ReleaseRequest(v.queue[i], id, success, copies(i))),
       broken := v.broken || exists i :: 0 <= i < |v.queue| && Drops(v.queue[i], id, success, copies(i)))
  }

  ghost function CopiesFor(c: Choice, s: nat): nat -> bool { (i: nat) => c.copies(s, i) }

  ghost function Release(st: State, id: nat, success: bool): (r: State)
    requires WF(st)
    ensures WF(r) && r.cfg == st.cfg
  {
    var c := Env(st);
    st.(step := st.step + 1,
        servers := seq(|st.servers|, s requires 0 <= s < |st.servers| =>
          ReleaseQueue(st.servers[s], id, success, CopiesFor(c, s))))
  }

  /** The callback runs and ares__free_query unlinks the query everywhere. */
  ghost function FreeQuery(st: State, id: nat, status: nat, timeouts: nat): (r: State)
    requires WF(st) && id in st.queries
    ensures WF(r) && r.cfg == st.cfg
  {
    st.(log := st.log + [Done(id, status, timeouts, st.queries[id].tryCount, st.queries[id].considered)],
        queries := map j | j in st.queries && j != id :: st.queries[j],
        all := Without(st.all, id),
        byQid := Unlink(st.byQid, id),
        byTimeout := Unlink(st.byTimeout, id),
        limbo := Without(st.limbo, id),
        servers := UnlinkServers(st.servers, id))
  }

  ghost function EndQuery(st: State, id: nat, status: nat): (r: State)
    requires WF(st) && id in st.queries
    ensures WF(r) && r.cfg == st.cfg
  {
    var freed := FreeQuery(Release(st, id, status == SUCCESS), id, status, st.queries[id].timeouts);
    if !st.cfg.stayopen && freed.all == [] then CloseFrom(freed, 0) else freed
  }

  ghost function OpenTcp(st: State, s: nat): (r: State)
    requires WF(st) && s < st.cfg.nservers
    ensures WF(r)
  {
    if st.servers[s].tcpOpen then st
    else st.(generation := st.generation + 1,
             servers := st.servers[s := st.servers[s].(tcpOpen := true, generation := st.generation + 1)])
  }

  ghost function OpenUdp(st: State, s: nat): (r: State)
    requires WF(st) && s < st.cfg.nservers
    ensures WF(r)
  {
    st.(servers := st.servers[s := st.servers[s].(udpOpen := true)])
  }

  /** Queue the whole of tcpbuf on the query's server. */
  ghost function QueueRequest(st: State, id: nat): (r: State)
    requires WF(st) && id in st.queries
    ensures WF(r)
  {
    var q := st.queries[id];
    var v := st.servers[q.server];
    st.(servers := st.servers[q.server := v.(queue := v.queue + [Request(Some(id), q.tcpbuf, false)])])
  }

  /** Note in the query which incarnation of the connection it was queued on. */
  ghost function Stamp(st: State, id: nat): (r: State)
    requires WF(st) && id in st.queries
    ensures WF(r)
  {
    var q := st.queries[id];
    SetQuery(st, id, q.(info := q.info[q.server := q.info[q.server].(generation := st.servers[q.server].generation)]))
  }

  function TimeoutBucket(t: Time): (b: nat)
    ensures b < TIMEOUT_TABLE
  {
    t.sec % TIMEOUT_TABLE
  }

  function QidBucket(qid: nat): (b: nat)
    ensures b < QID_TABLE
  {
    qid % QID_TABLE
  }

  ghost function Backoff(st: State, id: nat, jitter: nat): nat
    requires WF(st) && id in st.queries
  {
    Wait(st.cfg.timeout, st.queries[id].tryCount, st.cfg.nservers, jitter)
  }

  ghost function SentEvent(st: State, id: nat, jitter: nat): Event
    requires WF(st) && id in st.queries
  {
    var q := st.queries[id];
    Sent(id, q.server, q.usingTcp, q.info[q.server].generation, q.tryCount, Backoff(st, id, jitter), q.info[q.server].skip)
  }

  /** The end of ares__send_query: set the deadline and move the query to the tails of its timer
      bucket and of its server's list. */
  ghost function Arm(st: State, id: nat, now: Time, jitter: nat): (r: State)
    requires WF(st) && id in st.queries
    ensures WF(r)
  {
    var q := st.queries[id];
    var deadline := TimeAdd(now, Backoff(st, id, jitter));
    var timers := Unlink(st.byTimeout, id);
    var servers := UnlinkServers(st.servers, id);
    var b, s := TimeoutBucket(deadline), q.server;
    SetQuery(
      st.(byTimeout := timers[b := timers[b] + [id]],
          servers := servers[s := servers[s].(inflight := servers[s].inflight + [id])],
          limbo := Without(st.limbo, id),
          log := st.log + [SentEvent(st, id, jitter)]),
      id, q.(timeout := deadline))
  }

  /** Count one more attempt and move on to the server after the current one. */
  ghost function Advance(st: State, id: nat): (r: State)
    requires WF(st) && id in st.queries
    ensures WF(r)
  {
    var q := st.queries[id];
    var s := (q.server + 1) % st.cfg.nservers;
    SetQuery(st, id, q.(tryCount := q.tryCount + 1, server := s, considered := q.considered + [s]))
  }

  ghost predicate Eligible(st: State, id: nat)
    requires WF(st) && id in st.queries
  {
    var q := st.queries[id];
    var v := st.servers[q.server];
    !v.broken && !q.info[q.server].skip && !(q.usingTcp && q.info[q.server].generation == v.generation)
  }

  ghost function AttemptsLeft(st: State, id: nat): nat
    requires id in st.queries
  {
    var d := Limit(st.cfg) - st.queries[id].tryCount;
    if d < 0 then 0 else d
  }

  /** All attempts are used up: the query ends with the error it met last. */
  ghost function Exhaust(st: State, id: nat): (r: State)
    requires WF(st) && id in st.queries
    ensures WF(r)
  {
    var q := st.queries[id];
    EndQuery(SetQuery(st, id, q.(tryCount := q.tryCount + 1)), id, q.errorStatus)
  }

  /** Queue on the (now open) connection of the current server, or end for lack of memory. */
  ghost function TransmitTcp(st: State, id: nat, now: Time, c: Choice): (r: State)
    requires WF(st) && id in st.queries
    ensures WF(r)
  {
    var ready := OpenTcp(st, st.queries[id].server);
    if !c.allocates then EndQuery(ready, id, ENOMEM)
    else Arm(Stamp(QueueRequest(ready, id), id), id, now, c.jitter)
  }

  /** next_server: try the servers in turn until one takes the query or the attempts run out. */
  ghost function NextServer(st: State, id: nat, now: Time): (r: State)
    requires WF(st) && id in st.queries
    ensures WF(r)
    decreases AttemptsLeft(st, id), 0
  {
    if st.queries[id].tryCount + 1 >= Limit(st.cfg) then Exhaust(st, id)
    else
      var a := Advance(st, id);
      if Eligible(a, id) then SendQuery(a, id, now) else NextServer(a, id, now)
  }

  /** ares__send_query: transmit to the current server, or skip it and go on. */
  ghost function SendQuery(st0: State, id: nat, now: Time): (r: State)
    requires WF(st0) && id in st0.queries
    ensures WF(r)
    decreases AttemptsLeft(st0, id), 1
  {
    var c := Env(st0);
    var st := st0.(step := st0.step + 1);
    var q := st.queries[id];
    var v := st.servers[q.server];
    if q.usingTcp then
      if !v.tcpOpen && !c.opens then NextServer(SkipServer(st, id, q.server), id, now)
      else TransmitTcp(st, id, now, c)
    else if !v.udpOpen && !c.opens then NextServer(SkipServer(st, id, q.server), id, now)
    else
      var ready := OpenUdp(st, q.server);
      if !c.writes then NextServer(SkipServer(ready, id, q.server), id, now)
      else Arm(ready, id, now, c.jitter)
  }

  // ---------- ares_send ----------

  function Be16Of(qbuf: seq<byte>): nat
    requires |qbuf| >= 2
  {
    qbuf[0] as nat * 256 + qbuf[1]
  }

  /** The two length bytes put before the packet for TCP. */
  function LengthPrefix(n: nat): seq<byte>
    requires n < 65536
  {
    [n / 256, n % 256]
  }

  function NewQuery(cfg: Config, qbuf: seq<byte>, server: nat): Query
    requires 12 <= |qbuf| < 65536
  {
    var tcp := cfg.usevc || |qbuf| > PACKETSZ;
    Query(Be16Of(qbuf), Time(0, 0), LengthPrefix(|qbuf|) + qbuf, 0, server, seq(cfg.nservers, _ => ServerInfo(false, 0)),
          tcp, ECONNREFUSED, 0, server, tcp, [server])
  }

  /** The new query joins the list of all queries and its query-id bucket. */
  ghost function Admit(st: State, qbuf: seq<byte>): (r: State)
    requires WF(st) && 12 <= |qbuf| < 65536
    ensures WF(r)
  {
    var id := st.nextId;
    var q := NewQuery(st.cfg, qbuf, st.lastServer);
    var b := QidBucket(q.qid);
    SetQuery(
      st.(nextId := id + 1, all := st.all + [id], byQid := st.byQid[b := st.byQid[b] + [id]],
          lastServer := if st.cfg.rotate then (st.lastServer + 1) % st.cfg.nservers else st.lastServer),
      id, q)
  }

  ghost function Send(st: State, qbuf: seq<byte>, now: Time): (r: State)
    requires WF(st)
    ensures WF(r)
  {
    if |qbuf| < 12 || |qbuf| >= 65536 then st.(log := st.log + [Rejected(EBADQUERY)])
    else SendQuery(Admit(st, qbuf), st.nextId, now)
  }

  // ---------- ares_cancel ----------

  /** Some queued request still points into a query's buffer. */
  ghost predicate Owned(servers: seq<Server>) {
    exists s, i :: 0 <= s < |servers| && 0 <= i < |servers[s].queue| && servers[s].queue[i].owner.Some?
  }

  /** The loop of ares_cancel over all_queries: no request is released. */
  ghost function CancelAll(st: State): (r: State)
    requires WF(st) && forall id :: id in st.all ==> id in st.queries
    ensures WF(r)
    decreases |st.all|
  {
    if st.all == [] then st
    else
      var id := st.all[0];
      FreedShorter(st.all, id);
      CancelAll(FreeQuery(st, id, ECANCELLED, 0))
  }

  lemma FreedShorter(all: seq<nat>, id: nat)
    requires id in all
    ensures |Without(all, id)| < |all|
    ensures forall j :: j in Without(all, id) ==> j in all && j != id
  {
    WithoutMembers(all, id);
    WithoutFewer(all, id);
  }

  lemma {:induction false} WithoutFewer(s: seq<nat>, x: nat)
    requires x in s
    ensures |Without(s, x)| < |s|
  {
    var front := s[..|s| - 1];
    assert s == front + [s[|s| - 1]];
    if x in front { WithoutFewer(front, x); }
  }

  /** ares_cancel. The field dangling records that a request may now point into a freed query. */
  ghost function Cancel(st: State): (r: State)
    requires WF(st) && forall id :: id in st.all ==> id in st.queries
    ensures WF(r)
  {
    var a := CancelAll(st.(dangling := true));
    if st.cfg.stayopen then a.(dangling := st.dangling || Owned(st.servers))
    else CloseFrom(a, 0).(dangling := st.dangling)
  }

  // ---------- advance_tcp_send_queue ----------

  /** Take n bytes off the head of a send queue. */
  function AdvanceQueue(queue: seq<Request>, n: nat): seq<Request>
    requires n > 0 ==> queue != []
  {
    if n == 0 then queue
    else
      var head := queue[0];
      if n >= |head.data| then
        if |queue| == 1 then [] else AdvanceQueue(queue[1..], n - |head.data|)
      else [head.(data := head.data[n..])] + queue[1..]
  }

  ghost function Wrote(st: State, s: nat, n: nat): (r: State)
    requires WF(st) && s < st.cfg.nservers && st.servers[s].queue != []
    ensures WF(r)
  {
    st.(servers := st.servers[s := st.servers[s].(queue := AdvanceQueue(st.servers[s].queue, n))])
  }
}
