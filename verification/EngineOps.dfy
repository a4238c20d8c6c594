/** The channel's API as steps: ares_send, process_answer, process_timeouts, handle_error,
    advance_tcp_send_queue and ares_cancel, each defined where the invariant makes it total. */
module EngineOps {
  import opened Seqs
  import opened Clock
  import opened Names
  import opened Questions
  import opened Engine
  import opened EngineInv
  import opened EngineSteps

  // ---------- leaving and entering transit ----------

  lemma Depart(st: State, id: nat)
    requires Core(st, None)
    ensures Core(st, Some(id))
  {
    hide AllOk, QidOk, LogOk, CallbacksOk, CapsOk, StampsOk, ServersOk, QueuesOk, Sane, AtRest, NoDup, Ascending;
  }

  lemma RestParts(st: State, id: nat)
    requires Core(st, None) && id in st.queries
    ensures WF(st) && Sane(st, id) && AtRest(st, id) && id in st.all && id < st.nextId
    ensures st.queries[id].tryCount < Limit(st.cfg) && Spent(st, id, st.queries[id].tryCount + 1)
  {
  }

  // ---------- handle_error ----------

  /** ares__swap_lists with the fresh temporary head. */
  ghost function Steal(st: State, s: nat): (r: State)
    requires WF(st) && s < st.cfg.nservers
    ensures WF(r)
  {
    st.(limbo := st.servers[s].inflight, servers := st.servers[s := st.servers[s].(inflight := st.limbo)])
  }

  /** While an error on server s is being handled: everything in limbo was being served by s, and with
      servers to spare nobody else is. */
  ghost predicate Draining(st: State, s: nat) {
    && Core(st, None) && QuietOk(st) && s < st.cfg.nservers
    && (forall id :: id in st.limbo ==> st.queries[id].server == s)
    && (st.cfg.nservers > 1 ==> forall id :: id in st.queries && id !in st.limbo ==> st.queries[id].server != s)
  }

  lemma StealDraining(st: State, s: nat)
    requires Core(st, None) && QuietOk(st) && st.limbo == [] && s < st.cfg.nservers
    ensures Draining(Steal(st, s), s)
  {
    var r := Steal(st, s);
    StealLists(st, s);
    assert SocketStepButLists(st, r);
    StealRest(st, r);
  }

  ghost predicate SocketStepButLists(st: State, r: State) {
    && r == st.(limbo := r.limbo, servers := r.servers)
    && |r.servers| == |st.servers|
    && forall s :: 0 <= s < |st.servers| ==> r.servers[s] == st.servers[s].(inflight := r.servers[s].inflight)
  }

  lemma StealRest(st: State, r: State)
    requires Core(st, None) && QuietOk(st) && WF(r) && SocketStepButLists(st, r) && InflightOk(r, None)
    ensures Core(r, None) && QuietOk(r)
  {
    hide InBucket, NoDup, Ascending, Sends, Waits, Dones, WaitCap, EndOk, QueueOk, Sane, AtRest, InflightOk;
    forall id | id in r.queries ensures Sane(r, id) && AtRest(r, id) { QueryKept(st, r, id); }
    forall s | 0 <= s < |r.servers| && !r.dangling ensures QueueOk(r.queries, r.servers[s]) {
      QueueKept(st.queries, r.queries, st.servers[s], r.servers[s]);
    }
  }

  lemma StealLists(st: State, s: nat)
    requires WF(st) && InflightOk(st, None) && st.limbo == [] && s < st.cfg.nservers
    ensures var r := Steal(st, s); InflightOk(r, None)
    ensures forall id :: id in Steal(st, s).limbo <==> id in st.queries && st.queries[id].server == s
  {
    hide NoDup, Ascending;
    EmptyNoDup();
  }

  lemma EmptyNoDup()
    ensures NoDup<nat>([])
  {
  }

  /** One turn of the loop in handle_error: the assert on the query's server holds, the query leaves
      the temporary list, and with servers to spare it ends up elsewhere. */
  lemma DrainTurn(st: State, s: nat, now: Time)
    requires Draining(st, s) && st.limbo != [] && ClockFine(st, now)
    ensures var id := st.limbo[0];
      && id in st.queries && st.queries[id].server == s && WF(st)
      && id in SkipServer(st, id, s).queries
      && var r := NextServer(SkipServer(st, id, s), id, now);
         && Draining(r, s) && r.limbo == st.limbo[1..] && ClockFine(r, now) && Moved(st, r, id) && Outcome(st, r, id, now)
         && (id in r.queries ==> r.queries[id].tryCount > st.queries[id].tryCount)
  {
    hide *;
    var id := st.limbo[0];
    DrainHead(st, s);
    RestParts(st, id);
    Depart(st, id);
    SkipServerCore(st, id, s);
    var a := SkipServer(st, id, s);
    SteadyBasics(st, a, id);
    CoreWF(a, Some(id));
    AttemptsRemain(a, st, id);
    NextServerCore(a, id, now);
    var r := NextServer(a, id, now);
    SettledTrans(st, a, r, id, now);
    SettledParts(st, r, id, now);
    if st.cfg.nservers > 1 && id in r.queries {
      SkippedElsewhere(a, r, id, s, now);
    }
    DrainAfter(st, r, s, now);
  }

  lemma SettledParts(st: State, r: State, id: nat, now: Time)
    requires Settled(st, r, id, now)
    ensures Core(r, None) && QuietOk(r) && Moved(st, r, id) && Outcome(st, r, id, now)
    ensures forall t :: ClockFine(st, t) ==> ClockFine(r, t)
  {
  }

  lemma DrainHead(st: State, s: nat)
    requires Draining(st, s) && st.limbo != []
    ensures var id := st.limbo[0];
      && Core(st, None) && WF(st) && s < st.cfg.nservers && id in st.queries && st.queries[id].server == s
      && Without(st.limbo, id) == st.limbo[1..]
  {
    assert st.limbo[0] in st.limbo && NoDup(st.limbo);
    WithoutHead(st.limbo);
  }

  lemma DrainAfter(st: State, r: State, s: nat, now: Time)
    requires Draining(st, s) && st.limbo != [] && Core(r, None) && QuietOk(r) && Moved(st, r, st.limbo[0])
    requires st.cfg.nservers > 1 && st.limbo[0] in r.queries ==> r.queries[st.limbo[0]].server != s
    ensures Draining(r, s) && r.limbo == st.limbo[1..]
  {
    hide Core, QuietOk;
    DrainHead(st, s);
    LimboLive(st);
    LimboLive(r);
    WithoutMembers(st.limbo, st.limbo[0]);
  }

  lemma LimboLive(st: State)
    requires Core(st, None)
    ensures forall id :: id in st.limbo ==> id in st.queries
  {
  }

  /** A query that has server s marked as skipped does not come to rest at s. */
  lemma SkippedElsewhere(a: State, r: State, id: nat, s: nat, now: Time)
    requires WF(a) && s < a.cfg.nservers && id in a.queries && a.queries[id].info[s].skip
    requires Settled(a, r, id, now) && id in r.queries
    ensures r.queries[id].server != s
  {
    RestParts(r, id);
  }

  ghost function Drain(st: State, s: nat, now: Time): (r: State)
    requires Draining(st, s) && ClockFine(st, now)
    decreases |st.limbo|
  {
    if st.limbo == [] then st
    else
      DrainTurn(st, s, now);
      Drain(NextServer(SkipServer(st, st.limbo[0], s), st.limbo[0], now), s, now)
  }

  ghost function HandleError(st: State, s: nat, now: Time): (r: State)
    requires Inv(st) && s < st.cfg.nservers && ClockFine(st, now)
  {
    CloseThenSteal(st, s, now);
    Drain(Steal(CloseSockets(st, s), s), s, now)
  }

  lemma CloseThenSteal(st: State, s: nat, now: Time)
    requires Inv(st) && s < st.cfg.nservers && ClockFine(st, now)
    ensures WF(st) && Draining(Steal(CloseSockets(st, s), s), s) && ClockFine(Steal(CloseSockets(st, s), s), now)
  {
    CloseSocketsCore(st, s, None);
    var a := CloseSockets(st, s);
    assert QuietOk(a);
    hide Core, QuietOk;
    StealDraining(a, s);
  }

  lemma {:induction false} DrainInv(st: State, s: nat, now: Time)
    requires Draining(st, s) && ClockFine(st, now)
    ensures var r := Drain(st, s, now); Draining(r, s) && r.limbo == [] && Kept(st, r) && ClockFine(r, now)
    decreases |st.limbo|
  {
    hide *;
    DrainIs(st, s, now);
    if st.limbo != [] {
      DrainTurn(st, s, now);
      var a := NextServer(SkipServer(st, st.limbo[0], s), st.limbo[0], now);
      DrainInv(a, s, now);
      KeptMoved(st, a, st.limbo[0]);
      KeptTrans(st, a, Drain(a, s, now));
    } else {
      KeptSelf(st);
    }
  }

  /** What no step on other queries changes: configuration, clock bookkeeping and who may be live. */
  ghost predicate Kept(st: State, r: State) {
    && r.cfg == st.cfg && r.nextId == st.nextId && r.lastTimeout == st.lastTimeout && r.lastServer == st.lastServer
    && r.clockOk == st.clockOk && r.dangling == st.dangling
    && r.queries.Keys <= st.queries.Keys
  }

  lemma KeptMoved(st: State, r: State, id: nat)
    requires Moved(st, r, id) && id in st.queries
    ensures Kept(st, r)
  {
    forall j | j in r.queries ensures j in st.queries {
      if j != id { assert j in r.queries <==> j in st.queries; }
    }
  }

  lemma KeptTrans(a: State, b: State, c: State)
    requires Kept(a, b) && Kept(b, c)
    ensures Kept(a, c)
  {
  }

  lemma KeptSelf(st: State)
    ensures Kept(st, st)
  {
  }

  lemma DrainIs(st: State, s: nat, now: Time)
    requires Draining(st, s) && ClockFine(st, now)
    ensures WF(st)
    ensures st.limbo != [] ==> st.limbo[0] in st.queries && s < st.cfg.nservers
    ensures st.limbo != [] ==> st.limbo[0] in SkipServer(st, st.limbo[0], s).queries
    ensures st.limbo == [] ==> Drain(st, s, now) == st
    ensures st.limbo != [] ==>
      var a := NextServer(SkipServer(st, st.limbo[0], s), st.limbo[0], now);
      Draining(a, s) && ClockFine(a, now) && Drain(st, s, now) == Drain(a, s, now)
  {
    hide Core, QuietOk, NextServer, SkipServer, Moved, Outcome;
    if st.limbo != [] { DrainTurn(st, s, now); } else { DrainWF(st); }
  }

  lemma DrainWF(st: State)
    requires Core(st, None)
    ensures WF(st)
  {
  }

  /** handle_error keeps the invariant, and with servers to spare no live query stays with the server. */
  lemma HandleErrorInv(st: State, s: nat, now: Time)
    requires Inv(st) && s < st.cfg.nservers && ClockFine(st, now)
    ensures var r := HandleError(st, s, now);
      && Inv(r) && Kept(st, r) && ClockFine(r, now)
      && (st.cfg.nservers > 1 ==> forall id :: id in r.queries ==> r.queries[id].server != s)
  {
    CloseThenSteal(st, s, now);
    var a := Steal(CloseSockets(st, s), s);
    assert Kept(st, a);
    hide Core, QuietOk, Steal, CloseSockets, Drain;
    DrainInv(a, s, now);
    KeptTrans(st, a, Drain(a, s, now));
  }

  /** process_broken_connections. */
  ghost function BrokenFrom(st: State, s: nat, now: Time): (r: State)
    requires Inv(st) && s <= st.cfg.nservers && ClockFine(st, now)
    decreases st.cfg.nservers - s
  {
    assert WF(st);
    if s == st.cfg.nservers then st
    else if !st.servers[s].broken then BrokenFrom(st, s + 1, now)
    else
      HandleErrorInv(st, s, now);
      BrokenFrom(HandleError(st, s, now), s + 1, now)
  }

  lemma {:induction false} BrokenFromInv(st: State, s: nat, now: Time)
    requires Inv(st) && s <= st.cfg.nservers && ClockFine(st, now)
    ensures Inv(BrokenFrom(st, s, now)) && Kept(st, BrokenFrom(st, s, now))
    decreases st.cfg.nservers - s
  {
    assert WF(st);
    hide Inv, HandleError, ClockFine, WF;
    if s < st.cfg.nservers {
      if st.servers[s].broken {
        HandleErrorInv(st, s, now);
        var a := HandleError(st, s, now);
        BrokenFromInv(a, s + 1, now);
        KeptTrans(st, a, BrokenFrom(a, s + 1, now));
      } else {
        BrokenFromInv(st, s + 1, now);
      }
    }
  }

  // ---------- process_answer ----------

  const SERVFAIL: nat := 2
  const NOTIMP: nat := 4
  const REFUSED: nat := 5

  /** The packet answers the query: same id, same questions. */
  ghost predicate Answers(q: Query, abuf: seq<byte>)
    requires |abuf| >= HFIXEDSZ
  {
    |q.tcpbuf| >= 2 && q.qid == Be16(abuf, 0) && SameQuestions(q.tcpbuf[2..], abuf)
  }

  ghost function FirstMatch(ids: seq<nat>, queries: map<nat, Query>, abuf: seq<byte>): Option<nat>
    requires |abuf| >= HFIXEDSZ
  {
    if ids == [] then None
    else if ids[0] in queries && Answers(queries[ids[0]], abuf) then Some(ids[0])
    else FirstMatch(ids[1..], queries, abuf)
  }

  /** The walk along one query-id bucket. */
  ghost function FindQuery(st: State, abuf: seq<byte>): Option<nat>
    requires |st.byQid| == QID_TABLE && |abuf| >= HFIXEDSZ
  {
    FirstMatch(st.byQid[QidBucket(Be16(abuf, 0))], st.queries, abuf)
  }

  /** Looking only in the bucket finds the same query as looking at every live query in order. */
  lemma IndexIsScan(st: State, abuf: seq<byte>)
    requires QidOk(st) && |abuf| >= HFIXEDSZ
    ensures FindQuery(st, abuf) == FirstMatch(st.all, st.queries, abuf)
  {
    BucketScan(st.all, st.queries, abuf);
  }

  lemma {:induction false} BucketScan(ids: seq<nat>, queries: map<nat, Query>, abuf: seq<byte>)
    requires |abuf| >= HFIXEDSZ
    ensures FirstMatch(InBucket(ids, queries, QidBucket(Be16(abuf, 0))), queries, abuf) == FirstMatch(ids, queries, abuf)
  {
    if ids != [] {
      var b := QidBucket(Be16(abuf, 0));
      var front, last := ids[..|ids| - 1], ids[|ids| - 1];
      BucketScan(front, queries, abuf);
      assert ids == front + [last];
      MatchConcat(front, last, queries, abuf);
      MatchConcat(InBucket(front, queries, b), last, queries, abuf);
      assert InBucket(front, queries, b) + [] == InBucket(front, queries, b);
    }
  }

  lemma {:induction false} MatchConcat(ids: seq<nat>, id: nat, queries: map<nat, Query>, abuf: seq<byte>)
    requires |abuf| >= HFIXEDSZ
    ensures FirstMatch(ids + [id], queries, abuf) ==
      if FirstMatch(ids, queries, abuf).Some? then FirstMatch(ids, queries, abuf)
      else if id in queries && Answers(queries[id], abuf) then Some(id) else None
  {
    hide Answers;
    if ids == [] {
      assert (ids + [id])[1..] == [];
    } else {
      assert (ids + [id])[1..] == ids[1..] + [id];
      MatchConcat(ids[1..], id, queries, abuf);
    }
  }

  lemma {:induction false} MatchFound(ids: seq<nat>, queries: map<nat, Query>, abuf: seq<byte>)
    requires |abuf| >= HFIXEDSZ
    ensures var m := FirstMatch(ids, queries, abuf);
      && (m.Some? ==> m.value in ids && m.value in queries && Answers(queries[m.value], abuf))
      && (m.None? ==> forall id :: id in ids && id in queries ==> !Answers(queries[id], abuf))
  {
    hide Answers;
    if ids != [] {
      MatchFound(ids[1..], queries, abuf);
      assert ids == [ids[0]] + ids[1..];
    }
  }

  ghost function SetTcp(st: State, id: nat): (r: State)
    requires WF(st) && id in st.queries
    ensures WF(r)
  {
    SetQuery(st, id, st.queries[id].(usingTcp := true))
  }

  ghost predicate Truncated(st: State, abuf: seq<byte>, tcp: bool)
    requires |abuf| >= HFIXEDSZ
  {
    (abuf[2] / 2 % 2 == 1 || |abuf| > PACKETSZ) && !tcp && !st.cfg.igntc
  }

  ghost predicate ServerFailed(st: State, abuf: seq<byte>)
    requires |abuf| >= HFIXEDSZ
  {
    var rcode := abuf[3] % 16;
    !st.cfg.nocheckresp && (rcode == SERVFAIL || rcode == NOTIMP || rcode == REFUSED)
  }

  ghost function ProcessAnswer(st: State, abuf: seq<byte>, s: nat, tcp: bool, now: Time): (r: State)
    requires WF(st) && s < st.cfg.nservers
    ensures WF(r)
  {
    if |abuf| < HFIXEDSZ then st
    else
      match FindQuery(st, abuf)
      case None => st
      case Some(id) =>
        MatchFound(st.byQid[QidBucket(Be16(abuf, 0))], st.queries, abuf);
        if Truncated(st, abuf, tcp) then
          if st.queries[id].usingTcp then st else SendQuery(SetTcp(st, id), id, now)
        else if ServerFailed(st, abuf) then
          var a := SkipServer(st, id, s);
          if a.queries[id].server == s then NextServer(a, id, now) else a
        else EndQuery(st, id, SUCCESS)
  }
}
