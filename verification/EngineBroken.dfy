/** Servers marked as broken: the mark stays until the server's error is handled, retries keep away from such
    servers, and process_broken_connections moves their queries on. */
module EngineBroken {
  import opened Seqs
  import opened Clock
  import opened Engine
  import opened EngineInv
  import opened EngineSteps
  import opened EngineOps
  import opened EngineApi
  import opened EngineSend
  import opened EngineRecovery

  /** The mark of server t stays, unless no query is left and everything has been closed. */
  ghost predicate KeepsMark(st: State, r: State, t: nat) {
    && t < |st.servers| == |r.servers|
    && (r.all == [] || (st.servers[t].broken ==> r.servers[t].broken))
  }

  /** A query that is still there waits at a server that is not broken. */
  ghost predicate Spares(r: State, id: nat) {
    id in r.queries ==> r.queries[id].server < |r.servers| && !r.servers[r.queries[id].server].broken
  }

  /** The query has been due at its server, and has given up on no server that it has not been due at. */
  ghost predicate Met(q: Query) {
    q.server in q.considered && forall s :: 0 <= s < |q.info| && q.info[s].skip ==> s in q.considered
  }

  /** If it was so before, it is so when the query is still there. */
  ghost predicate StaysMet(st: State, r: State, id: nat) {
    id in st.queries && (Met(st.queries[id]) && id in r.queries ==> Met(r.queries[id]))
  }

  lemma MetThen(st: State, a: State, r: State, id: nat)
    requires id in st.queries && id in a.queries && (Met(st.queries[id]) ==> Met(a.queries[id])) && StaysMet(a, r, id)
    ensures StaysMet(st, r, id)
  {
  }

  lemma MetGone(st: State, r: State, id: nat)
    requires id in st.queries && id !in r.queries
    ensures StaysMet(st, r, id)
  {
  }

  lemma MetNow(st: State, r: State, id: nat)
    requires id in st.queries && id in r.queries && (Met(st.queries[id]) ==> Met(r.queries[id]))
    ensures StaysMet(st, r, id)
  {
  }

  lemma MetAdvance(q: Query, s: nat)
    ensures Met(q) ==> Met(q.(tryCount := q.tryCount + 1, server := s, considered := q.considered + [s]))
  {
  }

  /** a is st but for records of queries, open sockets and incarnations. */
  ghost predicate SameMarks(st: State, a: State) {
    |a.servers| == |st.servers| && forall t :: 0 <= t < |st.servers| ==> a.servers[t].broken == st.servers[t].broken
  }

  lemma MarksThen(st: State, a: State, r: State, t: nat)
    requires SameMarks(st, a) && KeepsMark(a, r, t)
    ensures KeepsMark(st, r, t)
  {
  }

  lemma MarksKept(st: State, r: State, t: nat)
    requires SameMarks(st, r) && t < |st.servers|
    ensures KeepsMark(st, r, t)
  {
  }

  lemma EndMarks(st: State, id: nat, status: nat, t: nat)
    requires WF(st) && id in st.queries && t < st.cfg.nservers
    ensures var r := EndQuery(st, id, status); KeepsMark(st, r, t) && Spares(r, id) && id !in r.queries
  {
    var f := FreeQuery(Release(st, id, status == SUCCESS), id, status, st.queries[id].timeouts);
    assert f.servers[t].broken == ReleaseQueue(st.servers[t], id, status == SUCCESS, CopiesFor(Env(st), t)).broken;
    ClosedAll(f, 0);
    ClosedQueries(f, 0);
    hide CloseFrom;
  }

  lemma {:induction false} ClosedQueries(st: State, s: nat)
    requires WF(st) && s <= st.cfg.nservers
    ensures CloseFrom(st, s).queries == st.queries
    decreases st.cfg.nservers - s
  {
    if s < st.cfg.nservers { ClosedQueries(CloseSockets(st, s), s + 1); }
  }

  lemma ExhaustMarks(st: State, id: nat, t: nat)
    requires WF(st) && id in st.queries && t < st.cfg.nservers
    ensures var r := Exhaust(st, id); KeepsMark(st, r, t) && Spares(r, id) && id !in r.queries
  {
    hide *;
    LastSteady(st, id);
    var q := st.queries[id];
    var p := q.(tryCount := q.tryCount + 1);
    SetQueryServers(st, id, p);
    var a := SetQuery(st, id, p);
    EndMarks(a, id, q.errorStatus, t);
    EqualMarks(st, a);
    MarksThen(st, a, Exhaust(st, id), t);
  }

  lemma EqualMarks(st: State, a: State)
    requires a.servers == st.servers
    ensures SameMarks(st, a)
  {
  }

  lemma ArmMarks(st: State, id: nat, now: Time, jitter: nat)
    requires WF(st) && id in st.queries
    ensures var r := Arm(st, id, now, jitter);
      && SameMarks(st, r) && id in r.queries && r.queries[id].server == st.queries[id].server
      && (Met(st.queries[id]) ==> Met(r.queries[id]))
  {
    hide Arm, TimeAdd, Backoff, SentEvent;
    ArmIs(st, id, now, jitter);
  }

  lemma OpenMarks(st: State, id: nat)
    requires WF(st) && id in st.queries && st.queries[id].server < st.cfg.nservers
    ensures var s := st.queries[id].server;
      && SameMarks(st, OpenTcp(st, s)) && OpenTcp(st, s).queries == st.queries
      && SameMarks(st, OpenUdp(st, s)) && OpenUdp(st, s).queries == st.queries && OpenUdp(st, s).cfg == st.cfg
    ensures var d := Stamp(QueueRequest(OpenTcp(st, st.queries[id].server), id), id);
      && SameMarks(st, d) && id in d.queries && d.queries[id].server == st.queries[id].server
      && (Met(st.queries[id]) ==> Met(d.queries[id]))
  {
  }

  lemma SkipMarksKept(st: State, id: nat, s: nat)
    requires WF(st) && id in st.queries && s < st.cfg.nservers
    ensures var r := SkipServer(st, id, s);
      && id in r.queries && r.servers == st.servers && r.cfg == st.cfg && r.queries[id].tryCount == st.queries[id].tryCount
      && (s == st.queries[id].server && Met(st.queries[id]) ==> Met(r.queries[id]))
  {
  }

  lemma TransmitMarks(st: State, id: nat, now: Time, c: Choice, t: nat)
    requires WF(st) && id in st.queries && st.queries[id].server < st.cfg.nservers && t < st.cfg.nservers
    ensures var r := TransmitTcp(st, id, now, c);
      KeepsMark(st, r, t) && (!st.servers[st.queries[id].server].broken ==> Spares(r, id)) && StaysMet(st, r, id)
  {
    hide *;
    ServersExist(st);
    OpenMarks(st, id);
    var s := st.queries[id].server;
    var a := OpenTcp(st, s);
    TransmitFails(st, id, now, c);
    if c.allocates {
      TransmitIs(st, id, now, c);
      var d := Stamp(QueueRequest(a, id), id);
      ArmMarks(d, id, now, c.jitter);
      ArmSpares(st, d, TransmitTcp(st, id, now, c), id, t);
      MetNow(st, TransmitTcp(st, id, now, c), id);
    } else {
      EndMarks(a, id, ENOMEM, t);
      MetGone(st, TransmitTcp(st, id, now, c), id);
      MarksThen(st, a, TransmitTcp(st, id, now, c), t);
    }
  }

  lemma TransmitFails(st: State, id: nat, now: Time, c: Choice)
    requires WF(st) && id in st.queries && st.queries[id].server < st.cfg.nservers
    ensures var a := OpenTcp(st, st.queries[id].server);
      && WF(a) && id in a.queries && a.cfg == st.cfg
      && (!c.allocates ==> TransmitTcp(st, id, now, c) == EndQuery(a, id, ENOMEM))
  {
    hide Arm, EndQuery;
  }

  /** A query armed where it was about to be sent. */
  lemma ArmSpares(st: State, d: State, r: State, id: nat, t: nat)
    requires SameMarks(st, d) && SameMarks(d, r) && t < |st.servers| && id in st.queries && id in r.queries
    requires r.queries[id].server == st.queries[id].server < |st.servers|
    ensures KeepsMark(st, r, t)
    ensures !st.servers[st.queries[id].server].broken ==> Spares(r, id)
  {
  }

  lemma EligibleSpares(a: State, id: nat)
    requires WF(a) && id in a.queries && Eligible(a, id)
    ensures a.queries[id].server < a.cfg.nservers == |a.servers| && !a.servers[a.queries[id].server].broken
  {
  }

  lemma FewerLeft(a: State, st: State, id: nat)
    requires id in st.queries && id in a.queries && a.cfg == st.cfg
    ensures a.queries[id].tryCount == st.queries[id].tryCount ==> AttemptsLeft(a, id) == AttemptsLeft(st, id)
    ensures a.queries[id].tryCount == st.queries[id].tryCount + 1 && st.queries[id].tryCount < Limit(st.cfg) ==>
      AttemptsLeft(a, id) < AttemptsLeft(st, id)
  {
    hide Limit;
  }

  /** next_server leaves every mark alone, lets the query rest only at a server that is not broken, and gives
      up only on servers that the query has been due at. */
  lemma NextSpares(st: State, id: nat, now: Time, t: nat)
    requires WF(st) && id in st.queries && t < st.cfg.nservers
    ensures var r := NextServer(st, id, now); KeepsMark(st, r, t) && Spares(r, id) && StaysMet(st, r, id)
    decreases AttemptsLeft(st, id), 0
  {
    hide *;
    NextServerIs(st, id, now);
    if st.queries[id].tryCount + 1 >= Limit(st.cfg) {
      ExhaustMarks(st, id, t);
      MetGone(st, NextServer(st, id, now), id);
    } else {
      AdvanceIs(st, id);
      var a := Advance(st, id);
      FewerLeft(a, st, id);
      EqualMarks(st, a);
      if Eligible(a, id) {
        EligibleSpares(a, id);
        SendSpares(a, id, now, t);
      } else {
        NextSpares(a, id, now, t);
      }
      MarksThen(st, a, NextServer(st, id, now), t);
      MetAdvance(st.queries[id], a.queries[id].server);
      MetThen(st, a, NextServer(st, id, now), id);
    }
  }

  lemma SkipSpares(st: State, a: State, id: nat, s: nat, now: Time, t: nat)
    requires WF(st) && id in st.queries && WF(a) && a.queries == st.queries && a.cfg == st.cfg && SameMarks(st, a)
    requires s < st.cfg.nservers && t < st.cfg.nservers
    ensures id in SkipServer(a, id, s).queries
    ensures var r := NextServer(SkipServer(a, id, s), id, now);
      KeepsMark(st, r, t) && Spares(r, id) && (s == st.queries[id].server ==> StaysMet(st, r, id))
    decreases AttemptsLeft(st, id), 1
  {
    hide *;
    SkipMarksKept(a, id, s);
    var b := SkipServer(a, id, s);
    FewerLeft(b, st, id);
    NextSpares(b, id, now, t);
    EqualMarks(a, b);
    MarksThen(a, b, NextServer(b, id, now), t);
    MarksThen(st, a, NextServer(b, id, now), t);
    if s == st.queries[id].server { MetThen(st, b, NextServer(b, id, now), id); }
  }

  lemma SendSpares(st: State, id: nat, now: Time, t: nat)
    requires WF(st) && id in st.queries && t < st.cfg.nservers
    requires st.queries[id].server < st.cfg.nservers == |st.servers|
    ensures var r := SendQuery(st, id, now);
      KeepsMark(st, r, t) && (!st.servers[st.queries[id].server].broken ==> Spares(r, id)) && StaysMet(st, r, id)
    decreases AttemptsLeft(st, id), 2
  {
    hide *;
    var c := Env(st);
    var a := st.(step := st.step + 1);
    BumpIs(st);
    EqualMarks(st, a);
    SendQueryIs(st, id, now);
    var s := st.queries[id].server;
    OpenMarks(a, id);
    TransmitMarks(a, id, now, c, t);
    MarksThen(st, a, TransmitTcp(a, id, now, c), t);
    SkipSpares(st, a, id, s, now, t);
    var u := OpenUdp(a, s);
    MarksTrans(st, a, u);
    SkipSpares(st, u, id, s, now, t);
    ArmMarks(u, id, now, c.jitter);
    ArmSpares(st, u, Arm(u, id, now, c.jitter), id, t);
    MetNow(st, Arm(u, id, now, c.jitter), id);
    MetThen(st, a, TransmitTcp(a, id, now, c), id);
  }

  lemma MarksTrans(a: State, b: State, c: State)
    requires SameMarks(a, b) && SameMarks(b, c)
    ensures SameMarks(a, c)
  {
  }

  /** A query that ares_send has just sent has given up on no server but those it has been due at. */
  lemma NewMet(st: State, qbuf: seq<byte>, now: Time)
    requires WF(st) && 12 <= |qbuf| < 65536
    ensures var r := Send(st, qbuf, now); st.nextId in r.queries ==> Met(r.queries[st.nextId])
  {
    hide *;
    SendIs(st, qbuf, now);
    AdmitIs(st, qbuf);
    AdmittedMet(st, qbuf);
    var a := Admit(st, qbuf);
    ServersExist(a);
    SendSpares(a, st.nextId, now, 0);
    StaysMetIs(a, Send(st, qbuf, now), st.nextId);
  }

  lemma AdmittedMet(st: State, qbuf: seq<byte>)
    requires WF(st) && 12 <= |qbuf| < 65536
    ensures st.nextId in Admit(st, qbuf).queries && Met(Admit(st, qbuf).queries[st.nextId])
  {
  }

  lemma StaysMetIs(st: State, r: State, id: nat)
    requires StaysMet(st, r, id) && id in st.queries && Met(st.queries[id])
    ensures id in r.queries ==> Met(r.queries[id])
  {
  }

  // ---------- process_broken_connections ----------

  lemma NoQueriesNoLimbo(st: State, s: nat)
    requires Draining(st, s) && st.all == []
    ensures st.limbo == []
  {
    LimboLive(st);
    assert forall id :: id in st.limbo ==> id in st.all;
    HeadIn(st.limbo);
    hide QuietOk;
  }

  lemma {:induction false} DrainMarks(st: State, s: nat, now: Time, t: nat)
    requires Draining(st, s) && ClockFine(st, now) && t < st.cfg.nservers
    ensures KeepsMark(st, Drain(st, s, now), t)
    decreases |st.limbo|
  {
    hide *;
    DrainIs(st, s, now);
    ServersExist(st);
    EqualMarks(st, st);
    MarksKept(st, st, t);
    if st.limbo != [] {
      DrainTurn(st, s, now);
      var id := st.limbo[0];
      SkipSpares(st, st, id, s, now, t);
      var a := NextServer(SkipServer(st, id, s), id, now);
      MovedCfg(st, a, id);
      DrainMarks(a, s, now, t);
      if a.all == [] {
        NoQueriesNoLimbo(a, s);
        DrainIs(a, s, now);
      }
      MarkTrans(st, a, Drain(a, s, now), t);
    }
  }

  lemma MarkTrans(a: State, b: State, c: State, t: nat)
    requires KeepsMark(a, b, t) && KeepsMark(b, c, t) && (b.all == [] ==> c.all == [])
    ensures KeepsMark(a, c, t)
  {
  }

  /** Handling one server's error leaves the marks of the others. */
  lemma ErrorMarks(st: State, s: nat, now: Time, t: nat)
    requires Inv(st) && s < st.cfg.nservers && ClockFine(st, now) && t < st.cfg.nservers && t != s
    ensures KeepsMark(st, HandleError(st, s, now), t)
  {
    hide *;
    InvParts(st);
    HandleErrorIs(st, s, now);
    var a := Steal(CloseSockets(st, s), s);
    CloseOthers(st, s, t);
    DrainMarks(a, s, now, t);
    FromClosed(st, a, Drain(a, s, now), t);
  }

  lemma CloseOthers(st: State, s: nat, t: nat)
    requires WF(st) && s < st.cfg.nservers && t < st.cfg.nservers && t != s
    ensures var a := Steal(CloseSockets(st, s), s);
      t < |a.servers| == |st.servers| && a.servers[t].broken == st.servers[t].broken && a.cfg == st.cfg
  {
  }

  lemma FromClosed(st: State, a: State, r: State, t: nat)
    requires t < |a.servers| == |st.servers| && a.servers[t].broken == st.servers[t].broken && KeepsMark(a, r, t)
    ensures KeepsMark(st, r, t)
  {
  }

  lemma BrokenIs(st: State, s: nat, now: Time)
    requires Inv(st) && s <= st.cfg.nservers && ClockFine(st, now)
    ensures WF(st) && |st.servers| == st.cfg.nservers
    ensures s == st.cfg.nservers ==> BrokenFrom(st, s, now) == st
    ensures s < st.cfg.nservers && !st.servers[s].broken ==> BrokenFrom(st, s, now) == BrokenFrom(st, s + 1, now)
    ensures s < st.cfg.nservers && st.servers[s].broken ==>
      var a := HandleError(st, s, now);
      Inv(a) && a.cfg == st.cfg && ClockFine(a, now) && BrokenFrom(st, s, now) == BrokenFrom(a, s + 1, now)
  {
    assert WF(st);
    hide Inv, HandleError, ClockFine, WF;
    if s < st.cfg.nservers && st.servers[s].broken { HandleErrorInv(st, s, now); }
  }

  /** Nobody goes back to an earlier attempt. */
  lemma {:induction false} BrokenLater(st: State, s: nat, now: Time, id: nat)
    requires Inv(st) && s <= st.cfg.nservers && ClockFine(st, now) && id in BrokenFrom(st, s, now).queries
    ensures id in st.queries && BrokenFrom(st, s, now).queries[id].tryCount >= st.queries[id].tryCount
    decreases st.cfg.nservers - s
  {
    hide *;
    BrokenIs(st, s, now);
    if s < st.cfg.nservers {
      if st.servers[s].broken {
        HandleErrorInv(st, s, now);
        BrokenLater(HandleError(st, s, now), s + 1, now, id);
        KeptLive(st, HandleError(st, s, now));
        ErrorMoves(st, s, now);
      } else {
        BrokenLater(st, s + 1, now, id);
      }
    }
  }

  lemma KeptLive(st: State, r: State)
    requires Kept(st, r)
    ensures forall id :: id in r.queries ==> id in st.queries
  {
  }

  lemma LiveListed(st: State, id: nat)
    requires Inv(st) && id in st.queries
    ensures st.all != []
  {
    assert id in st.all;
    hide Inv;
  }

  lemma MarkStands(st: State, r: State, t: nat)
    requires KeepsMark(st, r, t) && r.all != [] && st.servers[t].broken
    ensures t < |r.servers| && r.servers[t].broken
  {
  }

  /** process_broken_connections moves on every query that was assigned to a broken server. */
  lemma {:induction false} BrokenMoves(st: State, s: nat, now: Time, id: nat)
    requires Inv(st) && s <= st.cfg.nservers && ClockFine(st, now) && id in st.queries
    requires s <= st.queries[id].server < |st.servers| && st.servers[st.queries[id].server].broken
    ensures var r := BrokenFrom(st, s, now); id in r.queries ==> r.queries[id].tryCount > st.queries[id].tryCount
    decreases st.cfg.nservers - s
  {
    hide *;
    BrokenIs(st, s, now);
    var t := st.queries[id].server;
    if st.servers[s].broken {
      var a := HandleError(st, s, now);
      ErrorMoves(st, s, now);
      if s == t {
        if id in BrokenFrom(a, s + 1, now).queries { BrokenLater(a, s + 1, now, id); }
      } else {
        LiveListed(a, id);
        ErrorMarks(st, s, now, t);
        MarkStands(st, a, t);
        BrokenMoves(a, s + 1, now, id);
      }
    } else {
      BrokenMoves(st, s + 1, now, id);
    }
  }
}
