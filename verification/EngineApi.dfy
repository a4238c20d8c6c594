/** process_answer, ares_send, ares_cancel and the draining of a send queue keep the invariant. */
module EngineApi {
  import opened Seqs
  import opened Clock
  import opened Names
  import opened Questions
  import opened Engine
  import opened EngineInv
  import opened EngineSteps
  import opened EngineOps

  // ---------- process_answer ----------

  lemma {:induction false} Pow2Mono(a: nat, b: nat)
    requires a <= b
    ensures Pow2(a) <= Pow2(b)
    decreases b
  {
    if a < b { Pow2Mono(a, b - 1); }
  }

  /** The one switch to TCP repeats the current attempt: its wait is at most that of the last round. */
  lemma SwitchCap(cfg: Config, tryCount: nat)
    requires cfg.nservers >= 1 && cfg.tries >= 1 && tryCount < Limit(cfg)
    ensures WaitCap(cfg, tryCount + 1, 0) <= WaitCap(cfg, tryCount, 1)
  {
    var round := tryCount / cfg.nservers;
    assert tryCount == cfg.nservers * round + tryCount % cfg.nservers;
    if round >= cfg.tries { MulMono(cfg.nservers, cfg.tries, round); }
    Pow2Mono(round, cfg.tries - 1);
    MulMono(cfg.timeout, Pow2(round), Pow2(cfg.tries - 1));
  }

  lemma SetTcpPre(st: State, id: nat)
    requires WF(st) && id in st.queries && Sane(st, id) && AtRest(st, id) && ServersOk(st) && !st.queries[id].usingTcp
    requires OrderOk(st)
    ensures var r := SetTcp(st, id); id in r.queries && Sane(r, id) && PreSend(r, id) && Same(st, r, id)
  {
    SwitchCap(st.cfg, st.queries[id].tryCount);
    hide Sends, Waits, WaitCap, Limit;
  }

  lemma SetTcpCore(st: State, id: nat)
    requires Core(st, None) && id in st.queries && !st.queries[id].usingTcp
    ensures WF(st)
    ensures var r := SetTcp(st, id); Core(r, Some(id)) && id in r.queries && PreSend(r, id) && Same(st, r, id)
  {
    RestParts(st, id);
    Depart(st, id);
    ServerParts(st, None);
    assert OrderOk(st);
    SetTcpPre(st, id);
    hide Core, Sane, AtRest, PreSend, ServersOk, QueuesOk, Same, Spent, Limit;
    SetQueryCore(st, id, st.queries[id].(usingTcp := true));
  }

  /** r is st but for query id's record. */
  ghost predicate Same(st: State, r: State, id: nat) {
    id in st.queries && id in r.queries && r == st.(queries := st.queries[id := r.queries[id]])
  }

  lemma SameThenMoved(st: State, a: State, r: State, id: nat)
    requires Same(st, a, id) && Moved(a, r, id)
    ensures Moved(st, r, id)
  {
  }

  /** Marking a server other than the current one leaves a resting query at rest. */
  lemma SkipAtRest(st: State, id: nat, s: nat)
    requires Core(st, None) && id in st.queries && s < st.cfg.nservers && s != st.queries[id].server
    ensures WF(st)
    ensures Core(SkipServer(st, id, s), None)
  {
    hide *;
    RestParts(st, id);
    var r := SkipServer(st, id, s);
    SkipServerIs(st, id, s);
    Depart(st, id);
    SkipServerCore(st, id, s);
    SkipOther(st, id, s);
    SteadyBasics(st, r, id);
    SkipLists(st, r, id);
    SkipRests(st, r, id);
    Arrive(r, id);
  }

  lemma SkipRests(st: State, r: State, id: nat)
    requires WF(st) && WF(r) && id in st.queries && id in r.queries && AtRest(st, id)
    requires r.cfg == st.cfg && r.clockOk == st.clockOk && r.lastTimeout == st.lastTimeout
    requires var p := r.queries[id];
      var q := st.queries[id];
      p.server == q.server && p.info[p.server] == q.info[q.server] && p.timeout == q.timeout && p.tryCount == q.tryCount
    requires Spent(r, id, st.queries[id].tryCount + 1)
    ensures AtRest(r, id)
  {
    hide Spent, Limit;
  }

  /** A query in transit that is at rest and in its lists has arrived. */
  lemma Arrive(r: State, id: nat)
    requires Core(r, Some(id)) && id in r.queries && AtRest(r, id) && TimersOk(r, None) && InflightOk(r, None)
    ensures Core(r, None)
  {
    hide AllOk, QidOk, LogOk, CallbacksOk, CapsOk, StampsOk, ServersOk, QueuesOk, AtRest, Sane, TimersOk, InflightOk;
  }

  lemma SkipOther(st: State, id: nat, s: nat)
    requires WF(st) && id in st.queries && s < st.cfg.nservers && s != st.queries[id].server
    ensures WF(SkipServer(st, id, s)) && SkipServer(st, id, s) == SetQuery(st, id, SkipServer(st, id, s).queries[id])
    ensures SkipServer(st, id, s).cfg == st.cfg && SkipServer(st, id, s).clockOk == st.clockOk
    ensures SkipServer(st, id, s).lastTimeout == st.lastTimeout
    ensures var p := SkipServer(st, id, s).queries[id];
      var q := st.queries[id];
      && p.server == q.server && p.info[p.server] == q.info[q.server] && p.timeout == q.timeout && p.tryCount == q.tryCount
  {
  }

  lemma SkipLists(st: State, r: State, id: nat)
    requires Core(st, None) && id in st.queries && id in r.queries && r == SetQuery(st, id, r.queries[id])
    requires r.queries[id].timeout == st.queries[id].timeout && r.queries[id].server == st.queries[id].server
    ensures TimersOk(r, None) && InflightOk(r, None)
  {
    hide NoDup, Ascending, QidOk, QueriesOk, LogOk, CallbacksOk, CapsOk, StampsOk, ServersOk, QueuesOk;
  }

  /** What process_answer may touch: nothing but the one query it picks. */
  ghost predicate Touches(st: State, r: State, m: Option<nat>) {
    && Kept(st, r)
    && (forall j :: j in st.queries && m != Some(j) ==> j in r.queries && r.queries[j] == st.queries[j])
  }

  lemma MovedTouches(st: State, r: State, id: nat)
    requires Moved(st, r, id) && id in st.queries
    ensures Touches(st, r, Some(id)) && r.limbo == Without(st.limbo, id)
  {
    KeptMoved(st, r, id);
  }

  lemma AnswerTruncated(st: State, id: nat, now: Time)
    requires Inv(st) && id in st.queries && !st.queries[id].usingTcp && ClockFine(st, now)
    ensures WF(st)
    ensures var r := SendQuery(SetTcp(st, id), id, now); Inv(r) && Touches(st, r, Some(id))
  {
    assert Core(st, None) && st.limbo == [];
    hide *;
    SetTcpCore(st, id);
    var a := SetTcp(st, id);
    CoreWF(a, Some(id));
    SameClock(st, a, id, now);
    SendQueryCore(a, id, now);
    var r := SendQuery(a, id, now);
    SettledParts(a, r, id, now);
    SameThenMoved(st, a, r, id);
    MovedTouches(st, r, id);
    BackToInv(st, r, id);
  }

  lemma SameClock(st: State, a: State, id: nat, now: Time)
    requires Same(st, a, id) && ClockFine(st, now)
    ensures ClockFine(a, now)
  {
  }

  lemma BackToInv(st: State, r: State, id: nat)
    requires st.limbo == [] && Core(r, None) && QuietOk(r) && r.limbo == Without(st.limbo, id)
    ensures Inv(r)
  {
  }

  lemma InvParts(st: State)
    requires Inv(st)
    ensures Core(st, None) && st.limbo == [] && QuietOk(st) && WF(st)
  {
  }

  lemma AnswerFailedHere(st: State, id: nat, s: nat, now: Time)
    requires Inv(st) && id in st.queries && s < st.cfg.nservers && ClockFine(st, now)
    ensures WF(st) && id in SkipServer(st, id, s).queries
    ensures var r := NextServer(SkipServer(st, id, s), id, now); Inv(r) && Touches(st, r, Some(id))
  {
    hide *;
    InvParts(st);
    RestParts(st, id);
    var a := SkipServer(st, id, s);
    Depart(st, id);
    SkipServerCore(st, id, s);
    SteadyBasics(st, a, id);
    AttemptsRemain(a, st, id);
    CoreWF(a, Some(id));
    NextServerCore(a, id, now);
    var r := NextServer(a, id, now);
    SettledTrans(st, a, r, id, now);
    SettledParts(st, r, id, now);
    MovedTouches(st, r, id);
    BackToInv(st, r, id);
  }

  lemma AnswerFailedElsewhere(st: State, id: nat, s: nat)
    requires Inv(st) && id in st.queries && s < st.cfg.nservers && s != st.queries[id].server
    ensures WF(st)
    ensures var r := SkipServer(st, id, s); Inv(r) && Touches(st, r, Some(id))
  {
    hide *;
    InvParts(st);
    SkipAtRest(st, id, s);
    SkipServerIs(st, id, s);
    var r := SkipServer(st, id, s);
    SteadyBasics(st, r, id);
    SetQueryTouches(st, r, id);
  }

  lemma SetQueryTouches(st: State, r: State, id: nat)
    requires Inv(st) && id in st.queries && id in r.queries && r == SetQuery(st, id, r.queries[id]) && Core(r, None)
    ensures Inv(r) && Touches(st, r, Some(id))
  {
    hide Core;
  }

  lemma SuccessEnd(st: State, id: nat)
    requires WF(st) && id in st.queries && st.queries[id].tryCount < Limit(st.cfg)
    ensures EndOk(st.cfg, Done(id, SUCCESS, st.queries[id].timeouts, st.queries[id].tryCount, st.queries[id].considered))
  {
    hide Limit;
  }

  lemma AnswerAccepted(st: State, id: nat)
    requires Inv(st) && id in st.queries
    ensures WF(st)
    ensures var r := EndQuery(st, id, SUCCESS);
      && Inv(r) && Touches(st, r, Some(id)) && id !in r.queries
      && r.log != []
      && r.log[|r.log| - 1] == Done(id, SUCCESS, st.queries[id].timeouts, st.queries[id].tryCount, st.queries[id].considered)
  {
    hide *;
    InvParts(st);
    RestParts(st, id);
    SuccessEnd(st, id);
    Depart(st, id);
    EndQueryCore(st, id, SUCCESS);
    MovedTouches(st, EndQuery(st, id, SUCCESS), id);
    BackToInv(st, EndQuery(st, id, SUCCESS), id);
  }

  lemma BucketMatch(st: State, abuf: seq<byte>)
    requires Core(st, None) && |abuf| >= HFIXEDSZ
    ensures |st.byQid| == QID_TABLE && FindQuery(st, abuf) == FirstMatch(st.all, st.queries, abuf)
    ensures var m := FindQuery(st, abuf); m.Some? ==> m.value in st.queries && Answers(st.queries[m.value], abuf)
  {
    IndexIsScan(st, abuf);
    MatchFound(st.all, st.queries, abuf);
  }

  /** A reply concerns at most the first live query that it answers; every other query, and the
      whole channel when there is none, is left alone. */
  lemma ProcessAnswerInv(st: State, abuf: seq<byte>, s: nat, tcp: bool, now: Time)
    requires Inv(st) && s < st.cfg.nservers && ClockFine(st, now)
    ensures WF(st)
    ensures var r := ProcessAnswer(st, abuf, s, tcp, now);
      var m := if |abuf| < HFIXEDSZ then None else FirstMatch(st.all, st.queries, abuf);
      Inv(r) && Touches(st, r, m) && (m.None? ==> r == st)
  {
    hide *;
    InvParts(st);
    TouchesSelf(st);
    AnswerShort(st, abuf, s, tcp, now);
    if |abuf| >= HFIXEDSZ {
      BucketMatch(st, abuf);
      var m := FindQuery(st, abuf);
      if m.Some? {
        var id := m.value;
        TouchesMore(st, id);
        AnswerCases(st, abuf, s, tcp, now, id);
        if Truncated(st, abuf, tcp) {
          if !st.queries[id].usingTcp { AnswerTruncated(st, id, now); }
        } else if ServerFailed(st, abuf) {
          if st.queries[id].server == s { AnswerFailedHere(st, id, s, now); } else { AnswerFailedElsewhere(st, id, s); }
        } else {
          AnswerAccepted(st, id);
        }
      }
    }
  }

  lemma AnswerShort(st: State, abuf: seq<byte>, s: nat, tcp: bool, now: Time)
    requires WF(st) && s < st.cfg.nservers
    ensures |abuf| < HFIXEDSZ || FindQuery(st, abuf).None? ==> ProcessAnswer(st, abuf, s, tcp, now) == st
  {
    hide FindQuery, Truncated, ServerFailed, SendQuery, NextServer, EndQuery, SkipServer, SetTcp;
  }

  /** The four ways of process_answer. */
  lemma AnswerCases(st: State, abuf: seq<byte>, s: nat, tcp: bool, now: Time, id: nat)
    requires WF(st) && s < st.cfg.nservers && |abuf| >= HFIXEDSZ && FindQuery(st, abuf) == Some(id) && id in st.queries
    ensures id in SetTcp(st, id).queries && id in SkipServer(st, id, s).queries
    ensures SkipServer(st, id, s).queries[id].server == st.queries[id].server
    ensures ProcessAnswer(st, abuf, s, tcp, now) ==
      if Truncated(st, abuf, tcp) then if st.queries[id].usingTcp then st else SendQuery(SetTcp(st, id), id, now)
      else if ServerFailed(st, abuf) then
        if st.queries[id].server == s then NextServer(SkipServer(st, id, s), id, now) else SkipServer(st, id, s)
      else EndQuery(st, id, SUCCESS)
  {
    hide FindQuery, Truncated, ServerFailed, SendQuery, NextServer, EndQuery;
  }

  lemma TouchesSelf(st: State)
    ensures Touches(st, st, None)
  {
  }

  lemma TouchesMore(st: State, id: nat)
    ensures Touches(st, st, Some(id))
  {
  }

  // ---------- what becomes of the query that is answered ----------

  lemma SwitchedToTcp(st: State, id: nat, now: Time)
    requires Inv(st) && id in st.queries && !st.queries[id].usingTcp && ClockFine(st, now)
    ensures WF(st)
    ensures var r := SendQuery(SetTcp(st, id), id, now); id in r.queries ==> r.queries[id].usingTcp
  {
    assert Core(st, None) && st.limbo == [];
    hide *;
    SetTcpCore(st, id);
    var a := SetTcp(st, id);
    CoreWF(a, Some(id));
    SameClock(st, a, id, now);
    SendQueryCore(a, id, now);
    SettledParts(a, SendQuery(a, id, now), id, now);
    SetTcpIs(st, id);
    ProgressTcp(a, SendQuery(a, id, now), id, now);
  }

  lemma SetTcpIs(st: State, id: nat)
    requires WF(st) && id in st.queries
    ensures SetTcp(st, id).queries[id].usingTcp
  {
  }

  lemma ProgressTcp(st: State, r: State, id: nat, now: Time)
    requires Outcome(st, r, id, now)
    ensures id in st.queries && (id in r.queries ==> r.queries[id].usingTcp == st.queries[id].usingTcp)
  {
  }

  /** A query given up on by its server waits elsewhere, at a later attempt, with the server marked. */
  lemma MovedElsewhere(st: State, id: nat, s: nat, now: Time)
    requires Inv(st) && id in st.queries && s < st.cfg.nservers && ClockFine(st, now)
    ensures WF(st) && id in SkipServer(st, id, s).queries
    ensures var r := NextServer(SkipServer(st, id, s), id, now);
      id in r.queries ==>
        && r.queries[id].tryCount > st.queries[id].tryCount
        && |r.queries[id].info| == st.cfg.nservers
        && (st.cfg.nservers > 1 ==> r.queries[id].server != s && r.queries[id].info[s].skip)
  {
    hide *;
    InvParts(st);
    RestParts(st, id);
    var a := SkipServer(st, id, s);
    Depart(st, id);
    SkipServerCore(st, id, s);
    SteadyBasics(st, a, id);
    AttemptsRemain(a, st, id);
    CoreWF(a, Some(id));
    NextServerCore(a, id, now);
    var r := NextServer(a, id, now);
    SkipMarks(st, id, s);
    if id in r.queries {
      SettledParts(a, r, id, now);
      ProgressSkips(a, r, id, now);
      if st.cfg.nservers > 1 { SkippedElsewhere(a, r, id, s, now); }
    }
  }

  lemma SkipMarks(st: State, id: nat, s: nat)
    requires WF(st) && id in st.queries && s < st.cfg.nservers
    ensures var a := SkipServer(st, id, s);
      && id in a.queries && |a.queries[id].info| == st.cfg.nservers && a.cfg == st.cfg && a.log == st.log
      && a.queries[id].tryCount == st.queries[id].tryCount && a.queries[id].server == st.queries[id].server
      && (st.cfg.nservers > 1 ==> a.queries[id].info[s].skip)
  {
  }

  lemma ProgressSkips(st: State, r: State, id: nat, now: Time)
    requires Outcome(st, r, id, now) && id in r.queries
    ensures id in st.queries && |r.queries[id].info| == |st.queries[id].info|
    ensures forall s :: 0 <= s < |r.queries[id].info| && st.queries[id].info[s].skip ==> r.queries[id].info[s].skip
  {
  }

  /** What becomes of the query that a packet answers: a truncated datagram makes it go over to TCP; an
      error code makes it leave the server that sent it, for good while there are others; anything else
      ends it with success. */
  lemma AnswerOutcome(st: State, abuf: seq<byte>, s: nat, tcp: bool, now: Time, id: nat)
    requires Inv(st) && s < st.cfg.nservers && ClockFine(st, now)
    requires |abuf| >= HFIXEDSZ && FirstMatch(st.all, st.queries, abuf) == Some(id)
    ensures WF(st) && id in st.queries && Answers(st.queries[id], abuf)
    ensures var r := ProcessAnswer(st, abuf, s, tcp, now);
      var q := st.queries[id];
      if Truncated(st, abuf, tcp) then
        if q.usingTcp then r == st else id in r.queries ==> r.queries[id].usingTcp
      else if ServerFailed(st, abuf) then
        && (q.server == s && id in r.queries ==> r.queries[id].tryCount > q.tryCount)
        && (q.server != s ==>
              id in r.queries && r.queries[id].tryCount == q.tryCount && r.queries[id].server == q.server && r.log == st.log)
        && (id in r.queries && st.cfg.nservers > 1 ==>
              r.queries[id].server != s && |r.queries[id].info| == st.cfg.nservers && r.queries[id].info[s].skip)
      else id !in r.queries && r.log != [] && r.log[|r.log| - 1] == Done(id, SUCCESS, q.timeouts, q.tryCount, q.considered)
  {
    hide *;
    InvParts(st);
    BucketMatch(st, abuf);
    AnswerCases(st, abuf, s, tcp, now, id);
    SkipMarks(st, id, s);
    if Truncated(st, abuf, tcp) {
      if !st.queries[id].usingTcp { SwitchedToTcp(st, id, now); }
    } else if ServerFailed(st, abuf) {
      if st.queries[id].server == s { MovedElsewhere(st, id, s, now); }
    } else {
      AnswerAccepted(st, id);
    }
  }
}
