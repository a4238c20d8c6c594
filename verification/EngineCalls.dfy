/** What the calls of the library do, in terms of the packets on the wire and of numbers: which reply answers
    which query and what it makes of it, what is sent and what is refused, and what is reported on cancelling. */
module EngineCalls {
  import opened Seqs
  import opened Clock
  import opened Names
  import opened Questions
  import opened Engine
  import opened EngineInv
  import opened EngineSteps
  import opened EngineOps
  import opened EngineApi
  import opened EngineSend
  import opened EngineRecovery
  import W = DnsWire

  // ---------- replies ----------

  /** The packet's second pair of bytes is made of these fields. */
  ghost predicate Bears(abuf: seq<byte>, f: W.Flags) {
    |abuf| >= 12 && W.FlagsOk(f) && abuf[2..4] == W.FlagBytes(f)
  }

  lemma FlagsRead(abuf: seq<byte>, f: W.Flags)
    requires Bears(abuf, f)
    ensures abuf[2] / 2 % 2 == (if f.tc then 1 else 0) && abuf[3] % 16 == f.rcode
  {
    assert abuf[2] == abuf[2..4][0] && abuf[3] == abuf[2..4][1];
    var high := W.Bit(f.qr) * 64 + f.opcode * 4 + W.Bit(f.aa) * 2 + W.Bit(f.tc);
    assert abuf[2] == 2 * high + W.Bit(f.rd);
    assert abuf[3] == 16 * (W.Bit(f.ra) * 8 + f.z) + f.rcode;
  }

  /** The reply does not carry all of the answer, and there is a connection to ask for it again. */
  ghost predicate CutOff(cfg: Config, abuf: seq<byte>, f: W.Flags, tcp: bool) {
    (f.tc || |abuf| > 512) && !tcp && !cfg.igntc
  }

  /** The server says that it cannot or will not answer: SERVFAIL, NOTIMP, REFUSED. */
  ghost predicate Declines(cfg: Config, f: W.Flags) {
    !cfg.nocheckresp && f.rcode in {2, 4, 5}
  }

  lemma ReplyKinds(st: State, abuf: seq<byte>, f: W.Flags, tcp: bool)
    requires Bears(abuf, f)
    ensures |abuf| >= HFIXEDSZ
    ensures Truncated(st, abuf, tcp) <==> CutOff(st.cfg, abuf, f, tcp)
    ensures ServerFailed(st, abuf) <==> Declines(st.cfg, f)
  {
    FlagsRead(abuf, f);
    hide Bears;
  }

  /** What becomes of the query that a reply with these header fields answers, whatever the other fields say:
      a datagram that is cut off, and nothing else, makes it go over to TCP; a server that declines makes it
      leave that server, for good while there are others; any other response code ends it with success. */
  lemma ReplyOutcome(st: State, abuf: seq<byte>, f: W.Flags, s: nat, tcp: bool, now: Time, id: nat)
    requires Inv(st) && s < st.cfg.nservers && ClockFine(st, now) && Bears(abuf, f)
    requires FirstMatch(st.all, st.queries, abuf) == Some(id)
    ensures WF(st) && id in st.queries
    ensures var r := ProcessAnswer(st, abuf, s, tcp, now);
      var q := st.queries[id];
      if CutOff(st.cfg, abuf, f, tcp) then
        if q.usingTcp then r == st else id in r.queries ==> r.queries[id].usingTcp
      else if Declines(st.cfg, f) then
        && (q.server == s && id in r.queries ==> r.queries[id].tryCount > q.tryCount)
        && (q.server != s ==>
              id in r.queries && r.queries[id].tryCount == q.tryCount && r.queries[id].server == q.server && r.log == st.log)
        && (id in r.queries && st.cfg.nservers > 1 ==>
              r.queries[id].server != s && |r.queries[id].info| == st.cfg.nservers && r.queries[id].info[s].skip)
      else id !in r.queries && r.log != [] && r.log[|r.log| - 1] == Done(id, 0, q.timeouts, q.tryCount, q.considered)
  {
    hide *;
    ReplyKinds(st, abuf, f, tcp);
    AnswerOutcome(st, abuf, s, tcp, now, id);
    Numbers();
  }

  lemma Numbers()
    ensures SUCCESS == 0 && EBADQUERY == 7 && ECANCELLED == 24 && HFIXEDSZ == 12
  {
  }

  /** A query that goes over to TCP because of such a reply keeps its attempt and its server, and while the
      connection is or comes up and memory lasts its whole buffer is queued there. */
  lemma CutOffRequeues(st: State, abuf: seq<byte>, f: W.Flags, s: nat, now: Time, id: nat)
    requires Inv(st) && s < st.cfg.nservers && ClockFine(st, now) && Bears(abuf, f)
    requires FirstMatch(st.all, st.queries, abuf) == Some(id) && CutOff(st.cfg, abuf, f, false)
    requires id in st.queries && !st.queries[id].usingTcp && Env(st).allocates && st.queries[id].server < |st.servers|
    requires st.servers[st.queries[id].server].tcpOpen || Env(st).opens
    ensures WF(st)
    ensures var r := ProcessAnswer(st, abuf, s, false, now);
      var q := st.queries[id];
      && id in r.queries && r.queries[id].usingTcp && r.queries[id].tryCount == q.tryCount && r.queries[id].server == q.server
      && |r.servers| == |st.servers| && r.servers[q.server].tcpOpen
      && r.servers[q.server].queue == st.servers[q.server].queue + [Request(Some(id), q.tcpbuf, false)]
  {
    hide *;
    InvParts(st);
    ReplyKinds(st, abuf, f, false);
    BucketMatch(st, abuf);
    AnswerIs(st, abuf, s, now, id);
    SetTcpKeeps(st, id);
    SwitchSends(SetTcp(st, id), id, now);
  }

  lemma AnswerIs(st: State, abuf: seq<byte>, s: nat, now: Time, id: nat)
    requires WF(st) && s < st.cfg.nservers && |abuf| >= HFIXEDSZ && FindQuery(st, abuf) == Some(id)
    requires id in st.queries && !st.queries[id].usingTcp && Truncated(st, abuf, false)
    ensures id in SetTcp(st, id).queries && ProcessAnswer(st, abuf, s, false, now) == SendQuery(SetTcp(st, id), id, now)
  {
    hide FindQuery, Truncated, SendQuery;
  }

  lemma SetTcpKeeps(st: State, id: nat)
    requires WF(st) && id in st.queries
    ensures var a := SetTcp(st, id);
      && WF(a) && id in a.queries && a.queries[id] == st.queries[id].(usingTcp := true) && a.servers == st.servers
      && a.cfg == st.cfg && Env(a) == Env(st) && a.queries[id].server < |a.servers|
  {
  }

  lemma SwitchSends(st: State, id: nat, now: Time)
    requires WF(st) && id in st.queries && st.queries[id].usingTcp && Env(st).allocates && st.queries[id].server < |st.servers|
    requires st.servers[st.queries[id].server].tcpOpen || Env(st).opens
    ensures var r := SendQuery(st, id, now);
      var q := st.queries[id];
      && id in r.queries && r.queries[id].usingTcp && r.queries[id].tryCount == q.tryCount && r.queries[id].server == q.server
      && |r.servers| == |st.servers| && r.servers[q.server].tcpOpen
      && r.servers[q.server].queue == st.servers[q.server].queue + [Request(Some(id), q.tcpbuf, false)]
  {
    hide *;
    var c := Env(st);
    var a := st.(step := st.step + 1);
    SendQueryIs(st, id, now);
    BumpIs(st);
    TransmitIs(a, id, now, c);
    var s := st.queries[id].server;
    TransmitAppends(st, id, now);
    var d := Stamp(QueueRequest(OpenTcp(a, s), id), id);
    StampKeeps(a, id);
    ArmIs(d, id, now, c.jitter);
  }

  lemma StampKeeps(st: State, id: nat)
    requires WF(st) && id in st.queries && st.queries[id].server < st.cfg.nservers
    ensures var d := Stamp(QueueRequest(OpenTcp(st, st.queries[id].server), id), id);
      && id in d.queries && d.queries[id].tryCount == st.queries[id].tryCount && d.queries[id].server == st.queries[id].server
      && d.queries[id].usingTcp == st.queries[id].usingTcp
  {
  }

  /** A live query is answered by the packets that begin with the two bytes its own packet begins with and
      have the same questions. */
  lemma AnswersAre(st: State, id: nat, abuf: seq<byte>)
    requires Inv(st) && id in st.queries && |abuf| >= 12
    ensures |st.queries[id].tcpbuf| >= 14
    ensures Answers(st.queries[id], abuf) <==>
      var packet := st.queries[id].tcpbuf[2..];
      packet[..2] == abuf[..2] && SameQuestions(packet, abuf)
  {
    hide *;
    QidIs(st, id);
    Numbers();
    AnswersByBytes(st.queries[id], abuf);
  }

  lemma QidIs(st: State, id: nat)
    requires Inv(st) && id in st.queries
    ensures var q := st.queries[id]; |q.tcpbuf| >= 14 && q.qid == q.tcpbuf[2] as nat * 256 + q.tcpbuf[3]
  {
    assert Sane(st, id);
    hide Inv;
  }

  lemma AnswersByBytes(q: Query, abuf: seq<byte>)
    requires |abuf| >= HFIXEDSZ && |q.tcpbuf| >= 14 && q.qid == q.tcpbuf[2] as nat * 256 + q.tcpbuf[3]
    ensures Answers(q, abuf) <==> var packet := q.tcpbuf[2..]; packet[..2] == abuf[..2] && SameQuestions(packet, abuf)
  {
    var packet := q.tcpbuf[2..];
    assert packet[0] == q.tcpbuf[2] && packet[1] == q.tcpbuf[3];
    SameStart(packet, abuf);
    hide SameQuestions;
  }

  /** For packets put together from an id, flags, counts and questions: the id has to be the same and the
      questions have to be as many and each asked. */
  lemma AnswersOnWire(st: State, id: nat, qid: nat, qf: W.Flags, qc: W.Counts, qs: seq<W.WireQuestion>,
                      abuf: seq<byte>, aid: nat, af: W.Flags, ac: W.Counts, rs: seq<W.WireQuestion>)
    requires Inv(st) && id in st.queries && |st.queries[id].tcpbuf| >= 14
    requires var qmsg := st.queries[id].tcpbuf[2..];
      && qid < 0x1_0000 && W.FlagsOk(qf) && W.CountsOk(qc) && W.At(qmsg, 0, W.HeaderBytes(qid, qf, qc)) && qc.qd == |qs|
      && W.QuestionsOk(qmsg, qs) && W.At(qmsg, 12, W.QuestionsBytes(qmsg, qs))
    requires aid < 0x1_0000 && W.FlagsOk(af) && W.CountsOk(ac) && W.At(abuf, 0, W.HeaderBytes(aid, af, ac)) && ac.qd == |rs|
    requires W.QuestionsOk(abuf, rs) && W.At(abuf, 12, W.QuestionsBytes(abuf, rs))
    ensures |abuf| >= HFIXEDSZ
    ensures Answers(st.queries[id], abuf) <==>
      qid == aid && |qs| == |rs| && W.EachMet(st.queries[id].tcpbuf[2..], qs, abuf, rs)
  {
    hide *;
    var qmsg := st.queries[id].tcpbuf[2..];
    W.HeaderReads(qmsg, qid, qf, qc);
    W.HeaderReads(abuf, aid, af, ac);
    Numbers();
    AnswersAre(st, id, abuf);
    SameStart(qmsg, abuf);
    W.SameOnWire(qmsg, qid, qf, qc, qs, abuf, aid, af, ac, rs);
  }

  lemma SameStart(a: seq<byte>, b: seq<byte>)
    requires |a| >= 2 && |b| >= 2
    ensures a[..2] == b[..2] <==> Be16(a, 0) == Be16(b, 0)
  {
    assert a[..2] == [a[0], a[1]] && b[..2] == [b[0], b[1]];
  }

  // ---------- ares_send ----------

  /** A packet shorter than a header, or too long for the two length bytes, is refused and nothing else
      happens. Any other becomes the next query: led by its length, over TCP when that is wished for or it is
      longer than 512 bytes, without timeouts. */
  lemma SendOutcome(st: State, qbuf: seq<byte>, now: Time)
    requires Inv(st) && ClockFine(st, now)
    ensures WF(st)
    ensures var r := Send(st, qbuf, now);
      if |qbuf| < 12 || |qbuf| >= 65536 then r == st.(log := st.log + [Rejected(7)])
      else
        && r.nextId == st.nextId + 1 && st.log < r.log
        && (st.nextId in r.queries ==>
             var q := r.queries[st.nextId];
             && q.tcpbuf == [|qbuf| / 256, |qbuf| % 256] + qbuf
             && (q.usingTcp <==> st.cfg.usevc || |qbuf| > 512) && q.timeouts == 0)
        && (st.nextId !in r.queries ==> r.log[|r.log| - 1].Done? && r.log[|r.log| - 1].id == st.nextId)
  {
    hide *;
    InvParts(st);
    SendIs(st, qbuf, now);
    Numbers();
    if 12 <= |qbuf| < 65536 {
      AdmitIs(st, qbuf);
      AdmitCore(st, qbuf);
      AdmitPre(st, qbuf);
      NewQueryIs(st.cfg, qbuf, st.lastServer);
      var a := Admit(st, qbuf);
      CoreWF(a, Some(st.nextId));
      SendQueryCore(a, st.nextId, now);
      var r := SendQuery(a, st.nextId, now);
      SettledParts(a, r, st.nextId, now);
      SentKeeps(a, r, st.nextId, now);
    }
  }

  lemma NewQueryIs(cfg: Config, qbuf: seq<byte>, server: nat)
    requires 12 <= |qbuf| < 65536
    ensures var q := NewQuery(cfg, qbuf, server);
      && q.tcpbuf == [|qbuf| / 256, |qbuf| % 256] + qbuf && (q.usingTcp <==> cfg.usevc || |qbuf| > 512)
      && q.timeouts == 0 && q.tryCount == 0 && q.server == server
  {
  }

  lemma SentKeeps(a: State, r: State, id: nat, now: Time)
    requires Moved(a, r, id) && Outcome(a, r, id, now)
    ensures r.nextId == a.nextId && a.log < r.log && id in a.queries
    ensures id in r.queries ==>
      var q := a.queries[id];
      r.queries[id].tcpbuf == q.tcpbuf && r.queries[id].usingTcp == q.usingTcp && r.queries[id].timeouts == q.timeouts
    ensures id !in r.queries ==> r.log[|r.log| - 1].Done? && r.log[|r.log| - 1].id == id
  {
  }

  /** While nothing fails, the new query waits at the server whose turn it is, at its first attempt. */
  lemma SendWaitsFirst(st: State, qbuf: seq<byte>, now: Time)
    requires Inv(st) && AllWell(st.cfg) && 12 <= |qbuf| < 65536
    ensures st.cfg.nservers >= 1
    ensures var r := Send(st, qbuf, now);
      var s := if st.cfg.rotate then st.nextId % st.cfg.nservers else 0;
      && st.nextId in r.queries && r.queries[st.nextId].server == s && r.queries[st.nextId].tryCount == 0
      && s < |st.servers| == |r.servers|
      && r.servers[s].queue == st.servers[s].queue +
         if st.cfg.usevc || |qbuf| > 512 then [Request(Some(st.nextId), [|qbuf| / 256, |qbuf| % 256] + qbuf, false)] else []
  {
    hide *;
    InvParts(st);
    ServersExist(st);
    SendIs(st, qbuf, now);
    AdmitIs(st, qbuf);
    NewQueryIs(st.cfg, qbuf, st.lastServer);
    TurnIs(st);
    var a := Admit(st, qbuf);
    SameNumbers(st, a);
    SendWaits(a, st.nextId, now);
    WaitingIs(a, Send(st, qbuf, now), st.nextId, st.lastServer, 0);
    AddedIs(a.queries[st.nextId], st.nextId);
  }

  lemma TurnIs(st: State)
    requires Core(st, None)
    ensures st.cfg.nservers >= 1 && Numbered(st)
    ensures st.lastServer == (if st.cfg.rotate then st.nextId % st.cfg.nservers else 0) < st.cfg.nservers
  {
    hide QidOk, TimersOk, QueriesOk, LogOk, CallbacksOk, CapsOk, StampsOk, QueuesOk, InflightOk, NoDup, Ascending;
  }

  // ---------- a transmission that fails ----------

  /** No socket comes up, or the datagram cannot be written. */
  ghost predicate Fails(st: State, id: nat)
    requires WF(st) && id in st.queries
  {
    var q := st.queries[id];
    var v := st.servers[q.server];
    if q.usingTcp then !v.tcpOpen && !Env(st).opens else (!v.udpOpen && !Env(st).opens) || !Env(st).writes
  }

  /** The query has left server s for a later attempt and, with servers to spare, for good. */
  ghost predicate LeftFor(st: State, r: State, id: nat, s: nat)
    requires id in st.queries
  {
    id in r.queries ==>
      && r.queries[id].tryCount > st.queries[id].tryCount
      && (st.cfg.nservers > 1 ==> r.queries[id].server != s && s < |r.queries[id].info| && r.queries[id].info[s].skip)
  }

  lemma GivesUp(st: State, a: State, id: nat, now: Time)
    requires WF(st) && id in st.queries && Steady(st, a, id) && Core(a, Some(id)) && ClockFine(a, now)
    requires a.queries[id] == st.queries[id] && PreSend(a, id)
    ensures LeftFor(st, NextServer(SkipServer(a, id, a.queries[id].server), id, now), id, st.queries[id].server)
  {
    hide *;
    CoreWF(a, Some(id));
    SteadyBasics(st, a, id);
    var s, n := a.queries[id].server, a.queries[id].tryCount;
    ServerInRange(a, id);
    var b := SkipServer(a, id, s);
    PreSendSpent(a, id);
    SkipServerCore(a, id, s);
    CoreWF(b, Some(id));
    SteadyBasics(a, b, id);
    SpentMore(b, id, n, n + 1);
    AttemptsRemain(b, a, id);
    NextServerCore(b, id, now);
    SkipMarks(a, id, s);
    var r := NextServer(b, id, now);
    if id in r.queries {
      SettledParts(b, r, id, now);
      ProgressSkips(b, r, id, now);
      if st.cfg.nservers > 1 { SkippedElsewhere(b, r, id, s, now); }
    }
    LeftForIs(st, r, id, s);
  }

  lemma LeftForIs(st: State, r: State, id: nat, s: nat)
    requires id in st.queries
    ensures LeftFor(st, r, id, s) <==>
      id in r.queries ==>
        && r.queries[id].tryCount > st.queries[id].tryCount
        && (st.cfg.nservers > 1 ==> r.queries[id].server != s && s < |r.queries[id].info| && r.queries[id].info[s].skip)
  {
  }

  /** A transmission that fails makes the query leave the server. */
  lemma FailedSendLeaves(st: State, id: nat, now: Time)
    requires Core(st, Some(id)) && id in st.queries && PreSend(st, id) && ClockFine(st, now) && Fails(st, id)
    ensures WF(st) && LeftFor(st, SendQuery(st, id, now), id, st.queries[id].server)
  {
    hide *;
    CoreWF(st, Some(id));
    SendQueryIs(st, id, now);
    FailsIs(st, id);
    var a := st.(step := st.step + 1);
    BumpSteady(st, id);
    SteadyBasics(st, a, id);
    CoreWF(a, Some(id));
    ServerInRange(a, id);
    GivesUp(st, a, id, now);
    if !a.queries[id].usingTcp {
      SendUdpCore(a, id, now, Env(st));
      var b := OpenUdp(a, a.queries[id].server);
      SteadyTrans(st, a, b, id);
      GivesUp(st, b, id, now);
    }
  }

  lemma FailsIs(st: State, id: nat)
    requires WF(st) && id in st.queries
    ensures st.queries[id].server < |st.servers|
    ensures var q := st.queries[id];
      var v := st.servers[q.server];
      Fails(st, id) <==>
        if q.usingTcp then !v.tcpOpen && !Env(st).opens else (!v.udpOpen && !Env(st).opens) || !Env(st).writes
  {
    hide Env;
  }

  lemma {:induction false} ClosedLog(st: State, s: nat)
    requires WF(st) && s <= st.cfg.nservers
    ensures CloseFrom(st, s).log == st.log
    decreases st.cfg.nservers - s
  {
    if s < st.cfg.nservers { ClosedLog(CloseSockets(st, s), s + 1); }
  }

  lemma EndReports(st: State, id: nat, status: nat)
    requires WF(st) && id in st.queries
    ensures var r := EndQuery(st, id, status);
      var q := st.queries[id];
      r.log == st.log + [Done(id, status, q.timeouts, q.tryCount, q.considered)]
  {
    ClosedLog(FreeQuery(Release(st, id, status == SUCCESS), id, status, st.queries[id].timeouts), 0);
    hide CloseFrom;
  }

  /** Without memory for the request a query over TCP ends at once, with the status for that. */
  lemma NoMemory(st: State, id: nat, now: Time)
    requires WF(st) && id in st.queries && st.queries[id].usingTcp && !Env(st).allocates && st.queries[id].server < |st.servers|
    requires st.servers[st.queries[id].server].tcpOpen || Env(st).opens
    ensures var q := st.queries[id];
      SendQuery(st, id, now).log == st.log + [Done(id, 15, q.timeouts, q.tryCount, q.considered)]
  {
    hide *;
    var a := st.(step := st.step + 1);
    BumpIs(st);
    SendQueryIs(st, id, now);
    OpenTcpLog(a, id, now, Env(st));
    EndReports(OpenTcp(a, st.queries[id].server), id, ENOMEM);
  }

  lemma OpenTcpLog(st: State, id: nat, now: Time, c: Choice)
    requires WF(st) && id in st.queries && !c.allocates && st.queries[id].server < st.cfg.nservers
    ensures var a := OpenTcp(st, st.queries[id].server);
      && id in a.queries && a.queries == st.queries && a.log == st.log && ENOMEM == 15
      && TransmitTcp(st, id, now, c) == EndQuery(a, id, ENOMEM)
  {
    hide EndQuery, Arm;
  }

  // ---------- ares_cancel ----------

  /** The callbacks of these queries, as ares_cancel runs them. */
  ghost function Cancelled(ids: seq<nat>, queries: map<nat, Query>): (e: seq<Event>)
    requires forall id :: id in ids ==> id in queries
    ensures |e| == |ids|
    ensures forall i :: 0 <= i < |ids| ==> e[i] == Done(ids[i], 24, 0, queries[ids[i]].tryCount, queries[ids[i]].considered)
  {
    seq(|ids|, i requires 0 <= i < |ids| =>
      assert ids[i] in ids; Done(ids[i], 24, 0, queries[ids[i]].tryCount, queries[ids[i]].considered))
  }

  /** ares_cancel runs the callback of every live query, in the order in which they were begun, with the status
      for cancelling and no timeouts, and reports nothing else. */
  lemma CancelReports(st: State)
    requires Inv(st)
    ensures WF(st) && forall id :: id in st.all ==> id in st.queries
    ensures Cancel(st).log == st.log + Cancelled(st.all, st.queries)
    ensures forall i, j :: 0 <= i < j < |st.all| ==> st.all[i] < st.all[j]
  {
    hide *;
    InvParts(st);
    AllLive(st);
    CancelIs(st);
    ListedOnce(st);
    AscendingIs(st.all);
    var t := st.(dangling := true);
    CancelAllReports(t);
    ClosedLog(CancelAll(t), 0);
  }

  lemma ListedOnce(st: State)
    requires Core(st, None)
    ensures NoDup(st.all) && Ascending(st.all)
  {
  }

  lemma AscendingIs(s: seq<nat>)
    requires Ascending(s)
    ensures forall i, j :: 0 <= i < j < |s| ==> s[i] < s[j]
  {
  }

  lemma {:induction false} CancelAllReports(st: State)
    requires WF(st) && NoDup(st.all) && forall id :: id in st.all ==> id in st.queries
    ensures CancelAll(st).log == st.log + Cancelled(st.all, st.queries)
    decreases |st.all|
  {
    hide *;
    CancelAllIs(st);
    CancelledParts(st.all, st.queries);
    if st.all == [] {
      assert st.log + [] == st.log;
    } else {
      var id := st.all[0];
      var a := FreeQuery(st, id, ECANCELLED, 0);
      FreedReports(st);
      CancelAllReports(a);
      Regroup(st.log, Done(id, 24, 0, st.queries[id].tryCount, st.queries[id].considered), Cancelled(a.all, a.queries));
    }
  }

  lemma Regroup(a: seq<Event>, e: Event, b: seq<Event>)
    ensures (a + [e]) + b == a + ([e] + b)
  {
  }

  lemma FreedReports(st: State)
    requires WF(st) && st.all != [] && NoDup(st.all) && forall id :: id in st.all ==> id in st.queries
    ensures st.all[0] in st.queries && forall id :: id in st.all[1..] ==> id in st.queries
    ensures var a := FreeQuery(st, st.all[0], ECANCELLED, 0);
      var q := st.queries[st.all[0]];
      && WF(a) && a.all == st.all[1..] && NoDup(a.all) && (forall id :: id in a.all ==> id in a.queries)
      && a.log == st.log + [Done(st.all[0], 24, 0, q.tryCount, q.considered)]
      && Cancelled(a.all, a.queries) == Cancelled(st.all[1..], st.queries)
  {
    hide *;
    var id := st.all[0];
    var a := FreeQuery(st, id, ECANCELLED, 0);
    FreeIs(st, id, ECANCELLED, 0);
    FreedList(st, id);
    Numbers();
    RestDistinct(st.all);
    CancelledSame(a.all, st.queries, a.queries);
  }

  lemma RestDistinct(s: seq<nat>)
    requires NoDup(s) && s != []
    ensures NoDup(s[1..]) && s[0] !in s[1..] && s == [s[0]] + s[1..]
  {
  }

  lemma FreedList(st: State, id: nat)
    requires WF(st) && st.all != [] && NoDup(st.all) && id == st.all[0] && id in st.queries
    ensures var a := FreeQuery(st, id, ECANCELLED, 0); a.all == st.all[1..] && WF(a)
  {
    hide Unlink, UnlinkServers, NoDup, Ascending;
    WithoutHead(st.all);
  }

  lemma CancelledParts(ids: seq<nat>, queries: map<nat, Query>)
    requires forall id :: id in ids ==> id in queries
    ensures ids == [] ==> Cancelled(ids, queries) == []
    ensures ids != [] ==>
      && (forall id :: id in ids[1..] ==> id in queries)
      && Cancelled(ids, queries) ==
           [Done(ids[0], 24, 0, queries[ids[0]].tryCount, queries[ids[0]].considered)] + Cancelled(ids[1..], queries)
  {
    if ids != [] {
      var rest := ids[1..];
      assert forall i :: 0 <= i < |rest| ==> rest[i] == ids[i + 1];
      assert Cancelled(ids, queries) ==
        [Done(ids[0], 24, 0, queries[ids[0]].tryCount, queries[ids[0]].considered)] + Cancelled(rest, queries);
    }
  }

  lemma CancelledSame(ids: seq<nat>, p: map<nat, Query>, q: map<nat, Query>)
    requires forall id :: id in ids ==> id in p && id in q && p[id] == q[id]
    ensures Cancelled(ids, p) == Cancelled(ids, q)
  {
    forall i | 0 <= i < |ids| ensures Cancelled(ids, p)[i] == Cancelled(ids, q)[i] { assert ids[i] in ids; }
  }

  // ---------- a query that ends with requests queued ----------

  /** Server s has a request of this query in its queue. */
  ghost predicate HasRequest(st: State, id: nat, s: nat) {
    s < |st.servers| && exists i :: 0 <= i < |st.servers[s].queue| && st.servers[s].queue[i].owner == Some(id)
  }

  lemma {:induction false} ClosedMended(st: State, from: nat, s: nat)
    requires WF(st) && from <= st.cfg.nservers && s < st.cfg.nservers && (s < from ==> !st.servers[s].broken)
    ensures !CloseFrom(st, from).servers[s].broken
    decreases st.cfg.nservers - from
  {
    if from < st.cfg.nservers { ClosedMended(CloseSockets(st, from), from + 1, s); }
  }

  /** The marks after a query has ended: unless everything is closed, they are those that its release leaves. */
  lemma EndBreaks(st: State, id: nat, status: nat, s: nat)
    requires WF(st) && id in st.queries && s < st.cfg.nservers
    ensures var r := EndQuery(st, id, status);
      && s < |r.servers| && s < |st.servers|
      && (r.servers[s].broken <==>
           && (st.cfg.stayopen || Without(st.all, id) != [])
           && ReleaseQueue(st.servers[s], id, status == 0, CopiesFor(Env(st), s)).broken)
  {
    var f := FreeQuery(Release(st, id, status == SUCCESS), id, status, st.queries[id].timeouts);
    assert f.servers[s].broken == ReleaseQueue(st.servers[s], id, status == 0, CopiesFor(Env(st), s)).broken;
    if !st.cfg.stayopen && f.all == [] { ClosedMended(f, 0, s); }
    hide CloseFrom, ReleaseQueue, CopiesFor;
  }

  /** A query that fails while a server still has to send a request of it leaves that server broken, and every
      other mark as it was; when it was the last query and everything is closed, no mark is left. */
  lemma FailureBreaks(st: State, id: nat, status: nat, s: nat)
    requires WF(st) && id in st.queries && s < st.cfg.nservers && status != 0
    ensures var r := EndQuery(st, id, status);
      && s < |r.servers| && s < |st.servers|
      && (r.servers[s].broken <==>
           (st.cfg.stayopen || Without(st.all, id) != []) && (st.servers[s].broken || HasRequest(st, id, s)))
  {
    EndBreaks(st, id, status, s);
    hide EndQuery, CopiesFor, Without;
  }

  /** A query that succeeds breaks exactly the servers with a request of it that could not be copied. */
  lemma SuccessBreaks(st: State, id: nat, s: nat)
    requires WF(st) && id in st.queries && s < st.cfg.nservers
    ensures var r := EndQuery(st, id, 0);
      && s < |r.servers| && s < |st.servers|
      && (r.servers[s].broken <==>
           && (st.cfg.stayopen || Without(st.all, id) != [])
           && (st.servers[s].broken ||
               exists i :: 0 <= i < |st.servers[s].queue| && st.servers[s].queue[i].owner == Some(id) && !Env(st).copies(s, i)))
  {
    EndBreaks(st, id, 0, s);
    CopiesAre(Env(st), s);
    hide EndQuery, CopiesFor, Without, Env;
  }

  lemma CopiesAre(c: Choice, s: nat)
    ensures forall i: nat :: CopiesFor(c, s)(i) == c.copies(s, i)
  {
  }
}
