/** Whole runs of the query engine: any sequence of API calls, any environment. */
module EngineRun {
  import opened Seqs
  import opened Clock
  import opened Engine
  import opened EngineInv
  import opened EngineSteps
  import opened EngineOps
  import opened EngineApi
  import opened EngineSend
  import opened EngineTimers

  /** What a program that uses the library can make happen. Calls that name no server of the channel,
      and writes without a queue to write from, do nothing. */
  datatype Action =
    | DoSend(qbuf: seq<byte>, now: Time)
    | DoAnswer(abuf: seq<byte>, server: nat, tcp: bool, now: Time)
    | DoTimeouts(now: Time)
    | DoError(server: nat, now: Time)
    | DoBroken(now: Time)
    | DoWrote(server: nat, bytes: nat)
    | DoCancel

  ghost predicate ConfigOk(cfg: Config) { cfg.nservers >= 1 && cfg.tries >= 1 }

  /** ares_init: every server has its own first incarnation, the wheel starts at the current second. */
  ghost function Init(cfg: Config, start: Time): (st: State)
    requires ConfigOk(cfg)
    ensures WF(st)
  {
    State(cfg, seq(cfg.nservers, s requires 0 <= s < cfg.nservers => Server(false, false, s + 1, false, [], [])), map[], [],
          seq(QID_TABLE, _ => []), seq(TIMEOUT_TABLE, _ => []), [], 0, cfg.nservers, start.sec, 0, 0, [], true, false)
  }

  /** Taking the time for a call; the flag remembers whether the clock has always been usable. */
  ghost function Clocked(st: State, now: Time): State {
    st.(clockOk := st.clockOk && now.Normal() && now.sec > 0 && now.sec >= st.lastTimeout)
  }

  lemma ClockedInv(st: State, now: Time)
    requires Inv(st)
    ensures Inv(Clocked(st, now)) && ClockFine(Clocked(st, now), now) && WF(Clocked(st, now))
  {
    var r := Clocked(st, now);
    InvParts(st);
    ClockedQueries(st, r);
    ClockedRest(st, r);
    hide AllOk, QidOk, TimersOk, InflightOk, QueriesOk, LogOk, CallbacksOk, CapsOk, StampsOk, ServersOk, QueuesOk, Closed;
  }

  lemma ClockedQueries(st: State, r: State)
    requires WF(st) && WF(r) && QueriesOk(st, None) && r == st.(clockOk := r.clockOk) && (r.clockOk ==> st.clockOk)
    ensures QueriesOk(r, None)
  {
    hide Sane, AtRest, WF;
    forall id | id in r.queries ensures Sane(r, id) && AtRest(r, id) { ClockedQuery(st, r, id); }
  }

  lemma ClockedQuery(st: State, r: State, id: nat)
    requires WF(st) && WF(r) && r == st.(clockOk := r.clockOk) && (r.clockOk ==> st.clockOk)
    requires id in st.queries && Sane(st, id) && AtRest(st, id)
    ensures Sane(r, id) && AtRest(r, id)
  {
    hide Spent, Limit, InTurn, Considered, WF;
    SpentSame(st, r, id, r.queries[id].tryCount + 1);
  }

  lemma ClockedRest(st: State, r: State)
    requires Core(st, None) && WF(r) && r == st.(clockOk := r.clockOk)
    ensures AllOk(r) && QidOk(r) && TimersOk(r, None) && InflightOk(r, None) && ServersOk(r) && QueuesOk(r)
    ensures LogOk(r) && CallbacksOk(r) && CapsOk(r) && StampsOk(r)
  {
    hide QueriesOk, QueueOk, InBucket, NoDup, Ascending, TimeoutBucket, Sends, Waits, Dones, WaitCap, EndOk, TcpSent, Limit;
  }

  ghost function Step(st: State, a: Action): (r: State)
    requires Inv(st)
  {
    match a
    case DoSend(qbuf, now) =>
      ClockedInv(st, now);
      Send(Clocked(st, now), qbuf, now)
    case DoAnswer(abuf, s, tcp, now) =>
      ClockedInv(st, now);
      if s < st.cfg.nservers then ProcessAnswer(Clocked(st, now), abuf, s, tcp, now) else st
    case DoTimeouts(now) =>
      ClockedInv(st, now);
      ProcessTimeouts(Clocked(st, now), now)
    case DoError(s, now) =>
      ClockedInv(st, now);
      if s < st.cfg.nservers then HandleError(Clocked(st, now), s, now) else st
    case DoBroken(now) =>
      ClockedInv(st, now);
      BrokenFrom(Clocked(st, now), 0, now)
    case DoWrote(s, n) =>
      InvParts(st);
      if s < st.cfg.nservers && st.servers[s].tcpOpen && !st.servers[s].broken && st.servers[s].queue != []
      then Wrote(st, s, n) else st
    case DoCancel =>
      InvParts(st);
      AllLive(st);
      Cancel(st)
  }

  /** Every call keeps the invariant. */
  lemma StepInv(st: State, a: Action)
    requires Inv(st)
    ensures Inv(Step(st, a))
  {
    hide Inv, Clocked, Send, ProcessAnswer, ProcessTimeouts, HandleError, BrokenFrom, Wrote, Cancel, WF, ClockFine;
    match a
    case DoSend(qbuf, now) =>
      ClockedInv(st, now);
      SendInv(Clocked(st, now), qbuf, now);
    case DoAnswer(abuf, s, tcp, now) =>
      ClockedInv(st, now);
      ClockedServers(st, now);
      if s < st.cfg.nservers { ProcessAnswerInv(Clocked(st, now), abuf, s, tcp, now); }
    case DoTimeouts(now) =>
      ClockedInv(st, now);
      ProcessTimeoutsInv(Clocked(st, now), now);
    case DoError(s, now) =>
      ClockedInv(st, now);
      ClockedServers(st, now);
      if s < st.cfg.nservers { HandleErrorInv(Clocked(st, now), s, now); }
    case DoBroken(now) =>
      ClockedInv(st, now);
      BrokenFromInv(Clocked(st, now), 0, now);
    case DoWrote(s, n) =>
      InvParts(st);
      if s < st.cfg.nservers && st.servers[s].tcpOpen && !st.servers[s].broken && st.servers[s].queue != [] { WroteInv(st, s, n); }
    case DoCancel =>
      CancelInv(st);
  }

  lemma ClockedServers(st: State, now: Time)
    ensures Clocked(st, now).cfg == st.cfg && Clocked(st, now).dangling == st.dangling
  {
  }

  ghost function Run(st: State, actions: seq<Action>): (r: State)
    requires Inv(st)
    decreases |actions|
  {
    if actions == [] then st
    else
      StepInv(st, actions[0]);
      Run(Step(st, actions[0]), actions[1..])
  }

  lemma {:induction false} RunInv(st: State, actions: seq<Action>)
    requires Inv(st)
    ensures Inv(Run(st, actions))
    decreases |actions|
  {
    hide Inv, Step;
    if actions != [] {
      StepInv(st, actions[0]);
      RunInv(Step(st, actions[0]), actions[1..]);
    }
  }

  lemma InitInv(cfg: Config, start: Time)
    requires ConfigOk(cfg)
    ensures Inv(Init(cfg, start))
  {
    var st := Init(cfg, start);
    MulMono(cfg.nservers, 1, cfg.tries);
    forall b | 0 <= b < QID_TABLE ensures st.byQid[b] == InBucket(st.all, st.queries, b) {}
    hide Schedule, Pow2;
  }

  // ---------- what holds after every run ----------

  ghost function After(cfg: Config, start: Time, actions: seq<Action>): State
    requires ConfigOk(cfg)
  {
    InitInv(cfg, start);
    Run(Init(cfg, start), actions)
  }

  lemma AfterInv(cfg: Config, start: Time, actions: seq<Action>)
    requires ConfigOk(cfg)
    ensures Inv(After(cfg, start, actions)) && After(cfg, start, actions).cfg == cfg
    ensures (cfg.stayopen ==> NoCancel(actions)) ==> !After(cfg, start, actions).dangling
  {
    hide Inv, Init, Run, NoCancel;
    InitInv(cfg, start);
    InitCfg(cfg, start);
    RunInv(Init(cfg, start), actions);
    RunCfg(Init(cfg, start), actions);
  }

  lemma InitCfg(cfg: Config, start: Time)
    requires ConfigOk(cfg)
    ensures Init(cfg, start).cfg == cfg && !Init(cfg, start).dangling
  {
  }

  lemma StepCfg(st: State, a: Action)
    requires Inv(st)
    ensures Step(st, a).cfg == st.cfg
    ensures !(a.DoCancel? && st.cfg.stayopen) ==> Step(st, a).dangling == st.dangling
  {
    hide Inv, Clocked, Send, ProcessAnswer, ProcessTimeouts, HandleError, BrokenFrom, Cancel, WF, ClockFine, Kept, Touches, FirstMatch;
    match a
    case DoSend(qbuf, now) =>
      ClockedInv(st, now);
      ClockedServers(st, now);
      SendCfg(Clocked(st, now), qbuf, now);
    case DoAnswer(abuf, s, tcp, now) =>
      ClockedInv(st, now);
      ClockedServers(st, now);
      if s < st.cfg.nservers { AnswerCfg(Clocked(st, now), abuf, s, tcp, now); }
    case DoTimeouts(now) =>
      ClockedInv(st, now);
      ClockedServers(st, now);
      TimeoutsCfg(Clocked(st, now), now);
    case DoError(s, now) =>
      ClockedInv(st, now);
      ClockedServers(st, now);
      if s < st.cfg.nservers {
        HandleErrorInv(Clocked(st, now), s, now);
        SameConfig(Clocked(st, now), HandleError(Clocked(st, now), s, now));
      }
    case DoBroken(now) =>
      ClockedInv(st, now);
      ClockedServers(st, now);
      BrokenFromInv(Clocked(st, now), 0, now);
      SameConfig(Clocked(st, now), BrokenFrom(Clocked(st, now), 0, now));
    case DoWrote(s, n) =>
      InvParts(st);
    case DoCancel =>
      CancelInv(st);
      CancelFlag(st);
  }

  lemma CancelFlag(st: State)
    requires WF(st) && forall id :: id in st.all ==> id in st.queries
    ensures !st.cfg.stayopen ==> Cancel(st).dangling == st.dangling
  {
    hide CancelAll, CloseFrom, Owned;
    CancelAllCfg(st.(dangling := true));
  }

  lemma {:induction false} CancelAllCfg(st: State)
    requires WF(st) && forall id :: id in st.all ==> id in st.queries
    ensures CancelAll(st).cfg == st.cfg
    decreases |st.all|
  {
    if st.all != [] {
      FreedShorter(st.all, st.all[0]);
      CancelAllCfg(FreeQuery(st, st.all[0], ECANCELLED, 0));
    }
    hide Without;
  }

  lemma SendCfg(st: State, qbuf: seq<byte>, now: Time)
    requires Inv(st) && ClockFine(st, now)
    ensures WF(st) && Send(st, qbuf, now).cfg == st.cfg && Send(st, qbuf, now).dangling == st.dangling
  {
    hide *;
    InvParts(st);
    SendIs(st, qbuf, now);
    if 12 <= |qbuf| < 65536 {
      AdmitIs(st, qbuf);
      AdmitCore(st, qbuf);
      AdmitPre(st, qbuf);
      var a := Admit(st, qbuf);
      CoreWF(a, Some(st.nextId));
      SendQueryCore(a, st.nextId, now);
      SettledParts(a, SendQuery(a, st.nextId, now), st.nextId, now);
      MovedTouches(a, SendQuery(a, st.nextId, now), st.nextId);
      TouchedConfig(a, SendQuery(a, st.nextId, now), Some(st.nextId));
    }
  }

  lemma TouchedConfig(st: State, r: State, m: Option<nat>)
    requires Touches(st, r, m)
    ensures r.cfg == st.cfg && r.dangling == st.dangling
  {
  }

  lemma AnswerCfg(st: State, abuf: seq<byte>, s: nat, tcp: bool, now: Time)
    requires Inv(st) && s < st.cfg.nservers && ClockFine(st, now)
    ensures WF(st) && ProcessAnswer(st, abuf, s, tcp, now).cfg == st.cfg
    ensures ProcessAnswer(st, abuf, s, tcp, now).dangling == st.dangling
  {
    hide Inv, ProcessAnswer, ClockFine, Touches, FirstMatch, WF;
    ProcessAnswerInv(st, abuf, s, tcp, now);
    var m := if |abuf| < 12 then None else FirstMatch(st.all, st.queries, abuf);
    TouchedConfig(st, ProcessAnswer(st, abuf, s, tcp, now), m);
  }

  lemma TimeoutsCfg(st: State, now: Time)
    requires Inv(st) && ClockFine(st, now)
    ensures ProcessTimeouts(st, now).cfg == st.cfg && ProcessTimeouts(st, now).dangling == st.dangling
  {
    hide Inv, WheelFrom, ClockFine, SweptBefore;
    if st.clockOk { NotBehind(st); }
    WheelInv(st, st.lastTimeout, now);
  }

  /** ares_cancel is never called. */
  ghost predicate NoCancel(actions: seq<Action>) { forall i :: 0 <= i < |actions| ==> !actions[i].DoCancel? }

  lemma {:induction false} RunCfg(st: State, actions: seq<Action>)
    requires Inv(st)
    ensures Run(st, actions).cfg == st.cfg
    ensures (st.cfg.stayopen ==> NoCancel(actions)) ==> Run(st, actions).dangling == st.dangling
    decreases |actions|
  {
    hide Inv, Step;
    if actions != [] {
      StepInv(st, actions[0]);
      StepCfg(st, actions[0]);
      RunCfg(Step(st, actions[0]), actions[1..]);
    }
  }

  lemma {:induction false} InBucketMembers(ids: seq<nat>, queries: map<nat, Query>, b: nat, id: nat)
    ensures id in InBucket(ids, queries, b) <==> id in ids && id in queries && QidBucket(queries[id].qid) == b
  {
    if ids != [] {
      var front, last := ids[..|ids| - 1], ids[|ids| - 1];
      assert ids == front + [last];
      InBucketMembers(front, queries, b, id);
    }
  }

  lemma {:induction false} InBucketNoDup(ids: seq<nat>, queries: map<nat, Query>, b: nat)
    requires NoDup(ids)
    ensures NoDup(InBucket(ids, queries, b))
  {
    if ids != [] {
      var front, last := ids[..|ids| - 1], ids[|ids| - 1];
      InBucketNoDup(front, queries, b);
      InBucketMembers(front, queries, b, last);
      assert last !in front;
      if last in queries && QidBucket(queries[last].qid) == b { AppendNoDup(InBucket(front, queries, b), last); }
      else { assert InBucket(front, queries, b) + [] == InBucket(front, queries, b); }
    }
  }

  /** Each live query is exactly once in the list of all queries, in the bucket of its id, in the bucket of
      its deadline and in the list of its server, and nothing else is anywhere. */
  ghost predicate Indexed(r: State) {
    && WF(r) && NoDup(r.all) && (forall id :: id in r.all <==> id in r.queries)
    && (forall b :: 0 <= b < QID_TABLE ==> NoDup(r.byQid[b]))
    && (forall b, id :: 0 <= b < QID_TABLE ==> (id in r.byQid[b] <==> id in r.queries && b == QidBucket(r.queries[id].qid)))
    && (forall b :: 0 <= b < TIMEOUT_TABLE ==> NoDup(r.byTimeout[b]))
    && (forall b, id :: 0 <= b < TIMEOUT_TABLE ==>
         (id in r.byTimeout[b] <==> id in r.queries && b == TimeoutBucket(r.queries[id].timeout)))
    && (forall s :: 0 <= s < |r.servers| ==> NoDup(r.servers[s].inflight))
    && (forall s, id :: 0 <= s < |r.servers| ==> (id in r.servers[s].inflight <==> id in r.queries && s == r.queries[id].server))
  }

  /** After every run, all four indexes are right. */
  lemma EveryRunIndexes(cfg: Config, start: Time, actions: seq<Action>)
    requires ConfigOk(cfg)
    ensures Indexed(After(cfg, start, actions))
  {
    hide *;
    AfterInv(cfg, start, actions);
    IndexesOf(After(cfg, start, actions));
  }

  lemma IndexesOf(r: State)
    requires Inv(r)
    ensures Indexed(r)
  {
    hide NoDup, Ascending, InBucket, TimeoutBucket, QidBucket, QueriesOk, LogOk, CallbacksOk, CapsOk, StampsOk;
    hide ServersOk, QueuesOk, QuietOk;
    forall b | 0 <= b < QID_TABLE ensures NoDup(r.byQid[b]) { InBucketNoDup(r.all, r.queries, b); }
    forall b, id | 0 <= b < QID_TABLE
      ensures id in r.byQid[b] <==> id in r.queries && b == QidBucket(r.queries[id].qid)
    {
      InBucketMembers(r.all, r.queries, b, id);
    }
  }

  /** After every run: the retry schedule of live queries, and the bounds on the transmissions and waits of
      every query that ever was. */
  lemma EveryRunRetries(cfg: Config, start: Time, actions: seq<Action>)
    requires ConfigOk(cfg)
    ensures var r := After(cfg, start, actions);
      && (forall id :: id in r.queries ==>
           r.queries[id].tryCount < Limit(cfg) &&
           r.queries[id].server == ((if cfg.rotate then id % cfg.nservers else 0) + r.queries[id].tryCount) % cfg.nservers)
      && (forall id: nat ::
           Sends(r.log, id) <= cfg.nservers * cfg.tries + 1 &&
           Waits(r.log, id) <= cfg.nservers * (cfg.timeout * (Pow2(cfg.tries) - 1)) + cfg.timeout * Pow2(cfg.tries - 1))
  {
    hide After, Sends, Waits, Sane, AtRest, Pow2, Schedule;
    AfterInv(cfg, start, actions);
    var r := After(cfg, start, actions);
    ScheduleClosed(cfg.timeout, cfg.nservers, cfg.tries);
    InvParts(r);
    RetriesOf(r);
    assert WaitCap(cfg, Limit(cfg), 1)
        == cfg.nservers * (cfg.timeout * (Pow2(cfg.tries) - 1)) + cfg.timeout * Pow2(cfg.tries - 1);
    hide WaitCap, Inv, Core;
  }

  lemma SaneTurn(r: State, id: nat)
    requires WF(r) && id in r.queries && Sane(r, id) && r.queries[id].tryCount < Limit(r.cfg)
    ensures r.queries[id].server == ((if r.cfg.rotate then id % r.cfg.nservers else 0) + r.queries[id].tryCount) % r.cfg.nservers
  {
    hide Limit, InTurn, Considered;
  }

  lemma RetriesOf(r: State)
    requires Core(r, None)
    ensures WF(r)
    ensures forall id: nat ::
      Sends(r.log, id) <= Limit(r.cfg) + 1 && Waits(r.log, id) <= WaitCap(r.cfg, Limit(r.cfg), 1)
    ensures forall id :: id in r.queries ==>
      r.queries[id].tryCount < Limit(r.cfg) &&
      r.queries[id].server == ((if r.cfg.rotate then id % r.cfg.nservers else 0) + r.queries[id].tryCount) % r.cfg.nservers
  {
    hide *;
    CoreWF(r, None);
    ServersCount(r);
    forall id | id in r.queries
      ensures r.queries[id].tryCount < Limit(r.cfg) &&
        r.queries[id].server == ((if r.cfg.rotate then id % r.cfg.nservers else 0) + r.queries[id].tryCount) % r.cfg.nservers
    {
      RestParts(r, id);
      SaneTurn(r, id);
    }
    CapsOf(r);
  }

  lemma ServersCount(r: State)
    requires WF(r)
    ensures r.cfg.nservers >= 1 && r.cfg.tries >= 1
  {
  }

  lemma CapsOf(r: State)
    requires Core(r, None) && r.cfg.nservers >= 1 && r.cfg.tries >= 1
    ensures forall id: nat ::
      Sends(r.log, id) <= Limit(r.cfg) + 1 && Waits(r.log, id) <= WaitCap(r.cfg, Limit(r.cfg), 1)
  {
    assert CapsOk(r);
    hide Core, Sends, Waits, WaitCap, Limit;
  }

  /** After every run: the wait behind each transmission is the base timeout doubled once per round of
      servers, times 9 to 16 sixteenths, rounded down; and the transmissions of one query are those of
      ascending attempts, except that an attempt made by datagram may be made once more over TCP. */
  lemma EveryRunWaits(cfg: Config, start: Time, actions: seq<Action>)
    requires ConfigOk(cfg)
    ensures var r := After(cfg, start, actions);
      && (forall i :: 0 <= i < |r.log| && r.log[i].Sent? ==> WaitOk(cfg, r.log[i]))
      && (forall i, j, id :: 0 <= i < j < |r.log| && SentBy(r.log[i], id) && SentBy(r.log[j], id) ==>
           InOrder(r.log[i], r.log[j]))
  {
    hide After, WaitOk;
    AfterInv(cfg, start, actions);
    var r := After(cfg, start, actions);
    assert LogOk(r) && OrderOk(r);
    hide InOrder, Inv;
  }

  /** Two transmissions of one attempt of one query. */
  ghost predicate Repeated(log: seq<Event>, id: nat, i: nat, j: nat) {
    i < j < |log| && SentBy(log[i], id) && SentBy(log[j], id) && log[i].attempt == log[j].attempt
  }

  /** After every run, each query has made at most one attempt twice: by datagram, and then over TCP. This
      is the one transmission by which it may exceed its attempts. */
  lemma EveryRunSwitches(cfg: Config, start: Time, actions: seq<Action>, id: nat, i: nat, j: nat, k: nat, l: nat)
    requires ConfigOk(cfg)
    requires Repeated(After(cfg, start, actions).log, id, i, j) && Repeated(After(cfg, start, actions).log, id, k, l)
    ensures var log := After(cfg, start, actions).log;
      i == k && j == l && !log[i].tcp && log[j].tcp && forall m :: j < m < |log| && SentBy(log[m], id) ==> log[m].tcp
  {
    hide After, WaitOk;
    EveryRunWaits(cfg, start, actions);
    var log := After(cfg, start, actions).log;
  }

  /** After every run: a query has ended in refusal or timeout if and only if all its attempts are used up;
      it is a timeout if and only if one has been counted for it, and every server has then been considered
      exactly `tries` times. */
  lemma EveryRunEndings(cfg: Config, start: Time, actions: seq<Action>)
    requires ConfigOk(cfg)
    ensures var r := After(cfg, start, actions);
      forall i :: 0 <= i < |r.log| && r.log[i].Done? ==>
        && ((r.log[i].status == 11 || r.log[i].status == 12) <==> r.log[i].attempts == Limit(cfg))
        && (r.log[i].attempts == Limit(cfg) ==>
              && (r.log[i].status == 12 <==> r.log[i].timeouts > 0)
              && forall s :: 0 <= s < cfg.nservers ==> multiset(r.log[i].considered)[s] == cfg.tries)
  {
    hide After, Limit;
    AfterInv(cfg, start, actions);
    var r := After(cfg, start, actions);
    assert LogOk(r);
    hide Inv;
    forall i | 0 <= i < |r.log| ensures EndOk(cfg, r.log[i]) {}
  }

  /** After every run: each query's callback has run exactly once if the query has ended and not at all
      otherwise; and with nothing live and no wish to stay open, every socket and queue is gone. */
  lemma EveryRunCallbacks(cfg: Config, start: Time, actions: seq<Action>)
    requires ConfigOk(cfg)
    ensures var r := After(cfg, start, actions);
      && (forall id: nat :: Dones(r.log, id) == if id < r.nextId && id !in r.queries then 1 else 0)
      && (!cfg.stayopen && r.queries == map[] ==> forall s :: 0 <= s < |r.servers| ==> Closed(r.servers[s]))
  {
    hide After, Dones, Closed;
    AfterInv(cfg, start, actions);
    var r := After(cfg, start, actions);
    CallbacksOf(r);
  }

  lemma CallbacksOf(r: State)
    requires Inv(r)
    ensures forall id: nat :: Dones(r.log, id) == if id < r.nextId && id !in r.queries then 1 else 0
    ensures !r.cfg.stayopen && r.queries == map[] ==> forall s :: 0 <= s < |r.servers| ==> Closed(r.servers[s])
  {
    HeadIn(r.all);
    assert forall id :: id in r.all ==> id in r.queries;
    hide Dones, Closed, InBucket, NoDup, Ascending, QueriesOk, LogOk, CapsOk, StampsOk, QueuesOk;
  }

  /** Two queueings of one query for one server over TCP. */
  ghost predicate SameConnection(e: Event, f: Event) {
    e.Sent? && f.Sent? && e.tcp && f.tcp && e.id == f.id && e.server == f.server
  }

  /** After every run: nothing was ever sent to a server marked as skipped, and no query was queued twice
      on the same incarnation of a connection. */
  lemma EveryRunSends(cfg: Config, start: Time, actions: seq<Action>)
    requires ConfigOk(cfg)
    ensures var r := After(cfg, start, actions);
      && (forall i :: 0 <= i < |r.log| && r.log[i].Sent? ==> !r.log[i].skipped)
      && (forall i, j :: 0 <= i < j < |r.log| && SameConnection(r.log[i], r.log[j]) ==>
           r.log[i].generation != r.log[j].generation)
  {
    hide After;
    AfterInv(cfg, start, actions);
    SendsOf(After(cfg, start, actions));
  }

  lemma SendsOf(r: State)
    requires Inv(r)
    ensures forall i :: 0 <= i < |r.log| && r.log[i].Sent? ==> !r.log[i].skipped
    ensures forall i, j :: 0 <= i < j < |r.log| && SameConnection(r.log[i], r.log[j]) ==> r.log[i].generation != r.log[j].generation
  {
    assert LogOk(r) && StampsOk(r);
    hide Inv;
    forall i, j | 0 <= i < j < |r.log| && SameConnection(r.log[i], r.log[j])
      ensures r.log[i].generation != r.log[j].generation
    {
      assert TcpSent(r.log[i], r.log[i].id, r.log[i].server) && TcpSent(r.log[j], r.log[i].id, r.log[i].server);
    }
  }

  /** After every run that does not call ares_cancel while sockets are to stay open: each queued request
      points into its live owner's buffer at a suffix, or owns a copy, or its server is broken; and only
      open connections have queues. */
  lemma EveryRunQueues(cfg: Config, start: Time, actions: seq<Action>)
    requires ConfigOk(cfg) && (cfg.stayopen ==> NoCancel(actions))
    ensures var r := After(cfg, start, actions);
      forall s, i :: 0 <= s < |r.servers| && 0 <= i < |r.servers[s].queue| ==>
        RequestOk(r.queries, r.servers[s].broken, r.servers[s].queue[i]) && r.servers[s].tcpOpen
  {
    hide After, RequestOk, NoCancel;
    AfterInv(cfg, start, actions);
    var r := After(cfg, start, actions);
    assert ServersOk(r) && QueuesOk(r);
    forall s, i | 0 <= s < |r.servers| && 0 <= i < |r.servers[s].queue|
      ensures RequestOk(r.queries, r.servers[s].broken, r.servers[s].queue[i]) && r.servers[s].tcpOpen
    {
      assert QueueOk(r.queries, r.servers[s]);
    }
  }

  // ---------- a run that leaves a request dangling ----------

  lemma RunTwo(st: State, a: Action, b: Action)
    requires Inv(st)
    ensures Inv(Step(st, a)) && Run(st, [a, b]) == Step(Step(st, a), b)
  {
    hide Inv, Step;
    StepInv(st, a);
    assert [a, b][1..] == [b] && [b][1..] == [];
    assert Run(Step(st, a), [b]) == Run(Step(Step(st, a), b), []) by { StepInv(Step(st, a), b); }
  }

  lemma InitIs(cfg: Config, start: Time, now: Time)
    requires ConfigOk(cfg)
    ensures var c := Clocked(Init(cfg, start), now);
      && WF(c) && c.cfg == cfg && Env(c) == cfg.env(0) && c.lastServer == 0 < |c.servers| && c.nextId == 0 && c.queries == map[]
  {
  }

  lemma AdmitOverTcp(st: State, qbuf: seq<byte>)
    requires WF(st) && 12 <= |qbuf| < 65536 && st.cfg.usevc
    ensures var a := Admit(st, qbuf);
      && st.nextId in a.queries && a.queries[st.nextId].usingTcp && a.queries[st.nextId].server == st.lastServer < |a.servers|
      && Env(a) == Env(st)
  {
  }

  lemma StepSends(st: State, qbuf: seq<byte>, now: Time)
    requires Inv(st)
    ensures WF(Clocked(st, now)) && Step(st, DoSend(qbuf, now)) == Send(Clocked(st, now), qbuf, now)
  {
    hide Inv, Send, Clocked;
    ClockedInv(st, now);
  }

  lemma StepCancels(st: State)
    requires Inv(st)
    ensures WF(st) && (forall id :: id in st.all ==> id in st.queries) && Step(st, DoCancel) == Cancel(st)
  {
    hide Cancel;
    InvParts(st);
    AllLive(st);
    hide Inv;
  }

  lemma TailOwned(servers: seq<Server>, s: nat, q: seq<Request>, id: nat, data: seq<byte>)
    requires s < |servers| && servers[s].queue == q + [Request(Some(id), data, false)]
    ensures Owned(servers)
  {
    assert servers[s].queue[|q|].owner.Some?;
  }

  /** On a channel that stays open and uses TCP, one ares_send followed by ares_cancel leaves a queued request
      that points into the freed query. */
  lemma CancelLeavesDangling(cfg: Config, start: Time, qbuf: seq<byte>, now: Time)
    requires ConfigOk(cfg) && cfg.stayopen && cfg.usevc && cfg.env(0).opens && cfg.env(0).allocates
    requires 12 <= |qbuf| < 65536
    ensures var r := After(cfg, start, [DoSend(qbuf, now), DoCancel]);
      exists s :: 0 <= s < |r.servers| && !QueueOk(r.queries, r.servers[s])
  {
    hide *;
    InitInv(cfg, start);
    var st := Init(cfg, start);
    AfterIs(cfg, start, [DoSend(qbuf, now), DoCancel]);
    RunTwo(st, DoSend(qbuf, now), DoCancel);
    InitIs(cfg, start, now);
    var c := Clocked(st, now);
    StepSends(st, qbuf, now);
    AdmitIs(c, qbuf);
    AdmitOverTcp(c, qbuf);
    SendIs(c, qbuf, now);
    TransmitAppends(Admit(c, qbuf), 0, now);
    var b := Step(st, DoSend(qbuf, now));
    TailOwned(b.servers, 0, Admit(c, qbuf).servers[0].queue, 0, Admit(c, qbuf).queries[0].tcpbuf);
    StepCfg(st, DoSend(qbuf, now));
    InitCfg(cfg, start);
    StepCancels(b);
    CancelDangles(b);
  }

  lemma AfterIs(cfg: Config, start: Time, actions: seq<Action>)
    requires ConfigOk(cfg)
    ensures Inv(Init(cfg, start)) && After(cfg, start, actions) == Run(Init(cfg, start), actions)
  {
    hide Run, Init, Inv;
    InitInv(cfg, start);
  }

  // ---------- a successful end leaves the other connections' bytes alone ----------

  lemma {:induction false} PendingReleased(v: Server, w: Server, id: nat, copies: nat -> bool, from: nat)
    requires from <= |v.queue| && w == ReleaseQueue(v, id, true, copies) && !w.broken
    ensures |w.queue| == |v.queue| && Pending(w.queue[from..]) == Pending(v.queue[from..])
    decreases |v.queue| - from
  {
    if from < |v.queue| {
      PendingReleased(v, w, id, copies, from + 1);
      assert v.queue[from..][1..] == v.queue[from + 1..] && w.queue[from..][1..] == w.queue[from + 1..];
      assert !Drops(v.queue[from], id, true, copies(from));
    }
  }

  /** Ending a query with success leaves the pending byte stream of every server that is not broken
      afterwards as it was, unless this was the last query and the sockets are closed. */
  lemma SuccessKeepsPending(st: State, id: nat, s: nat)
    requires WF(st) && id in st.queries && s < st.cfg.nservers && !EndQuery(st, id, SUCCESS).servers[s].broken
    ensures var r := EndQuery(st, id, SUCCESS);
      Pending(r.servers[s].queue) ==
        if !st.cfg.stayopen && Without(st.all, id) == [] then [] else Pending(st.servers[s].queue)
  {
    var a := Release(st, id, true);
    var f := FreeQuery(a, id, SUCCESS, st.queries[id].timeouts);
    if !st.cfg.stayopen && f.all == [] {
      CloseFromCloses(f, 0, s);
    } else {
      hide CloseFrom;
      var v, w := st.servers[s], a.servers[s];
      PendingReleased(v, w, id, CopiesFor(Env(st), s), 0);
      assert v.queue[0..] == v.queue && w.queue[0..] == w.queue;
      assert f.servers[s].queue == w.queue && f.servers[s].broken == w.broken;
    }
  }

  lemma {:induction false} CloseFromCloses(st: State, from: nat, s: nat)
    requires WF(st) && from <= st.cfg.nservers && s < st.cfg.nservers && (s < from ==> st.servers[s].queue == [])
    ensures CloseFrom(st, from).servers[s].queue == []
    decreases st.cfg.nservers - from
  {
    if from < st.cfg.nservers { CloseFromCloses(CloseSockets(st, from), from + 1, s); }
  }
}
