/** The channel as the library keeps it: one object whose methods update it in place. Every method is
    proved to take the channel's state to what the engine's step function says. */
module Channels {
  import opened Seqs
  import opened Clock
  import opened Names
  import opened Questions
  import opened Engine
  import opened EngineInv
  import opened EngineSteps
  import opened EngineOps
  import opened EngineApi
  import opened EngineSend
  import opened EngineTimers
  import opened EngineRun

  /** Overwriting one entry twice. */
  lemma TwoUpdates<T>(m: map<nat, T>, id: nat, a: T, b: T)
    ensures m[id := a][id := b] == m[id := b]
  {
  }

  /** The first i requests of v's queue have been released in w. */
  ghost predicate Partly(v: Server, w: Server, id: nat, success: bool, copies: nat -> bool, i: nat) {
    && |w.queue| == |v.queue| && i <= |v.queue|
    && w == v.(queue := w.queue, broken := w.broken)
    && (forall j :: 0 <= j < i ==> w.queue[j] == ReleaseRequest(v.queue[j], id, success, copies(j)))
    && (forall j :: i <= j < |v.queue| ==> w.queue[j] == v.queue[j])
    && (w.broken <==> v.broken || exists j :: 0 <= j < i && Drops(v.queue[j], id, success, copies(j)))
  }

  lemma PartlyStart(v: Server, id: nat, success: bool, copies: nat -> bool)
    ensures Partly(v, v, id, success, copies, 0)
  {
  }

  lemma PartlyTurn(v: Server, w: Server, id: nat, success: bool, copies: nat -> bool, i: nat)
    requires Partly(v, w, id, success, copies, i) && i < |v.queue|
    ensures |w.queue| == |v.queue|
    ensures var r := w.queue[i];
      var u := if r.owner != Some(id) then w
               else if success && copies(i) then w.(queue := w.queue[i := Request(None, r.data, true)])
               else w.(queue := w.queue[i := Request(None, [], false)], broken := true);
      Partly(v, u, id, success, copies, i + 1)
  {
  }

  lemma PartlyDone(v: Server, w: Server, id: nat, success: bool, copies: nat -> bool, i: nat)
    requires Partly(v, w, id, success, copies, i) && i >= |w.queue|
    ensures w == Engine.ReleaseQueue(v, id, success, copies)
  {
    assert w.queue == Engine.ReleaseQueue(v, id, success, copies).queue;
  }

  lemma FreeQueryIs(st: State, id: nat, status: nat, timeouts: nat)
    requires WF(st) && id in st.queries
    ensures Engine.FreeQuery(st, id, status, timeouts) ==
      st.(log := st.log + [Done(id, status, timeouts, st.queries[id].tryCount, st.queries[id].considered)],
          queries := st.queries - {id},
          all := Without(st.all, id), byQid := Unlink(st.byQid, id), byTimeout := Unlink(st.byTimeout, id),
          limbo := Without(st.limbo, id), servers := UnlinkServers(st.servers, id))
  {
    assert st.queries - {id} == map j | j in st.queries && j != id :: st.queries[j];
    hide Without, WF;
  }

  class Channel {
    const cfg: Config
    var servers: seq<Server>
    var queries: map<nat, Query>
    var all: seq<nat>
    var byQid: seq<seq<nat>>
    var byTimeout: seq<seq<nat>>
    var limbo: seq<nat>
    var nextId: nat
    var generation: nat
    var lastTimeout: nat
    var lastServer: nat
    var step: nat
    var log: seq<Event>
    ghost var clockOk: bool
    ghost var dangling: bool

    ghost function View(): State
      reads this
    {
      State(cfg, servers, queries, all, byQid, byTimeout, limbo, nextId, generation, lastTimeout, lastServer, step, log,
            clockOk, dangling)
    }

    lemma ViewIs()
      ensures View() == State(cfg, servers, queries, all, byQid, byTimeout, limbo, nextId, generation, lastTimeout, lastServer,
                              step, log, clockOk, dangling)
    {
    }

    /** ares_init. */
    constructor (cfg: Config, start: Time)
      requires ConfigOk(cfg)
      ensures View() == Init(cfg, start) && Inv(View())
    {
      this.cfg := cfg;
      servers := seq(cfg.nservers, s requires 0 <= s < cfg.nservers => Server(false, false, s + 1, false, [], []));
      queries, all, limbo, nextId := map[], [], [], 0;
      byQid := seq(QID_TABLE, _ => []);
      byTimeout := seq(TIMEOUT_TABLE, _ => []);
      generation, lastTimeout, lastServer, step, log := cfg.nservers, start.sec, 0, 0, [];
      clockOk, dangling := true, false;
      new;
      InitInv(cfg, start);
      assert servers == Init(cfg, start).servers;
      assert byQid == Init(cfg, start).byQid;
      assert byTimeout == Init(cfg, start).byTimeout;
    }

    // ---------- sockets ----------

    /** ares__close_sockets. */
    method CloseSockets(s: nat)
      requires WF(View()) && s < cfg.nservers
      modifies this`servers, this`generation
      ensures View() == Engine.CloseSockets(old(View()), s) && WF(View())
    {
      hide Without;
      ghost var v := servers[s];
      while servers[s].queue != []
        invariant |servers| == cfg.nservers
        invariant servers == old(servers)[s := v.(queue := servers[s].queue)]
        invariant generation == old(generation)
        decreases |servers[s].queue|
      {
        servers := servers[s := servers[s].(queue := servers[s].queue[1..])];
      }
      servers := servers[s := servers[s].(broken := false)];
      if servers[s].tcpOpen {
        generation := generation + 1;
        servers := servers[s := servers[s].(tcpOpen := false, generation := generation)];
      }
      if servers[s].udpOpen {
        servers := servers[s := servers[s].(udpOpen := false)];
      }
      assert servers == Engine.CloseSockets(old(View()), s).servers;
    }

    method CloseAll()
      requires WF(View())
      modifies this
      ensures View() == CloseFrom(old(View()), 0) && WF(View())
    {
      var s := 0;
      while s < cfg.nservers
        invariant s <= cfg.nservers && WF(View())
        invariant CloseFrom(View(), s) == CloseFrom(old(View()), 0)
      {
        CloseSockets(s);
        s := s + 1;
      }
    }

    // ---------- end_query ----------

    /** The inner loop of end_query over one server's send queue. */
    method ReleaseQueue(s: nat, id: nat, success: bool, c: Choice)
      requires s < |servers|
      modifies this`servers
      ensures servers == old(servers)[s := Engine.ReleaseQueue(old(servers)[s], id, success, CopiesFor(c, s))]
    {
      ghost var v := servers[s];
      ghost var copies := CopiesFor(c, s);
      assert forall j: nat :: copies(j) == c.copies(s, j);
      assert old(servers)[s := servers[s]] == servers;
      hide *;
      PartlyStart(v, id, success, copies);
      var i: nat := 0;
      while i < |servers[s].queue|
        invariant |servers| == |old(servers)| && servers == old(servers)[s := servers[s]]
        invariant Partly(v, servers[s], id, success, copies, i)
      {
        PartlyTurn(v, servers[s], id, success, copies, i);
        var r := servers[s].queue[i];
        if r.owner == Some(id) {
          if success && c.copies(s, i) {
            servers := servers[s := servers[s].(queue := servers[s].queue[i := Request(None, r.data, true)])];
          } else {
            servers := servers[s := servers[s].(queue := servers[s].queue[i := Request(None, [], false)], broken := true)];
          }
        }
        i := i + 1;
      }
      PartlyDone(v, servers[s], id, success, copies, i);
    }

    method Release(id: nat, success: bool)
      requires WF(View())
      modifies this
      ensures View() == Engine.Release(old(View()), id, success) && WF(View())
    {
      var c := cfg.env(step);
      step := step + 1;
      var s := 0;
      while s < cfg.nservers
        invariant 0 <= s <= cfg.nservers == |servers| == |old(servers)|
        invariant View() == old(View()).(servers := servers, step := old(step) + 1)
        invariant forall t :: 0 <= t < s ==>
          servers[t] == Engine.ReleaseQueue(old(servers)[t], id, success, CopiesFor(c, t))
        invariant forall t :: s <= t < cfg.nservers ==> servers[t] == old(servers)[t]
      {
        ReleaseQueue(s, id, success, c);
        s := s + 1;
      }
      assert servers == Engine.Release(old(View()), id, success).servers;
    }

    /** ares__free_query, with the callback that comes before it. */
    method FreeQuery(id: nat, status: nat, timeouts: nat)
      requires WF(View()) && id in queries
      modifies this
      ensures View() == Engine.FreeQuery(old(View()), id, status, timeouts) && WF(View())
    {
      hide *;
      ViewIs();
      FreeQueryIs(View(), id, status, timeouts);
      log := log + [Done(id, status, timeouts, queries[id].tryCount, queries[id].considered)];
      byQid := Unlink(byQid, id);
      byTimeout := Unlink(byTimeout, id);
      servers := UnlinkServers(servers, id);
      limbo := Without(limbo, id);
      all := Without(all, id);
      queries := queries - {id};
      ViewIs();
    }

    method EndQuery(id: nat, status: nat)
      requires WF(View()) && id in queries
      modifies this
      ensures View() == Engine.EndQuery(old(View()), id, status) && WF(View())
    {
      ghost var st := View();
      var timeouts := queries[id].timeouts;
      Release(id, status == SUCCESS);
      FreeQuery(id, status, timeouts);
      if !cfg.stayopen && all == [] {
        CloseAll();
      }
      hide Engine.Release, Engine.FreeQuery, CloseFrom;
    }

    // ---------- next_server and ares__send_query ----------

    method SkipServer(id: nat, s: nat)
      requires WF(View()) && id in queries && s < cfg.nservers
      modifies this`queries
      ensures View() == Engine.SkipServer(old(View()), id, s) && WF(View()) && id in queries
      ensures queries[id].tryCount == old(queries[id].tryCount)
    {
      if cfg.nservers > 1 {
        var q := queries[id];
        queries := queries[id := q.(info := q.info[s := q.info[s].(skip := true)])];
      }
    }

    /** open_tcp_socket once the socket could be had: a new incarnation begins. */
    method OpenTcp(s: nat)
      requires WF(View()) && s < cfg.nservers
      modifies this`servers, this`generation
      ensures View() == Engine.OpenTcp(old(View()), s) && WF(View())
    {
      if !servers[s].tcpOpen {
        generation := generation + 1;
        servers := servers[s := servers[s].(tcpOpen := true, generation := generation)];
      }
    }

    method OpenUdp(s: nat)
      requires WF(View()) && s < cfg.nservers
      modifies this`servers
      ensures View() == Engine.OpenUdp(old(View()), s) && WF(View())
    {
      servers := servers[s := servers[s].(udpOpen := true)];
    }

    /** Append to the send queue, and stamp the query with the connection's incarnation. */
    method Enqueue(id: nat)
      requires WF(View()) && id in queries
      modifies this`servers, this`queries
      ensures View() == Stamp(QueueRequest(old(View()), id), id) && WF(View()) && id in queries
    {
      var q := queries[id];
      var v := servers[q.server];
      servers := servers[q.server := v.(queue := v.queue + [Request(Some(id), q.tcpbuf, false)])];
      queries := queries[id := q.(info := q.info[q.server := q.info[q.server].(generation := v.generation)])];
    }

    /** The end of ares__send_query: deadline, timer bucket, server list. */
    method Arm(id: nat, now: Time, jitter: nat)
      requires WF(View()) && id in queries
      modifies this`servers, this`queries, this`byTimeout, this`limbo, this`log
      ensures View() == Engine.Arm(old(View()), id, now, jitter) && WF(View())
    {
      ghost var st := View();
      var q := queries[id];
      var s := q.server;
      var wait := Wait(cfg.timeout, q.tryCount, cfg.nservers, jitter);
      var deadline := TimeAdd(now, wait);
      hide Wait, TimeAdd, TimeoutBucket, Without;
      queries := queries[id := q.(timeout := deadline)];
      log := log + [Sent(id, s, q.usingTcp, q.info[s].generation, q.tryCount, wait, q.info[s].skip)];
      var b := TimeoutBucket(deadline);
      byTimeout := Unlink(byTimeout, id);
      byTimeout := byTimeout[b := byTimeout[b] + [id]];
      servers := UnlinkServers(servers, id);
      limbo := Without(limbo, id);
      servers := servers[s := servers[s].(inflight := servers[s].inflight + [id])];
    }

    method CountAttempt(id: nat)
      requires id in queries
      modifies this`queries
      ensures View() == OneMore(old(View()), id) && queries == View().queries
    {
      queries := queries[id := queries[id].(tryCount := queries[id].tryCount + 1)];
    }

    /** The loop body of next_server up to the decision: go to the next server, and ask whether it will do. */
    method MoveOn(id: nat) returns (good: bool)
      requires id in queries && |servers| == cfg.nservers > 0 && |queries[id].info| == cfg.nservers
      modifies this`queries
      ensures View() == Rotated(old(View()), id) && good == GoodServer(View(), id)
    {
      var q := queries[id];
      var s := (q.server + 1) % cfg.nservers;
      queries := queries[id := q.(server := s, considered := q.considered + [s])];
      var v := servers[s];
      good := !v.broken && !q.info[s].skip && !(q.usingTcp && q.info[s].generation == v.generation);
    }

    method NextServer(id: nat, now: Time)
      requires WF(View()) && id in queries
      modifies this
      ensures View() == Engine.NextServer(old(View()), id, now) && WF(View())
      decreases AttemptsLeft(View(), id), 0
    {
      ghost var st := View();
      ghost var prev := st;
      var limit := cfg.nservers * cfg.tries;
      hide *;
      ViewIs();
      CountingStart(st, id, now);
      CountAttempt(id);
      ViewIs();
      while queries[id].tryCount < limit
        invariant id in queries && Counting(st, prev, View(), id, now)
        invariant limit == st.cfg.nservers * st.cfg.tries && cfg == st.cfg
        decreases limit - queries[id].tryCount
      {
        ViewIs();
        CountingTurn(st, prev, View(), id, now);
        var good := MoveOn(id);
        ViewIs();
        if good {
          SendQuery(id, now);
          return;
        }
        prev := View();
        CountAttempt(id);
        ViewIs();
      }
      ViewIs();
      CountingEnd(st, prev, View(), id, now);
      EndQuery(id, queries[id].errorStatus);
    }

    method SendQuery(id: nat, now: Time)
      requires WF(View()) && id in queries
      modifies this
      ensures View() == Engine.SendQuery(old(View()), id, now) && WF(View())
      decreases AttemptsLeft(View(), id), 1
    {
      hide *;
      ViewIs();
      ghost var st := View();
      SendCases(st, id, now);
      var c := cfg.env(step);
      var q := queries[id];
      var s := q.server;
      var v := servers[s];
      step := step + 1;
      ViewIs();
      if q.usingTcp {
        if !v.tcpOpen && !c.opens {
          SkipServer(id, s);
          ViewIs();
          NextServer(id, now);
          return;
        }
        OpenTcp(s);
        ViewIs();
        if !c.allocates {
          EndQuery(id, ENOMEM);
          return;
        }
        Enqueue(id);
      } else {
        if !v.udpOpen && !c.opens {
          SkipServer(id, s);
          ViewIs();
          NextServer(id, now);
          return;
        }
        OpenUdp(s);
        ViewIs();
        if !c.writes {
          SkipServer(id, s);
          ViewIs();
          NextServer(id, now);
          return;
        }
      }
      ViewIs();
      Arm(id, now, c.jitter);
    }

    // ---------- handle_error and process_broken_connections ----------

    /** ares__swap_lists of the server's list with the empty temporary one. */
    method Steal(s: nat)
      requires WF(View()) && s < cfg.nservers
      modifies this`limbo, this`servers
      ensures View() == EngineOps.Steal(old(View()), s)
    {
      var mine := servers[s].inflight;
      servers := servers[s := servers[s].(inflight := limbo)];
      limbo := mine;
    }

    method HandleError(s: nat, now: Time)
      requires Inv(View()) && s < cfg.nservers && ClockFine(View(), now)
      modifies this
      ensures View() == EngineOps.HandleError(old(View()), s, now) && Inv(View())
    {
      ghost var st := View();
      hide *;
      ViewIs();
      CloseThenSteal(st, s, now);
      HandleErrorInv(st, s, now);
      HandleErrorIs(st, s, now);
      CloseSockets(s);
      ViewIs();
      Steal(s);
      ViewIs();
      while limbo != []
        invariant Draining(View(), s) && ClockFine(View(), now)
        invariant Drain(View(), s, now) == EngineOps.HandleError(st, s, now)
        decreases |limbo|
      {
        ViewIs();
        DrainIs(View(), s, now);
        DrainTurn(View(), s, now);
        var id := limbo[0];
        assert queries[id].server == s;
        SkipServer(id, s);
        ViewIs();
        NextServer(id, now);
        ViewIs();
      }
      ViewIs();
      DrainIs(View(), s, now);
    }

    method ProcessBrokenConnections(now: Time)
      requires Inv(View()) && ClockFine(View(), now)
      modifies this
      ensures View() == BrokenFrom(old(View()), 0, now) && Inv(View())
    {
      ghost var st := View();
      hide *;
      ViewIs();
      InvParts(st);
      Sizes(st);
      var s: nat := 0;
      while s < cfg.nservers
        invariant s <= cfg.nservers == |servers| && View().cfg == cfg && Inv(View()) && ClockFine(View(), now)
        invariant BrokenFrom(View(), s, now) == BrokenFrom(st, 0, now)
      {
        ViewIs();
        BrokenIs(View(), s, now);
        if servers[s].broken {
          HandleErrorInv(View(), s, now);
          HandleError(s, now);
          ViewIs();
          InvParts(View());
          Sizes(View());
        }
        s := s + 1;
      }
      ViewIs();
      BrokenIs(View(), s, now);
    }

    // ---------- process_timeouts ----------

    method Expire(id: nat, now: Time)
      requires WF(View()) && id in queries
      modifies this
      ensures View() == EngineTimers.Expire(old(View()), id, now) && WF(View())
    {
      hide Engine.NextServer;
      var q := queries[id];
      queries := queries[id := q.(errorStatus := ETIMEOUT, timeouts := q.timeouts + 1)];
      NextServer(id, now);
    }

    /** The outer loop of process_timeouts, over the seconds since the last pass. */
    method TurnWheel(now: Time)
      requires Inv(View()) && ClockFine(View(), now)
      modifies this
      ensures View() == WheelFrom(old(View()), old(lastTimeout), now)
    {
      ghost var st := View();
      hide *;
      ViewIs();
      WheelStart(st, now);
      var t := lastTimeout;
      while t <= now.sec
        invariant WheelAt(st, View(), t, now)
        decreases if t <= now.sec then now.sec - t + 1 else 0
      {
        WheelTurn(st, View(), t, now);
        ViewIs();
        ProcessBucket(TimeoutBucket(Time(t, 0)), now);
        t := t + 1;
      }
      WheelEnd(st, View(), t, now);
    }

    method ProcessTimeouts(now: Time)
      requires Inv(View()) && ClockFine(View(), now)
      modifies this
      ensures View() == EngineTimers.ProcessTimeouts(old(View()), now) && Inv(View())
    {
      ProcessTimeoutsInv(View(), now);
      TimeoutsIs(View(), now);
      hide *;
      TurnWheel(now);
      ViewIs();
      lastTimeout := now.sec;
      ViewIs();
    }

    /** The inner loop of process_timeouts: the node after the current one is noted before the current
        one is handled. */
    method ProcessBucket(b: nat, now: Time)
      requires Inv(View()) && ClockFine(View(), now) && b < TIMEOUT_TABLE && |byTimeout| == TIMEOUT_TABLE
      modifies this
      ensures View() == Walk(old(View()), b, if old(byTimeout[b]) == [] then None else Some(0), now)
    {
      hide *;
      ViewIs();
      ghost var st := View();
      var cur: Option<nat> := if byTimeout[b] == [] then None else Some(0);
      ghost var first := cur;
      BucketStart(st, b, cur, now);
      while cur.Some?
        invariant BucketAt(st, View(), b, first, cur, now)
        decreases Budget(View().all, View().queries, Limit(View().cfg)), if cur.Some? then 1 + Remaining(View(), b, cur.value) else 0
      {
        BucketTurn(st, View(), b, first, cur.value, now);
        ViewIs();
        var i := cur.value;
        var id := byTimeout[b][i];
        var more := i + 1 < |byTimeout[b]|;
        if queries[id].timeout.sec != 0 && TimedOut(now, queries[id].timeout) {
          Expire(id, now);
          cur := if more then Some(i) else None;
        } else {
          cur := if more then Some(i + 1) else None;
        }
      }
      BucketEnd(st, View(), b, first, cur, now);
    }

    // ---------- process_answer ----------

    /** The walk along the query-id bucket. */
    method FindQuery(abuf: seq<byte>) returns (m: Option<nat>)
      requires WF(View()) && |abuf| >= HFIXEDSZ
      ensures m == EngineOps.FindQuery(View(), abuf)
    {
      var bucket := byQid[QidBucket(Be16(abuf, 0))];
      var i := 0;
      assert bucket[0..] == bucket;
      while i < |bucket|
        invariant 0 <= i <= |bucket|
        invariant FirstMatch(bucket, queries, abuf) == FirstMatch(bucket[i..], queries, abuf)
      {
        hide Answers;
        assert bucket[i..][1..] == bucket[i + 1..];
        if bucket[i] in queries {
          var found := MatchesQuery(queries[bucket[i]], abuf);
          if found { return Some(bucket[i]); }
        }
        i := i + 1;
      }
      m := None;
    }

    method MatchesQuery(q: Query, abuf: seq<byte>) returns (found: bool)
      requires |abuf| >= HFIXEDSZ
      ensures found <==> Answers(q, abuf)
    {
      hide SameQuestions;
      if q.qid != Be16(abuf, 0) || |q.tcpbuf| < 2 { return false; }
      found := CompareQuestions(q.tcpbuf[2..], abuf);
    }

    method ProcessAnswer(abuf: seq<byte>, s: nat, tcp: bool, now: Time)
      requires WF(View()) && s < cfg.nservers
      modifies this
      ensures View() == EngineOps.ProcessAnswer(old(View()), abuf, s, tcp, now) && WF(View())
    {
      hide Engine.NextServer, Engine.SendQuery, Engine.EndQuery, EngineOps.FindQuery, Engine.SkipServer, Answers;
      if |abuf| < HFIXEDSZ { return; }
      var truncated := abuf[2] / 2 % 2 == 1 || |abuf| > PACKETSZ;
      var rcode := abuf[3] % 16;
      var m := FindQuery(abuf);
      if m.None? { return; }
      var id := m.value;
      FoundLive(View(), abuf);
      if truncated && !tcp && !cfg.igntc {
        if !queries[id].usingTcp {
          queries := queries[id := queries[id].(usingTcp := true)];
          SendQuery(id, now);
        }
        return;
      }
      if !cfg.nocheckresp && (rcode == SERVFAIL || rcode == NOTIMP || rcode == REFUSED) {
        SkipServer(id, s);
        if queries[id].server == s {
          NextServer(id, now);
        }
        return;
      }
      EndQuery(id, SUCCESS);
    }

    // ---------- ares_send, ares_cancel, advance_tcp_send_queue ----------

    method Send(qbuf: seq<byte>, now: Time)
      requires WF(View())
      modifies this
      ensures View() == Engine.Send(old(View()), qbuf, now) && WF(View())
    {
      hide *;
      ViewIs();
      ghost var st := View();
      if |qbuf| < HFIXEDSZ || |qbuf| >= 65536 {
        SendRejects(st, qbuf, now);
        log := log + [Rejected(EBADQUERY)];
        ViewIs();
        return;
      }
      AdmitParts(st, qbuf);
      SendAdmits(st, qbuf, now);
      var id := nextId;
      var q := NewQuery(cfg, qbuf, lastServer);
      nextId := nextId + 1;
      if cfg.rotate {
        lastServer := (lastServer + 1) % cfg.nservers;
      }
      all := all + [id];
      var b := QidBucket(q.qid);
      byQid := byQid[b := byQid[b] + [id]];
      queries := queries[id := q];
      ViewIs();
      SendQuery(id, now);
    }

    method Cancel()
      requires Inv(View())
      modifies this
      ensures forall id :: id in old(all) ==> id in old(queries)
      ensures WF(old(View())) && View() == Engine.Cancel(old(View())) && Inv(View())
    {
      ghost var st := View();
      hide *;
      ViewIs();
      InvParts(st);
      AllLive(st);
      CancelIs(st);
      CancelInv(st);
      dangling := true;
      ViewIs();
      while all != []
        invariant WF(View()) && View().all == all && View().queries == queries && View().cfg == cfg
        invariant forall id :: id in all ==> id in queries
        invariant CancelAll(View()) == CancelAll(st.(dangling := true))
        decreases |all|
      {
        ViewIs();
        CancelAllIs(View());
        FreedShorter(all, all[0]);
        var id := all[0];
        FreeAll(View(), id);
        FreeQuery(id, ECANCELLED, 0);
        ViewIs();
      }
      ViewIs();
      CancelAllIs(View());
      if !cfg.stayopen {
        CloseAll();
        ViewIs();
        dangling := st.dangling;
      } else {
        dangling := st.dangling || Owned(st.servers);
      }
      ViewIs();
    }

    /** advance_tcp_send_queue. */
    method AdvanceSendQueue(s: nat, n: nat)
      requires WF(View()) && s < cfg.nservers && servers[s].queue != []
      modifies this`servers
      ensures View() == Wrote(old(View()), s, n)
      ensures Pending(servers[s].queue) ==
        var p := Pending(old(servers[s].queue)); if n <= |p| then p[n..] else []
    {
      ghost var st := View();
      var left: nat := n;
      AdvanceDropsPrefix(st.servers[s].queue, n);
      WroteIs(st, s, n);
      hide *;
      ViewIs();
      AdvancingStart(servers, s, n);
      while left > 0
        invariant Advancing(st.servers, servers, s, n, left)
        decreases if s < |servers| then |servers[s].queue| else 0, left
      {
        AdvancingTurn(st.servers, servers, s, n, left);
        var head := servers[s].queue[0];
        if left >= |head.data| {
          left := left - |head.data|;
          servers := servers[s := servers[s].(queue := servers[s].queue[1..])];
          if servers[s].queue == [] { left := 0; }
        } else {
          servers := servers[s := servers[s].(queue := [head.(data := head.data[left..])] + servers[s].queue[1..])];
          left := 0;
        }
      }
      AdvancingEnd(st.servers, servers, s, n);
      ViewIs();
    }
  }

  /** Bytes have been taken off server s's queue, left of n are still to take. */
  ghost predicate Advancing(was: seq<Server>, cur: seq<Server>, s: nat, n: nat, left: nat) {
    && s < |was| && |cur| == |was| && was[s].queue != []
    && cur == was[s := was[s].(queue := cur[s].queue)]
    && (left > 0 ==> cur[s].queue != [])
    && AdvanceQueue(was[s].queue, n) == AdvanceQueue(cur[s].queue, left)
  }

  lemma AdvancingStart(was: seq<Server>, s: nat, n: nat)
    requires s < |was| && was[s].queue != []
    ensures Advancing(was, was, s, n, n)
  {
    hide AdvanceQueue;
  }

  lemma AdvancingTurn(was: seq<Server>, cur: seq<Server>, s: nat, n: nat, left: nat)
    requires Advancing(was, cur, s, n, left) && left > 0
    ensures s < |cur| && cur[s].queue != []
    ensures var head := cur[s].queue[0];
      var rest := cur[s].queue[1..];
      if left >= |head.data| then
        Advancing(was, cur[s := cur[s].(queue := rest)], s, n, if rest == [] then 0 else left - |head.data|)
      else Advancing(was, cur[s := cur[s].(queue := [head.(data := head.data[left..])] + rest)], s, n, 0)
  {
  }

  lemma AdvancingEnd(was: seq<Server>, cur: seq<Server>, s: nat, n: nat)
    requires Advancing(was, cur, s, n, 0)
    ensures s < |was| && was[s].queue != []
    ensures cur == was[s := was[s].(queue := AdvanceQueue(was[s].queue, n))]
    ensures cur[s].queue == AdvanceQueue(was[s].queue, n)
  {
  }

  lemma WroteIs(st: State, s: nat, n: nat)
    requires WF(st) && s < st.cfg.nservers && st.servers[s].queue != []
    ensures Wrote(st, s, n) == st.(servers := st.servers[s := st.servers[s].(queue := AdvanceQueue(st.servers[s].queue, n))])
  {
    hide AdvanceQueue, WF;
  }

  /** Admit, field by field. */
  lemma AdmitParts(st: State, qbuf: seq<byte>)
    requires WF(st) && HFIXEDSZ <= |qbuf| < 65536
    ensures st.cfg.nservers > 0 && HFIXEDSZ == 12
    ensures var q := NewQuery(st.cfg, qbuf, st.lastServer);
      var b := QidBucket(q.qid);
      && b < |st.byQid|
      && Admit(st, qbuf) ==
           st.(nextId := st.nextId + 1, all := st.all + [st.nextId], byQid := st.byQid[b := st.byQid[b] + [st.nextId]],
               lastServer := if st.cfg.rotate then (st.lastServer + 1) % st.cfg.nservers else st.lastServer,
               queries := st.queries[st.nextId := q])
  {
    hide NewQuery;
  }

  lemma SendRejects(st: State, qbuf: seq<byte>, now: Time)
    requires WF(st) && (|qbuf| < HFIXEDSZ || |qbuf| >= 65536)
    ensures Engine.Send(st, qbuf, now) == st.(log := st.log + [Rejected(EBADQUERY)]) && WF(Engine.Send(st, qbuf, now))
  {
    hide Engine.SendQuery;
  }

  lemma SendAdmits(st: State, qbuf: seq<byte>, now: Time)
    requires WF(st) && HFIXEDSZ <= |qbuf| < 65536
    ensures var a := Admit(st, qbuf);
      WF(a) && st.nextId in a.queries && Engine.Send(st, qbuf, now) == Engine.SendQuery(a, st.nextId, now)
  {
    hide Engine.SendQuery, WF, NewQuery;
  }

  lemma Sizes(st: State)
    requires WF(st)
    ensures |st.servers| == st.cfg.nservers
  {
  }

  lemma HandleErrorIs(st: State, s: nat, now: Time)
    requires Inv(st) && s < st.cfg.nservers && ClockFine(st, now)
    ensures WF(st) && WF(Engine.CloseSockets(st, s))
    ensures var a := EngineOps.Steal(Engine.CloseSockets(st, s), s);
      Draining(a, s) && ClockFine(a, now) && EngineOps.HandleError(st, s, now) == Drain(a, s, now)
  {
    CloseThenSteal(st, s, now);
    hide Inv, Draining, Drain, EngineOps.Steal, Engine.CloseSockets, WF;
  }

  lemma BrokenIs(st: State, s: nat, now: Time)
    requires Inv(st) && s <= st.cfg.nservers && ClockFine(st, now)
    ensures |st.servers| == st.cfg.nservers
    ensures s == st.cfg.nservers ==> BrokenFrom(st, s, now) == st
    ensures s < st.cfg.nservers ==>
      if st.servers[s].broken then
        var a := EngineOps.HandleError(st, s, now);
        Inv(a) && ClockFine(a, now) && a.cfg == st.cfg && BrokenFrom(st, s, now) == BrokenFrom(a, s + 1, now)
      else BrokenFrom(st, s, now) == BrokenFrom(st, s + 1, now)
  {
    InvParts(st);
    Sizes(st);
    if s < st.cfg.nservers { HandleErrorInv(st, s, now); }
    hide Inv, EngineOps.HandleError, ClockFine, WF;
  }

  /** The wheel has been turned from st's last pass up to second t, reaching cur. */
  ghost predicate WheelAt(st: State, cur: State, t: nat, now: Time) {
    && Inv(st) && ClockFine(st, now) && Inv(cur) && ClockFine(cur, now)
    && WheelFrom(cur, t, now) == WheelFrom(st, st.lastTimeout, now)
  }

  lemma WheelStart(st: State, now: Time)
    requires Inv(st) && ClockFine(st, now)
    ensures WheelAt(st, st, st.lastTimeout, now)
  {
    hide Inv, ClockFine, WheelFrom;
  }

  lemma TimeoutsIs(st: State, now: Time)
    requires Inv(st) && ClockFine(st, now)
    ensures EngineTimers.ProcessTimeouts(st, now) == WheelFrom(st, st.lastTimeout, now).(lastTimeout := now.sec)
  {
    hide Inv, ClockFine, WheelFrom;
  }

  lemma WheelTurn(st: State, cur: State, t: nat, now: Time)
    requires WheelAt(st, cur, t, now) && t <= now.sec
    ensures Inv(cur) && ClockFine(cur, now) && TIMEOUT_TABLE == |cur.byTimeout|
    ensures var b := TimeoutBucket(Time(t, 0));
      WheelAt(st, Walk(cur, b, if cur.byTimeout[b] == [] then None else Some(0), now), t + 1, now)
  {
    BucketLive(cur, t % TIMEOUT_TABLE);
    WalkKeeps(cur, t % TIMEOUT_TABLE, now);
    hide Inv, Walk, Walked, ClockFine;
  }

  lemma WheelEnd(st: State, cur: State, t: nat, now: Time)
    requires WheelAt(st, cur, t, now) && t > now.sec
    ensures cur == WheelFrom(st, st.lastTimeout, now)
  {
    hide Inv, ClockFine;
  }

  ghost function Remaining(st: State, b: nat, i: nat): nat {
    if b < |st.byTimeout| && i < |st.byTimeout[b]| then |st.byTimeout[b]| - i else 0
  }

  /** The walk along bucket b has come from st to cur and stands at node c. */
  ghost predicate BucketAt(st: State, cur: State, b: nat, first: Option<nat>, c: Option<nat>, now: Time) {
    && Inv(st) && ClockFine(st, now) && b < TIMEOUT_TABLE == |st.byTimeout| && (first.Some? ==> first.value < |st.byTimeout[b]|)
    && Inv(cur) && ClockFine(cur, now) && |cur.byTimeout| == TIMEOUT_TABLE && (c.Some? ==> c.value < |cur.byTimeout[b]|)
    && Walk(cur, b, c, now) == Walk(st, b, first, now)
  }

  lemma BucketStart(st: State, b: nat, c: Option<nat>, now: Time)
    requires Inv(st) && ClockFine(st, now) && b < TIMEOUT_TABLE == |st.byTimeout| && (c.Some? ==> c.value < |st.byTimeout[b]|)
    ensures BucketAt(st, st, b, c, c, now)
  {
    hide Inv, ClockFine, Walk;
  }

  lemma BucketTurn(st: State, cur: State, b: nat, first: Option<nat>, i: nat, now: Time)
    requires BucketAt(st, cur, b, first, Some(i), now)
    ensures b < |cur.byTimeout| && i < |cur.byTimeout[b]| && WF(cur)
    ensures var id := cur.byTimeout[b][i];
      var more := i + 1 < |cur.byTimeout[b]|;
      && id in cur.queries
      && (if cur.queries[id].timeout.sec != 0 && TimedOut(now, cur.queries[id].timeout) then
            var a := EngineTimers.Expire(cur, id, now);
            && BucketAt(st, a, b, first, if more then Some(i) else None, now)
            && Budget(a.all, a.queries, Limit(a.cfg)) < Budget(cur.all, cur.queries, Limit(cur.cfg))
          else
            && BucketAt(st, cur, b, first, if more then Some(i + 1) else None, now)
            && (more ==> Remaining(cur, b, i + 1) < Remaining(cur, b, i)))
  {
    hide *;
    BucketParts(st, cur, b, first, Some(i), now);
    WalkIs(cur, b, Some(i), now);
    DueIs(now, cur.queries[cur.byTimeout[b][i]]);
    var id := cur.byTimeout[b][i];
    var more := i + 1 < |cur.byTimeout[b]|;
    if Due(now, cur.queries[id]) {
      BucketMake(st, cur, EngineTimers.Expire(cur, id, now), b, first, Some(i), if more then Some(i) else None, now);
    } else {
      BucketMake(st, cur, cur, b, first, Some(i), if more then Some(i + 1) else None, now);
      if more { RemainingLess(cur, b, i); }
    }
  }

  lemma BucketParts(st: State, cur: State, b: nat, first: Option<nat>, c: Option<nat>, now: Time)
    requires BucketAt(st, cur, b, first, c, now)
    ensures Inv(cur) && ClockFine(cur, now) && b < TIMEOUT_TABLE == |cur.byTimeout| && (c.Some? ==> c.value < |cur.byTimeout[b]|)
  {
    hide Inv, ClockFine, Walk;
  }

  lemma DueIs(now: Time, q: Query)
    ensures Due(now, q) == (q.timeout.sec != 0 && TimedOut(now, q.timeout))
  {
    hide TimedOut;
  }

  lemma RemainingLess(st: State, b: nat, i: nat)
    requires b < |st.byTimeout| && i + 1 < |st.byTimeout[b]|
    ensures Remaining(st, b, i + 1) < Remaining(st, b, i)
  {
  }

  /** One turn of the walk: from cur at node c to a at node d. */
  lemma BucketMake(st: State, cur: State, a: State, b: nat, first: Option<nat>, c: Option<nat>, d: Option<nat>, now: Time)
    requires BucketAt(st, cur, b, first, c, now) && b < TIMEOUT_TABLE == |cur.byTimeout|
    requires c.Some? ==> c.value < |cur.byTimeout[b]|
    requires Inv(cur) && ClockFine(cur, now)
    requires Inv(a) && ClockFine(a, now) && |a.byTimeout| == TIMEOUT_TABLE && (d.Some? ==> d.value < |a.byTimeout[b]|)
    requires Walk(cur, b, c, now) == Walk(a, b, d, now)
    ensures BucketAt(st, a, b, first, d, now)
  {
    hide Inv, ClockFine, Walk;
  }

  lemma BucketEnd(st: State, cur: State, b: nat, first: Option<nat>, c: Option<nat>, now: Time)
    requires BucketAt(st, cur, b, first, c, now) && c.None?
    ensures cur == Walk(st, b, first, now)
  {
    hide Inv, ClockFine;
  }

  lemma FoundLive(st: State, abuf: seq<byte>)
    requires WF(st) && |abuf| >= HFIXEDSZ
    ensures var m := EngineOps.FindQuery(st, abuf); m.Some? ==> m.value in st.queries
  {
    MatchFound(st.byQid[QidBucket(Be16(abuf, 0))], st.queries, abuf);
  }

  lemma FreeAll(st: State, id: nat)
    requires WF(st) && id in st.queries
    ensures Engine.FreeQuery(st, id, ECANCELLED, 0).all == Without(st.all, id)
  {
  }

  ghost function OneMore(st: State, id: nat): State
    requires id in st.queries
  {
    st.(queries := st.queries[id := st.queries[id].(tryCount := st.queries[id].tryCount + 1)])
  }

  ghost function Rotated(st: State, id: nat): State
    requires id in st.queries && st.cfg.nservers > 0
  {
    var q := st.queries[id];
    var s := (q.server + 1) % st.cfg.nservers;
    st.(queries := st.queries[id := q.(server := s, considered := q.considered + [s])])
  }

  ghost predicate GoodServer(st: State, id: nat)
    requires id in st.queries && st.queries[id].server < |st.servers| && st.queries[id].server < |st.queries[id].info|
  {
    var q := st.queries[id];
    var v := st.servers[q.server];
    !v.broken && !q.info[q.server].skip && !(q.usingTcp && q.info[q.server].generation == v.generation)
  }

  /** next_server has counted one more attempt in cur than in prev, and prev leads where st leads. */
  ghost predicate Counting(st: State, prev: State, cur: State, id: nat, now: Time) {
    && WF(st) && id in st.queries && WF(prev) && id in prev.queries && prev.cfg == st.cfg
    && cur == OneMore(prev, id)
    && Engine.NextServer(prev, id, now) == Engine.NextServer(st, id, now)
    && AttemptsLeft(prev, id) <= AttemptsLeft(st, id)
  }

  lemma CountingStart(st: State, id: nat, now: Time)
    requires WF(st) && id in st.queries
    ensures Counting(st, st, OneMore(st, id), id, now) && id in OneMore(st, id).queries && OneMore(st, id).cfg == st.cfg
  {
    hide Engine.NextServer, Limit, WF;
  }

  lemma OneMoreRotated(prev: State, id: nat)
    requires WF(prev) && id in prev.queries
    ensures id in OneMore(prev, id).queries && Rotated(OneMore(prev, id), id) == Advance(prev, id)
    ensures Eligible(Advance(prev, id), id) == GoodServer(Advance(prev, id), id)
  {
    TwoUpdates(prev.queries, id, OneMore(prev, id).queries[id], Advance(prev, id).queries[id]);
  }

  lemma CountingTurn(st: State, prev: State, cur: State, id: nat, now: Time)
    requires Counting(st, prev, cur, id, now) && id in cur.queries
    requires cur.queries[id].tryCount < st.cfg.nservers * st.cfg.tries
    ensures |cur.servers| == cur.cfg.nservers > 0 && |cur.queries[id].info| == cur.cfg.nservers
    ensures var a := Rotated(cur, id);
      && WF(a) && id in a.queries && a.cfg == st.cfg && AttemptsLeft(a, id) < AttemptsLeft(st, id)
      && (GoodServer(a, id) ==> Engine.NextServer(st, id, now) == Engine.SendQuery(a, id, now))
      && (!GoodServer(a, id) ==> Counting(st, a, OneMore(a, id), id, now))
      && id in OneMore(a, id).queries && OneMore(a, id).cfg == st.cfg
      && OneMore(a, id).queries[id].tryCount > cur.queries[id].tryCount
  {
    OneMoreRotated(prev, id);
    NextServerIs(prev, id, now);
    AdvanceLeft(prev, id);
    hide Engine.NextServer, Engine.SendQuery, Eligible, GoodServer, Rotated, Advance, Exhaust, AttemptsLeft;
  }

  lemma AdvanceLeft(prev: State, id: nat)
    requires WF(prev) && id in prev.queries
    ensures var a := Advance(prev, id);
      && id in a.queries && a.cfg == prev.cfg && a.queries[id].tryCount == prev.queries[id].tryCount + 1
      && (prev.queries[id].tryCount < Limit(prev.cfg) ==> AttemptsLeft(a, id) < AttemptsLeft(prev, id))
  {
    hide Limit;
  }

  lemma CountingEnd(st: State, prev: State, cur: State, id: nat, now: Time)
    requires Counting(st, prev, cur, id, now) && id in cur.queries
    requires cur.queries[id].tryCount >= st.cfg.nservers * st.cfg.tries
    ensures WF(cur) && Engine.NextServer(st, id, now) == Engine.EndQuery(cur, id, cur.queries[id].errorStatus)
  {
    NextServerIs(prev, id, now);
    ExhaustIs(prev, id);
    hide Engine.NextServer, Engine.SendQuery, Engine.EndQuery, Exhaust;
  }

  /** The branches of ares__send_query. */
  lemma SendCases(st: State, id: nat, now: Time)
    requires WF(st) && id in st.queries
    ensures Env(st) == st.cfg.env(st.step)
    ensures var c := Env(st);
      var a := st.(step := st.step + 1);
      var q := st.queries[id];
      var s := q.server;
      && s < |st.servers| && |st.servers| == st.cfg.nservers && WF(a)
      && var v := st.servers[s];
         && AttemptsLeft(Engine.SkipServer(a, id, s), id) == AttemptsLeft(st, id)
         && AttemptsLeft(Engine.SkipServer(Engine.OpenUdp(a, s), id, s), id) == AttemptsLeft(st, id)
         && Engine.SendQuery(st, id, now) ==
              if q.usingTcp then
                if !v.tcpOpen && !c.opens then Engine.NextServer(Engine.SkipServer(a, id, s), id, now)
                else if !c.allocates then Engine.EndQuery(Engine.OpenTcp(a, s), id, ENOMEM)
                else Engine.Arm(Stamp(QueueRequest(Engine.OpenTcp(a, s), id), id), id, now, c.jitter)
              else
                if !v.udpOpen && !c.opens then Engine.NextServer(Engine.SkipServer(a, id, s), id, now)
                else if !c.writes then Engine.NextServer(Engine.SkipServer(Engine.OpenUdp(a, s), id, s), id, now)
                else Engine.Arm(Engine.OpenUdp(a, s), id, now, c.jitter)
  {
    SendQueryIs(st, id, now);
    SameLeft(st.(step := st.step + 1), id, st.queries[id].server);
    SameLeft(Engine.OpenUdp(st.(step := st.step + 1), st.queries[id].server), id, st.queries[id].server);
    hide Engine.NextServer, Engine.SkipServer, Engine.OpenTcp, Engine.Arm, Engine.EndQuery, Engine.SendQuery, Stamp, QueueRequest,
      Limit;
  }

  lemma SameLeft(a: State, id: nat, s: nat)
    requires WF(a) && id in a.queries && s < a.cfg.nservers
    ensures id in Engine.SkipServer(a, id, s).queries
    ensures AttemptsLeft(Engine.SkipServer(a, id, s), id) == AttemptsLeft(a, id)
  {
    hide Limit;
  }

  lemma ExhaustIs(st: State, id: nat)
    requires WF(st) && id in st.queries
    ensures var q := st.queries[id];
      var a := SetQuery(st, id, q.(tryCount := q.tryCount + 1));
      WF(a) && id in a.queries && Exhaust(st, id) == Engine.EndQuery(a, id, q.errorStatus)
  {
    hide Engine.EndQuery;
  }
}
