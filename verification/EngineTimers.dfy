/** process_timeouts: the timer wheel, walked bucket by bucket, does what a scan of all deadlines
    would do (ares_process.c). */
module EngineTimers {
  import opened Seqs
  import opened Clock
  import opened Engine
  import opened EngineInv
  import opened EngineSteps
  import opened EngineOps
  import opened EngineApi

  ghost predicate Due(now: Time, q: Query) { q.timeout.sec != 0 && TimedOut(now, q.timeout) }

  /** Note the timeout in the query. */
  ghost function NoteTimeout(st: State, id: nat): (r: State)
    requires WF(st) && id in st.queries
    ensures WF(r)
  {
    var q := st.queries[id];
    SetQuery(st, id, q.(errorStatus := ETIMEOUT, timeouts := q.timeouts + 1))
  }

  ghost function Expire(st: State, id: nat, now: Time): (r: State)
    requires WF(st) && id in st.queries
    ensures WF(r)
  {
    NextServer(NoteTimeout(st, id), id, now)
  }

  /** Attempts that all live queries together still have. */
  ghost function Budget(ids: seq<nat>, queries: map<nat, Query>, limit: nat): nat {
    if ids == [] then 0
    else
      var id := ids[|ids| - 1];
      Budget(ids[..|ids| - 1], queries, limit) + Left(queries, limit, id)
  }

  ghost function Left(queries: map<nat, Query>, limit: nat, id: nat): nat {
    if id in queries && queries[id].tryCount < limit then limit - queries[id].tryCount else 0
  }

  lemma {:induction false} BudgetSame(ids: seq<nat>, p: map<nat, Query>, q: map<nat, Query>, limit: nat)
    requires forall id :: id in ids ==> (id in p <==> id in q)
    requires forall id :: id in ids && id in p ==> q[id] == p[id]
    ensures Budget(ids, p, limit) == Budget(ids, q, limit)
  {
    if ids != [] {
      var front := ids[..|ids| - 1];
      assert ids[|ids| - 1] in ids && forall id :: id in front ==> id in ids;
      BudgetSame(front, p, q, limit);
    }
  }

  lemma {:induction false} BudgetConcat(a: seq<nat>, b: seq<nat>, queries: map<nat, Query>, limit: nat)
    ensures Budget(a + b, queries, limit) == Budget(a, queries, limit) + Budget(b, queries, limit)
  {
    hide Left;
    if b == [] {
      assert a + b == a;
    } else {
      assert (a + b)[..|a + b| - 1] == a + b[..|b| - 1];
      BudgetConcat(a, b[..|b| - 1], queries, limit);
    }
  }

  lemma WithoutAt(list: seq<nat>, i: nat)
    requires NoDup(list) && i < |list|
    ensures Without(list, list[i]) == list[..i] + list[i + 1..]
  {
    var x, front, back := list[i], list[..i], list[i + 1..];
    assert list == (front + [x]) + back;
    WithoutConcat(front + [x], back, x);
    WithoutConcat(front, [x], x);
    assert Without([x], x) == [];
    assert front + [] == front;
    WithoutAbsent(front, x);
    WithoutAbsent(back, x);
  }

  lemma BudgetAround(a: seq<nat>, id: nat, b: seq<nat>, queries: map<nat, Query>, limit: nat)
    ensures Budget(a + [id] + b, queries, limit) == Budget(a + b, queries, limit) + Left(queries, limit, id)
  {
    hide Left;
    BudgetConcat(a + [id], b, queries, limit);
    BudgetConcat(a, [id], queries, limit);
    BudgetConcat(a, b, queries, limit);
    assert [id][..0] == [];
  }

  /** Moving one query on, or ending it, uses up budget. */
  lemma BudgetDrops(ids: seq<nat>, p: map<nat, Query>, q: map<nat, Query>, limit: nat, id: nat)
    requires NoDup(ids) && id in ids && id in p && p[id].tryCount < limit
    requires forall j :: j in ids && j != id ==> (j in p <==> j in q)
    requires forall j :: j in ids && j != id && j in p ==> q[j] == p[j]
    ensures id in q && q[id].tryCount > p[id].tryCount ==> Budget(ids, q, limit) < Budget(ids, p, limit)
    ensures id !in q ==> Budget(Without(ids, id), q, limit) < Budget(ids, p, limit)
  {
    var i :| 0 <= i < |ids| && ids[i] == id;
    var a, b := ids[..i], ids[i + 1..];
    assert ids == a + [id] + b;
    assert forall j :: j in a + b ==> j in ids && j != id;
    hide Budget, NoDup, Ascending, Without;
    WithoutAt(ids, i);
    BudgetSame(a + b, p, q, limit);
    BudgetAround(a, id, b, p, limit);
    BudgetAround(a, id, b, q, limit);
  }

  // ---------- one expiry ----------

  lemma NoteIs(st: State, id: nat)
    requires WF(st) && id in st.queries && Sane(st, id)
    ensures var r := NoteTimeout(st, id);
      var q := st.queries[id];
      && id in r.queries && r.queries[id] == q.(errorStatus := ETIMEOUT, timeouts := q.timeouts + 1) && Same(st, r, id)
      && Sane(r, id) && r.cfg == st.cfg
      && (Spent(st, id, q.tryCount + 1) ==> Spent(r, id, q.tryCount + 1))
  {
    hide Limit, Sends, Waits, WaitCap;
  }

  lemma NoteCore(st: State, id: nat)
    requires Core(st, None) && id in st.queries
    ensures WF(st) && Core(NoteTimeout(st, id), Some(id))
  {
    hide *;
    RestParts(st, id);
    Depart(st, id);
    NoteIs(st, id);
    NoteSet(st, id);
    var q := st.queries[id];
    SetQueryCore(st, id, q.(errorStatus := ETIMEOUT, timeouts := q.timeouts + 1));
  }

  lemma NoteSet(st: State, id: nat)
    requires WF(st) && id in st.queries
    ensures var q := st.queries[id];
      var p := q.(errorStatus := ETIMEOUT, timeouts := q.timeouts + 1);
      && NoteTimeout(st, id) == SetQuery(st, id, p)
      && p.qid == q.qid && p.tcpbuf == q.tcpbuf
      && forall s :: 0 <= s < st.cfg.nservers ==> p.info[s].generation >= q.info[s].generation
  {
  }

  /** Later than now, so that this pass of the wheel will not take the query again; with a base
      timeout of one millisecond or less a new deadline may be now itself. */
  ghost predicate Later(cfg: Config, now: Time, t: Time) {
    if cfg.timeout >= 2 then !TimedOut(now, t) else t == now || !TimedOut(now, t)
  }

  /** What the expiry of one query does. */
  ghost predicate Expired(st: State, r: State, id: nat, now: Time) {
    && Inv(r) && Moved(st, r, id) && id in st.queries && st.log < r.log
    && (if id in r.queries
        then r.queries[id].timeouts == st.queries[id].timeouts + 1
             && r.queries[id].tryCount > st.queries[id].tryCount
             && (st.clockOk ==> Later(st.cfg, now, r.queries[id].timeout))
        else var e := r.log[|r.log| - 1]; e.Done? && e.id == id && e.timeouts == st.queries[id].timeouts + 1)
  }

  lemma ExpireInv(st: State, id: nat, now: Time)
    requires Inv(st) && id in st.queries && ClockFine(st, now)
    ensures WF(st) && Expired(st, Expire(st, id, now), id, now)
    ensures var r := Expire(st, id, now);
      Budget(r.all, r.queries, Limit(r.cfg)) < Budget(st.all, st.queries, Limit(st.cfg))
  {
    hide *;
    InvParts(st);
    RestParts(st, id);
    var a := NoteTimeout(st, id);
    NoteCore(st, id);
    NoteIs(st, id);
    ExpireIs(st, id, now);
    SameClock(st, a, id, now);
    NextServerCore(a, id, now);
    var r := NextServer(a, id, now);
    SettledParts(a, r, id, now);
    SameThenMoved(st, a, r, id);
    MovedTouches(st, r, id);
    BackToInv(st, r, id);
    ExpireBudget(st, r, id);
    LaterDeadline(st, a, r, id, now);
  }

  lemma ExpireIs(st: State, id: nat, now: Time)
    requires WF(st) && id in st.queries
    ensures id in NoteTimeout(st, id).queries && Expire(st, id, now) == NextServer(NoteTimeout(st, id), id, now)
  {
    hide NextServer;
  }

  lemma ExpireBudget(st: State, r: State, id: nat)
    requires Core(st, None) && Moved(st, r, id) && id in st.queries
    requires id in r.queries ==> r.queries[id].tryCount > st.queries[id].tryCount
    ensures Budget(r.all, r.queries, Limit(r.cfg)) < Budget(st.all, st.queries, Limit(st.cfg))
  {
    RestParts(st, id);
    assert NoDup(st.all);
    hide Core, Limit, Sane, AtRest, Spent;
    BudgetDrops(st.all, st.queries, r.queries, Limit(st.cfg), id);
  }

  lemma LaterDeadline(st: State, a: State, r: State, id: nat, now: Time)
    requires Same(st, a, id) && a.queries[id].timeouts == st.queries[id].timeouts + 1
    requires id in r.queries ==> r.queries[id].tryCount > st.queries[id].tryCount
    requires Inv(r) && Moved(st, r, id) && Outcome(a, r, id, now) && ClockFine(st, now) && a.cfg == st.cfg
    ensures Expired(st, r, id, now)
  {
    hide Inv, Core, TimeAdd, TimedOut, Moved;
    var e := r.log[|r.log| - 1];
    if id in r.queries && st.clockOk { DeadlineLater(now, e.wait); }
  }

  lemma DeadlineLater(now: Time, ms: nat)
    requires now.Normal()
    ensures ms >= 1 ==> !TimedOut(now, TimeAdd(now, ms))
    ensures ms == 0 ==> TimeAdd(now, ms) == now
  {
  }

  // ---------- one bucket ----------

  /** Walk on along bucket b from the node at index cur. The C code reads the next node before it
      handles the current one: after an expiry that node has moved up to the current index, and if
      there was none the walk stops even when the expired query has been appended again. */
  ghost function Walk(st: State, b: nat, cur: Option<nat>, now: Time): (r: State)
    requires Inv(st) && ClockFine(st, now) && b < TIMEOUT_TABLE
    requires cur.Some? ==> cur.value < |st.byTimeout[b]|
    decreases Budget(st.all, st.queries, Limit(st.cfg)), if cur.Some? then |st.byTimeout[b]| - cur.value else 0
  {
    match cur
    case None => st
    case Some(i) =>
      WalkTurn(st, b, i, now);
      var id := st.byTimeout[b][i];
      var more := i + 1 < |st.byTimeout[b]|;
      if Due(now, st.queries[id]) then Walk(Expire(st, id, now), b, if more then Some(i) else None, now)
      else Walk(st, b, if more then Some(i + 1) else None, now)
  }

  lemma WalkTurn(st: State, b: nat, i: nat, now: Time)
    requires Inv(st) && ClockFine(st, now) && b < TIMEOUT_TABLE && |st.byTimeout| == TIMEOUT_TABLE && i < |st.byTimeout[b]|
    ensures var id := st.byTimeout[b][i];
      && WF(st) && id in st.queries
      && var r := Expire(st, id, now);
         && Expired(st, r, id, now) && ClockFine(r, now) && Inv(r)
         && Budget(r.all, r.queries, Limit(r.cfg)) < Budget(st.all, st.queries, Limit(st.cfg))
         && |r.byTimeout| == TIMEOUT_TABLE && |r.byTimeout[b]| >= |st.byTimeout[b]| - 1
  {
    var id := st.byTimeout[b][i];
    assert id in st.byTimeout[b];
    ExpireInv(st, id, now);
    var r := Expire(st, id, now);
    BucketShape(st, r, b, i);
  }

  /** After the node at index i has expired, the nodes before it are where they were, those after it
      have moved up by one, and at most the node itself follows. */
  lemma BucketShape(st: State, r: State, b: nat, i: nat)
    requires Inv(st) && b < TIMEOUT_TABLE && i < |st.byTimeout[b]| && Moved(st, r, st.byTimeout[b][i])
    ensures var list := st.byTimeout[b];
      var rest := list[..i] + list[i + 1..];
      |r.byTimeout| == |st.byTimeout| && (r.byTimeout[b] == rest || r.byTimeout[b] == rest + [list[i]])
  {
    var id := st.byTimeout[b][i];
    assert NoDup(st.byTimeout[b]) && Relisted(st.byTimeout[b], r.byTimeout[b], id);
    hide Inv, Moved, Without;
    WithoutAt(st.byTimeout[b], i);
  }

  // ---------- what a walk achieves ----------

  /** Between st and r every live query is untouched, or was due and has been expired exactly once:
      moved on with one more timeout counted and a later deadline, or ended with that count. */
  ghost predicate Ticked(st: State, r: State, now: Time) {
    && Kept(st, r) && st.log <= r.log
    && (forall id :: id in st.queries ==>
         || (id in r.queries && r.queries[id] == st.queries[id])
         || (Due(now, st.queries[id]) && ExpiredOnce(st.queries[id], r, id, now, |st.log|)))
  }

  ghost predicate ExpiredOnce(q: Query, r: State, id: nat, now: Time, from: nat) {
    if id in r.queries then
      && r.queries[id].timeouts == q.timeouts + 1 && r.queries[id].tryCount > q.tryCount
      && Later(r.cfg, now, r.queries[id].timeout)
    else exists i :: from <= i < |r.log| && r.log[i].Done? && r.log[i].id == id && r.log[i].timeouts == q.timeouts + 1
  }

  lemma TickedSelf(st: State, now: Time)
    ensures Ticked(st, st, now)
  {
  }

  /** One more expiry of a query that has not been touched yet. */
  lemma TickedTurn(st: State, a: State, r: State, id: nat, now: Time)
    requires Ticked(st, a, now) && Expired(a, r, id, now) && a.clockOk
    requires id in a.queries && id in st.queries && a.queries[id] == st.queries[id] && Due(now, st.queries[id])
    ensures Ticked(st, r, now)
  {
    hide Inv, Later, Due;
    KeptMoved(a, r, id);
    KeptTrans(st, a, r);
    forall j | j in st.queries
      ensures (j in r.queries && r.queries[j] == st.queries[j]) ||
              (Due(now, st.queries[j]) && ExpiredOnce(st.queries[j], r, j, now, |st.log|))
    {
      if j == id {
        if id !in r.queries { assert r.log[|r.log| - 1].Done?; }
      } else if j !in a.queries {
        var i :| |st.log| <= i < |a.log| && a.log[i].Done? && a.log[i].id == j && a.log[i].timeouts == st.queries[j].timeouts + 1;
        assert r.log[i] == a.log[i];
      }
    }
  }

  /** The first n queries of bucket b need not be looked at again in this pass. */
  ghost predicate SweptTo(st: State, b: nat, n: nat, now: Time) {
    && b < |st.byTimeout| && n <= |st.byTimeout[b]|
    && (forall j :: 0 <= j < n ==>
         st.byTimeout[b][j] in st.queries && Later(st.cfg, now, st.queries[st.byTimeout[b][j]].timeout))
  }

  ghost function Position(st: State, b: nat, cur: Option<nat>): nat
    requires b < |st.byTimeout|
  {
    if cur.Some? then cur.value else |st.byTimeout[b]|
  }

  /** Every live query of r is as in st or has a deadline set in this pass. */
  ghost predicate Renewed(st: State, r: State, now: Time) {
    forall id :: id in r.queries ==>
      (id in st.queries && r.queries[id] == st.queries[id]) || Later(r.cfg, now, r.queries[id].timeout)
  }

  lemma ExpiredParts(st: State, r: State, id: nat, now: Time)
    requires Expired(st, r, id, now) && st.clockOk
    ensures r.cfg == st.cfg && r.clockOk && Moved(st, r, id) && Inv(r)
    ensures id in r.queries ==> Later(r.cfg, now, r.queries[id].timeout)
    ensures forall j :: j != id && j in st.queries ==> j in r.queries && r.queries[j] == st.queries[j]
    ensures forall j :: j != id && j in r.queries ==> j in st.queries
  {
    hide Inv, Later;
  }

  /** The list of a bucket before and after the node at i has expired. */
  lemma SweptPrefix(list: seq<nat>, after: seq<nat>, i: nat, p: map<nat, Query>, q: map<nat, Query>, cfg: Config, now: Time)
    requires NoDup(list) && i < |list|
    requires after == list[..i] + list[i + 1..] || after == list[..i] + list[i + 1..] + [list[i]]
    requires forall j :: 0 <= j < i ==> list[j] in p && Later(cfg, now, p[list[j]].timeout)
    requires forall j :: j != list[i] && j in p ==> j in q && q[j] == p[j]
    requires forall j :: 0 <= j < |after| ==> after[j] in q
    requires list[i] in q ==> Later(cfg, now, q[list[i]].timeout)
    ensures var n := if i + 1 < |list| then i else |after|;
      n <= |after| && forall j :: 0 <= j < n ==> after[j] in q && Later(cfg, now, q[after[j]].timeout)
  {
    hide Later;
    var n := if i + 1 < |list| then i else |after|;
    forall j | 0 <= j < n ensures after[j] in q && Later(cfg, now, q[after[j]].timeout) {
      if j < i {
        assert after[j] == list[j] && list[j] != list[i];
      } else {
        assert after[j] == list[i];
      }
    }
  }

  lemma RenewedOnce(st: State, r: State, id: nat, now: Time)
    requires Expired(st, r, id, now) && st.clockOk
    ensures Renewed(st, r, now) && r.cfg == st.cfg && r.clockOk
  {
    hide Later, Inv, Expired, Moved;
    ExpiredParts(st, r, id, now);
  }

  lemma SweptIs(st: State, b: nat, n: nat, now: Time)
    requires b < |st.byTimeout|
    ensures SweptTo(st, b, n, now) <==> n <= |st.byTimeout[b]| && forall j :: 0 <= j < n ==>
      st.byTimeout[b][j] in st.queries && Later(st.cfg, now, st.queries[st.byTimeout[b][j]].timeout)
  {
    hide Later;
  }

  lemma SweptExpired(st: State, r: State, b: nat, i: nat, now: Time)
    requires Inv(st) && st.clockOk && b < TIMEOUT_TABLE && |st.byTimeout| == TIMEOUT_TABLE && i < |st.byTimeout[b]|
    requires Expired(st, r, st.byTimeout[b][i], now) && SweptTo(st, b, i, now)
    ensures SweptTo(r, b, if i + 1 < |st.byTimeout[b]| then i else |r.byTimeout[b]|, now)
  {
    hide *;
    var list := st.byTimeout[b];
    BucketDistinct(st, b);
    ExpiredParts(st, r, list[i], now);
    BucketShape(st, r, b, i);
    BucketLive(r, b);
    SweptIs(st, b, i, now);
    SweptPrefix(list, r.byTimeout[b], i, st.queries, r.queries, st.cfg, now);
    SweptIs(r, b, if i + 1 < |list| then i else |r.byTimeout[b]|, now);
  }

  lemma BucketDistinct(st: State, b: nat)
    requires Inv(st) && b < TIMEOUT_TABLE
    ensures |st.byTimeout| == TIMEOUT_TABLE && NoDup(st.byTimeout[b])
  {
  }

  lemma BucketLive(r: State, b: nat)
    requires Inv(r) && b < TIMEOUT_TABLE
    ensures |r.byTimeout| == TIMEOUT_TABLE
    ensures forall j :: 0 <= j < |r.byTimeout[b]| ==> r.byTimeout[b][j] in r.queries
  {
    forall j | 0 <= j < |r.byTimeout[b]| ensures r.byTimeout[b][j] in r.queries {
      assert r.byTimeout[b][j] in r.byTimeout[b];
    }
  }

  lemma SweptSpared(st: State, b: nat, i: nat, now: Time)
    requires Inv(st) && st.clockOk && b < TIMEOUT_TABLE && |st.byTimeout| == TIMEOUT_TABLE && i < |st.byTimeout[b]|
    requires st.byTimeout[b][i] in st.queries && !Due(now, st.queries[st.byTimeout[b][i]]) && SweptTo(st, b, i, now)
    ensures SweptTo(st, b, i + 1, now)
  {
    RestParts(st, st.byTimeout[b][i]);
    hide Core, QuietOk, Sane, Spent, Limit;
  }

  lemma WalkEnd(st: State, b: nat, now: Time)
    requires Inv(st) && ClockFine(st, now) && b < TIMEOUT_TABLE
    ensures Walk(st, b, None, now) == st
  {
  }

  lemma WalkOn(st: State, b: nat, i: nat, now: Time)
    requires Inv(st) && ClockFine(st, now) && b < TIMEOUT_TABLE && |st.byTimeout| == TIMEOUT_TABLE && i < |st.byTimeout[b]|
    ensures WF(st) && st.byTimeout[b][i] in st.queries
    ensures var r := Expire(st, st.byTimeout[b][i], now);
      Inv(r) && ClockFine(r, now) && |r.byTimeout| == TIMEOUT_TABLE && |r.byTimeout[b]| >= |st.byTimeout[b]| - 1
    ensures var id := st.byTimeout[b][i];
      var more := i + 1 < |st.byTimeout[b]|;
      Walk(st, b, Some(i), now) ==
        if Due(now, st.queries[id]) then Walk(Expire(st, id, now), b, if more then Some(i) else None, now)
        else Walk(st, b, if more then Some(i + 1) else None, now)
  {
    hide Inv, Expire, Budget, Expired, ClockFine, Due, WF, Limit;
    InvParts(st);
    WalkTurn(st, b, i, now);
  }

  lemma WalkIs(st: State, b: nat, cur: Option<nat>, now: Time)
    requires Inv(st) && ClockFine(st, now) && b < TIMEOUT_TABLE && |st.byTimeout| == TIMEOUT_TABLE
    requires cur.Some? ==> cur.value < |st.byTimeout[b]|
    ensures WF(st)
    ensures cur.None? ==> Walk(st, b, cur, now) == st
    ensures cur.Some? ==>
      var i := cur.value;
      var id := st.byTimeout[b][i];
      var more := i + 1 < |st.byTimeout[b]|;
      var r := Expire(st, id, now);
      && id in st.queries && Inv(r) && ClockFine(r, now) && |r.byTimeout| == TIMEOUT_TABLE && Expired(st, r, id, now)
      && (more ==> i < |r.byTimeout[b]|)
      && Budget(r.all, r.queries, Limit(r.cfg)) < Budget(st.all, st.queries, Limit(st.cfg))
      && Walk(st, b, cur, now) ==
           if Due(now, st.queries[id]) then Walk(r, b, if more then Some(i) else None, now)
           else Walk(st, b, if more then Some(i + 1) else None, now)
  {
    hide *;
    InvParts(st);
    if cur.Some? {
      WalkTurn(st, b, cur.value, now);
      WalkOn(st, b, cur.value, now);
    } else {
      WalkEnd(st, b, now);
    }
  }

  /** What a walk achieves: the invariant, and nothing in the bucket still overdue. */
  ghost predicate Walked(st: State, r: State, b: nat, now: Time) {
    && Inv(r) && ClockFine(r, now) && Kept(st, r) && r.cfg == st.cfg && r.clockOk == st.clockOk
    && b < |r.byTimeout| == TIMEOUT_TABLE
    && (st.clockOk ==> SweptTo(r, b, |r.byTimeout[b]|, now) && Renewed(st, r, now))
  }

  lemma WalkedDone(st: State, b: nat, now: Time)
    requires Inv(st) && ClockFine(st, now) && b < |st.byTimeout| == TIMEOUT_TABLE
    requires st.clockOk ==> SweptTo(st, b, |st.byTimeout[b]|, now)
    ensures Walked(st, st, b, now)
  {
    hide Inv, SweptTo;
    RenewedSelf(st, now);
  }

  lemma WalkedTrans(st: State, a: State, r: State, b: nat, now: Time)
    requires Kept(st, a) && a.cfg == st.cfg && a.clockOk == st.clockOk && (st.clockOk ==> Renewed(st, a, now))
    requires Walked(a, r, b, now)
    ensures Walked(st, r, b, now)
  {
    hide Inv, ClockFine, SweptTo, Renewed, Kept;
    KeptTrans(st, a, r);
    if st.clockOk { RenewedTrans(st, a, r, now); }
  }

  lemma {:induction false} WalkInv(st: State, b: nat, cur: Option<nat>, now: Time)
    requires Inv(st) && ClockFine(st, now) && b < TIMEOUT_TABLE && |st.byTimeout| == TIMEOUT_TABLE
    requires cur.Some? ==> cur.value < |st.byTimeout[b]|
    requires st.clockOk ==> SweptTo(st, b, Position(st, b, cur), now)
    ensures Walked(st, Walk(st, b, cur, now), b, now)
    decreases Budget(st.all, st.queries, Limit(st.cfg)), if cur.Some? then |st.byTimeout[b]| - cur.value else 0
  {
    hide *;
    WalkIs(st, b, cur, now);
    PositionIs(st, b, cur);
    if cur.None? {
      WalkedDone(st, b, now);
    } else {
      var i := cur.value;
      var id := st.byTimeout[b][i];
      var more := i + 1 < |st.byTimeout[b]|;
      if Due(now, st.queries[id]) {
        var a := Expire(st, id, now);
        ExpiredKept(st, a, id, now);
        if st.clockOk {
          SweptExpired(st, a, b, i, now);
          RenewedOnce(st, a, id, now);
        }
        var next := if more then Some(i) else None;
        PositionIs(a, b, next);
        WalkInv(a, b, next, now);
        WalkedTrans(st, a, Walk(a, b, next, now), b, now);
      } else {
        if st.clockOk { SweptSpared(st, b, i, now); }
        var next := if more then Some(i + 1) else None;
        PositionIs(st, b, next);
        WalkInv(st, b, next, now);
      }
    }
  }

  lemma PositionIs(st: State, b: nat, cur: Option<nat>)
    requires b < |st.byTimeout|
    ensures Position(st, b, cur) == if cur.Some? then cur.value else |st.byTimeout[b]|
  {
  }

  lemma ExpiredKept(st: State, a: State, id: nat, now: Time)
    requires Expired(st, a, id, now)
    ensures Kept(st, a) && a.cfg == st.cfg && a.clockOk == st.clockOk && a.lastTimeout == st.lastTimeout && Inv(a)
    ensures forall t :: ClockFine(st, t) ==> ClockFine(a, t)
  {
    hide Inv;
    KeptMoved(st, a, id);
  }

  lemma RenewedSelf(st: State, now: Time)
    ensures Renewed(st, st, now)
  {
  }

  lemma RenewedTrans(a: State, b: State, c: State, now: Time)
    requires Renewed(a, b, now) && Renewed(b, c, now) && b.cfg == c.cfg
    ensures Renewed(a, c, now)
  {
    hide Later;
  }

  /** With base timeout of at least two milliseconds no query is expired twice. */
  lemma {:induction false} WalkTicks(base: State, st: State, b: nat, cur: Option<nat>, now: Time)
    requires Inv(st) && ClockFine(st, now) && b < TIMEOUT_TABLE && |st.byTimeout| == TIMEOUT_TABLE
    requires cur.Some? ==> cur.value < |st.byTimeout[b]|
    requires st.clockOk && st.cfg.timeout >= 2 && Ticked(base, st, now)
    ensures Ticked(base, Walk(st, b, cur, now), now)
    decreases Budget(st.all, st.queries, Limit(st.cfg)), if cur.Some? then |st.byTimeout[b]| - cur.value else 0
  {
    hide *;
    WalkIs(st, b, cur, now);
    if cur.Some? {
      var i := cur.value;
      var id := st.byTimeout[b][i];
      var more := i + 1 < |st.byTimeout[b]|;
      if Due(now, st.queries[id]) {
        var a := Expire(st, id, now);
        ExpiredKept(st, a, id, now);
        Untouched(base, st, id, now);
        TickedTurn(base, st, a, id, now);
        WalkTicks(base, a, b, if more then Some(i) else None, now);
      } else {
        WalkTicks(base, st, b, if more then Some(i + 1) else None, now);
      }
    }
  }

  lemma Untouched(base: State, st: State, id: nat, now: Time)
    requires Ticked(base, st, now) && id in st.queries && Due(now, st.queries[id]) && st.cfg.timeout >= 2
    ensures id in base.queries && st.queries[id] == base.queries[id] && Due(now, base.queries[id])
  {
  }

  // ---------- all buckets from the last pass to now ----------

  ghost function WheelFrom(st: State, t: nat, now: Time): (r: State)
    requires Inv(st) && ClockFine(st, now)
    decreases if t <= now.sec then now.sec - t + 1 else 0
  {
    if t > now.sec then st
    else
      var b := t % TIMEOUT_TABLE;
      BucketLive(st, b);
      WalkKeeps(st, b, now);
      WheelFrom(Walk(st, b, if st.byTimeout[b] == [] then None else Some(0), now), t + 1, now)
  }

  lemma SweptNothing(st: State, b: nat, now: Time)
    requires b < |st.byTimeout|
    ensures SweptTo(st, b, 0, now)
  {
  }

  lemma WalkKeeps(st: State, b: nat, now: Time)
    requires Inv(st) && ClockFine(st, now) && b < TIMEOUT_TABLE && |st.byTimeout| == TIMEOUT_TABLE
    ensures var r := Walk(st, b, if st.byTimeout[b] == [] then None else Some(0), now);
      Walked(st, r, b, now) && Inv(r) && ClockFine(r, now)
  {
    hide Inv, Walk, SweptTo, Renewed, Kept, ClockFine;
    SweptNothing(st, b, now);
    WalkInv(st, b, if st.byTimeout[b] == [] then None else Some(0), now);
  }

  ghost function ProcessTimeouts(st: State, now: Time): (r: State)
    requires Inv(st) && ClockFine(st, now)
  {
    WheelFrom(st, st.lastTimeout, now).(lastTimeout := now.sec)
  }

  /** No live query with a deadline in a second before t is still overdue. */
  ghost predicate SweptBefore(st: State, t: nat, now: Time) {
    forall id :: id in st.queries ==> st.queries[id].timeout.sec >= t || Later(st.cfg, now, st.queries[id].timeout)
  }

  lemma SweptSecond(st: State, r: State, t: nat, now: Time)
    requires Inv(r) && SweptBefore(st, t, now) && Renewed(st, r, now) && r.cfg == st.cfg && |r.byTimeout| == TIMEOUT_TABLE
    requires SweptTo(r, t % TIMEOUT_TABLE, |r.byTimeout[t % TIMEOUT_TABLE]|, now)
    ensures SweptBefore(r, t + 1, now)
  {
    var b := t % TIMEOUT_TABLE;
    assert TimersOk(r, None);
    hide Inv, Later;
    forall id | id in r.queries ensures r.queries[id].timeout.sec >= t + 1 || Later(r.cfg, now, r.queries[id].timeout) {
      if r.queries[id].timeout.sec == t {
        assert id in r.byTimeout[b];
        var j :| 0 <= j < |r.byTimeout[b]| && r.byTimeout[b][j] == id;
      }
    }
  }

  lemma {:induction false} WheelInv(st: State, t: nat, now: Time)
    requires Inv(st) && ClockFine(st, now) && (st.clockOk ==> SweptBefore(st, t, now))
    ensures var r := WheelFrom(st, t, now);
      && Inv(r) && Kept(st, r) && r.cfg == st.cfg && r.clockOk == st.clockOk
      && (st.clockOk ==> SweptBefore(r, now.sec + 1, now))
    decreases if t <= now.sec then now.sec - t + 1 else 0
  {
    hide Inv, Walk, SweptTo, Renewed, Kept, ClockFine, SweptBefore;
    if t > now.sec {
      KeptSelf(st);
      if st.clockOk { SweptLess(st, now.sec + 1, t, now); }
    } else {
      var b := t % TIMEOUT_TABLE;
      BucketLive(st, b);
      WalkKeeps(st, b, now);
      var a := Walk(st, b, if st.byTimeout[b] == [] then None else Some(0), now);
      if st.clockOk { SweptSecond(st, a, t, now); }
      WheelInv(a, t + 1, now);
      KeptTrans(st, a, WheelFrom(a, t + 1, now));
    }
  }

  lemma SweptLess(st: State, t: nat, u: nat, now: Time)
    requires SweptBefore(st, u, now) && t <= u
    ensures SweptBefore(st, t, now)
  {
  }

  lemma {:induction false} WheelTicks(base: State, st: State, t: nat, now: Time)
    requires Inv(st) && ClockFine(st, now) && st.clockOk && st.cfg.timeout >= 2 && Ticked(base, st, now)
    ensures Ticked(base, WheelFrom(st, t, now), now)
    decreases if t <= now.sec then now.sec - t + 1 else 0
  {
    hide Inv, Walk, SweptTo, Renewed, Kept, ClockFine, Ticked;
    if t <= now.sec {
      var b := t % TIMEOUT_TABLE;
      BucketLive(st, b);
      WalkKeeps(st, b, now);
      WalkTicks(base, st, b, if st.byTimeout[b] == [] then None else Some(0), now);
      WheelTicks(base, Walk(st, b, if st.byTimeout[b] == [] then None else Some(0), now), t + 1, now);
    }
  }

  lemma NotBehind(st: State)
    requires Inv(st) && st.clockOk
    ensures forall now :: SweptBefore(st, st.lastTimeout, now)
  {
    forall id | id in st.queries ensures st.queries[id].timeout.sec >= st.lastTimeout { RestParts(st, id); }
  }

  /** process_timeouts keeps the invariant, in particular that no deadline lies before the second the
      wheel has reached. */
  lemma ProcessTimeoutsInv(st: State, now: Time)
    requires Inv(st) && ClockFine(st, now)
    ensures Inv(ProcessTimeouts(st, now))
  {
    hide Inv, WheelFrom, ClockFine;
    if st.clockOk { NotBehind(st); }
    WheelInv(st, st.lastTimeout, now);
    var r := WheelFrom(st, st.lastTimeout, now);
    MoveWheel(r, now);
  }

  lemma MoveWheel(r: State, now: Time)
    requires Inv(r) && (r.clockOk ==> SweptBefore(r, now.sec + 1, now))
    ensures Inv(r.(lastTimeout := now.sec))
  {
    var w := r.(lastTimeout := now.sec);
    hide QueriesOk, LogOk, CallbacksOk, CapsOk, StampsOk, ServersOk, QueuesOk, AllOk, QidOk, TimersOk, InflightOk, SweptBefore, Closed;
    MoveWheelQueries(r, w, now);
    MoveWheelLog(r, w, now);
    MoveWheelLists(r, w, now);
  }

  lemma MoveWheelLists(r: State, w: State, now: Time)
    requires w == r.(lastTimeout := now.sec)
    requires AllOk(r) && QidOk(r) && TimersOk(r, None) && InflightOk(r, None) && ServersOk(r) && QueuesOk(r)
    ensures AllOk(w) && QidOk(w) && TimersOk(w, None) && InflightOk(w, None) && ServersOk(w) && QueuesOk(w)
  {
    hide QueueOk, InBucket, NoDup, Ascending, TimeoutBucket;
  }

  lemma MoveWheelLog(r: State, w: State, now: Time)
    requires WF(r) && WF(w) && w == r.(lastTimeout := now.sec) && LogOk(r) && CallbacksOk(r) && CapsOk(r) && StampsOk(r)
    ensures LogOk(w) && CallbacksOk(w) && CapsOk(w) && StampsOk(w)
  {
    hide Sends, Waits, Dones, WaitCap, EndOk, TcpSent;
  }

  lemma MoveWheelQueries(r: State, w: State, now: Time)
    requires WF(r) && WF(w) && w == r.(lastTimeout := now.sec) && QueriesOk(r, None)
    requires r.clockOk ==> SweptBefore(r, now.sec + 1, now)
    ensures QueriesOk(w, None)
  {
    hide Sane, AtRest, Later, WF;
    forall id | id in w.queries ensures Sane(w, id) && AtRest(w, id) { MoveWheelQuery(r, w, id, now); }
  }

  lemma MoveWheelQuery(r: State, w: State, id: nat, now: Time)
    requires WF(r) && WF(w) && w == r.(lastTimeout := now.sec) && id in r.queries && Sane(r, id) && AtRest(r, id)
    requires r.clockOk ==> r.queries[id].timeout.sec >= now.sec + 1 || Later(r.cfg, now, r.queries[id].timeout)
    ensures Sane(w, id) && AtRest(w, id)
  {
    hide Spent, Limit, InTurn, Considered, WF;
    SpentSame(r, w, id, w.queries[id].tryCount + 1);
  }

  lemma SpentSame(r: State, w: State, id: nat, n: nat)
    requires WF(r) && WF(w) && id in r.queries && w.queries == r.queries && w.log == r.log && w.cfg == r.cfg && Spent(r, id, n)
    ensures Spent(w, id, n)
  {
    hide Sends, Waits, WaitCap;
  }

  /** The timer wheel refines a full scan: with a clock that does not run backwards and a base timeout
      of at least 2 ms, exactly the queries whose deadline has come are expired, each once, all others
      are untouched, and no live query is left overdue. */
  lemma WheelIsScan(st: State, now: Time)
    requires Inv(st) && ClockFine(st, now) && st.clockOk && st.cfg.timeout >= 2
    ensures var r := ProcessTimeouts(st, now);
      && (forall id :: id in r.queries ==> id in st.queries && !TimedOut(now, r.queries[id].timeout))
      && (forall id :: id in st.queries && !TimedOut(now, st.queries[id].timeout) ==>
           id in r.queries && r.queries[id] == st.queries[id])
      && (forall id :: id in st.queries && TimedOut(now, st.queries[id].timeout) ==>
           ExpiredOnce(st.queries[id], r, id, now, |st.log|))
      && r.lastTimeout == now.sec && (forall id :: id in r.queries ==> r.queries[id].timeout.sec >= now.sec)
  {
    hide Inv, WheelFrom, ExpiredOnce;
    NotBehind(st);
    WheelInv(st, st.lastTimeout, now);
    TickedSelf(st, now);
    WheelTicks(st, st, st.lastTimeout, now);
    var r := WheelFrom(st, st.lastTimeout, now);
    forall id | id in st.queries && TimedOut(now, st.queries[id].timeout)
      ensures ExpiredOnce(st.queries[id], r.(lastTimeout := now.sec), id, now, |st.log|)
    {
      OnceSame(st.queries[id], r, id, now, |st.log|);
    }
  }

  lemma OnceSame(q: Query, r: State, id: nat, now: Time, from: nat)
    requires ExpiredOnce(q, r, id, now, from)
    ensures ExpiredOnce(q, r.(lastTimeout := now.sec), id, now, from)
  {
  }
}
