/** Trying a name as it is and with each search domain behind it (ares_search.c), driven by the outcome of
    one query after another. */
module Search {
  import opened Seqs

  const SUCCESS: nat := 0
  const ENODATA: nat := 1
  const ESERVFAIL: nat := 3
  const ENOTFOUND: nat := 4

  /** A status, or -1 for none yet. */
  type StatusOrNone = s: int | s >= -1

  /** The name and the channel's settings; alias is what the host alias file says of the name. */
  datatype Config = Config(name: string, domains: seq<string>, ndots: nat, noAliases: bool, noSearch: bool, alias: Option<string>)

  /** How one query ended. */
  datatype Reply = Reply(status: nat, timeouts: nat)

  /** Not fatal: the search goes on. */
  predicate Soft(status: nat) { status == ENODATA || status == ESERVFAIL || status == ENOTFOUND }

  function Dots(s: string): nat {
    if s == [] then 0 else Dots(s[..|s| - 1]) + if s[|s| - 1] == '.' then 1 else 0
  }

  /** cat_domain. */
  function Joined(name: string, domain: string): string { name + "." + domain }

  /** single_domain: the one name to ask for, when there is only one. */
  function SingleDomain(c: Config): Option<string>
    requires c.name != []
  {
    if c.name[|c.name| - 1] == '.' then Some(c.name)
    else if !c.noAliases && '.' !in c.name && c.alias.Some? then c.alias
    else if c.noSearch || c.domains == [] then Some(c.name)
    else None
  }

  // ---------- what is to be tried ----------

  predicate AsIsFirst(c: Config) { Dots(c.name) >= c.ndots }

  function WithDomains(c: Config): (r: seq<string>)
    ensures |r| == |c.domains| && forall i :: 0 <= i < |r| ==> r[i] == Joined(c.name, c.domains[i])
  {
    seq(|c.domains|, i requires 0 <= i < |c.domains| => Joined(c.name, c.domains[i]))
  }

  /** The name as it is first when it has enough dots, otherwise last. */
  function Candidates(c: Config): (r: seq<string>)
    ensures |r| == |c.domains| + 1
  {
    if AsIsFirst(c) then [c.name] + WithDomains(c) else WithDomains(c) + [c.name]
  }

  function AsIsAt(c: Config): (i: nat)
    ensures i <= |c.domains|
  {
    if AsIsFirst(c) then 0 else |c.domains|
  }

  function TotalTimeouts(rs: seq<Reply>): nat {
    if rs == [] then 0 else TotalTimeouts(rs[..|rs| - 1]) + rs[|rs| - 1].timeouts
  }

  ghost predicate SawNodata(rs: seq<Reply>) {
    exists i :: 0 <= i < |rs| && rs[i].status == ENODATA
  }

  /** The status a search reports when every candidate failed softly. */
  ghost function FinalStatus(c: Config, rs: seq<Reply>): nat
    requires |rs| == |c.domains| + 1
  {
    var asIs := rs[AsIsAt(c)].status;
    if asIs == ENOTFOUND && SawNodata(rs) then ENODATA else asIs
  }

  // ---------- the state machine ----------

  /** struct search_query; tried records the queries sent and calls what the caller's callback was given. */
  datatype State = State(direct: bool, statusAsIs: StatusOrNone, nextDomain: nat, tryingAsIs: bool, timeouts: nat, everGotNodata: bool,
                         tried: seq<string>, calls: seq<Reply>)

  function Start(c: Config): State
    requires c.name != []
  {
    match SingleDomain(c)
    case Some(s) => State(true, -1, 0, false, 0, false, [s], [])
    case None =>
      if AsIsFirst(c) then State(false, -1, 0, true, 0, false, [c.name], [])
      else State(false, -1, 1, false, 0, false, if c.domains != [] then [Joined(c.name, c.domains[0])] else [], [])
  }

  /** search_callback; a single query answers the caller directly. */
  function OnReply(c: Config, st: State, r: Reply): State {
    if st.direct then st.(calls := st.calls + [r])
    else
      var a := st.(timeouts := st.timeouts + r.timeouts);
      if !Soft(r.status) then a.(calls := a.calls + [Reply(r.status, a.timeouts)])
      else
        var b := a.(statusAsIs := if a.tryingAsIs then r.status else a.statusAsIs,
                    everGotNodata := a.everGotNodata || r.status == ENODATA);
        if b.nextDomain < |c.domains| then
          b.(tryingAsIs := false, nextDomain := b.nextDomain + 1, tried := b.tried + [Joined(c.name, c.domains[b.nextDomain])])
        else if b.statusAsIs == -1 then b.(tryingAsIs := true, tried := b.tried + [c.name])
        else
          var status: nat := if b.statusAsIs == ENOTFOUND && b.everGotNodata then ENODATA else b.statusAsIs;
          b.(calls := b.calls + [Reply(status, b.timeouts)])
  }

  function Run(c: Config, rs: seq<Reply>): State
    requires c.name != []
  {
    if rs == [] then Start(c) else OnReply(c, Run(c, rs[..|rs| - 1]), rs[|rs| - 1])
  }

  // ---------- properties ----------

  ghost predicate AllSoft(rs: seq<Reply>) { forall i :: 0 <= i < |rs| ==> Soft(rs[i].status) }

  /** The state while the search is on, after n soft replies. */
  ghost predicate Searching(c: Config, rs: seq<Reply>, st: State) {
    var n := |rs|;
    && !st.direct && st.calls == [] && n <= |c.domains|
    && st.tried == Candidates(c)[..n + 1]
    && st.timeouts == TotalTimeouts(rs) && (st.everGotNodata <==> SawNodata(rs))
    && st.nextDomain == (if AsIsFirst(c) then n else if n < |c.domains| then n + 1 else n)
    && (st.tryingAsIs <==> n == AsIsAt(c))
    && st.statusAsIs == if n > AsIsAt(c) then rs[AsIsAt(c)].status else -1
  }

  lemma SearchStart(c: Config)
    requires c.name != [] && SingleDomain(c).None?
    ensures Searching(c, [], Start(c))
  {
    assert Candidates(c)[..1] == [Candidates(c)[0]];
    hide Dots;
  }

  /** Extending the replies by one. */
  lemma MoreReplies(rs: seq<Reply>, r: Reply)
    ensures TotalTimeouts(rs + [r]) == TotalTimeouts(rs) + r.timeouts
    ensures SawNodata(rs + [r]) <==> SawNodata(rs) || r.status == ENODATA
    ensures forall i :: 0 <= i < |rs| ==> (rs + [r])[i] == rs[i]
  {
    assert (rs + [r])[..|rs|] == rs;
    NodataNext(rs, r);
    hide SawNodata;
  }

  lemma NextCandidate(c: Config, n: nat)
    requires n < |c.domains|
    ensures Candidates(c)[..n + 2] == Candidates(c)[..n + 1] + [Candidates(c)[n + 1]]
    ensures Candidates(c)[n + 1] ==
      if AsIsFirst(c) then Joined(c.name, c.domains[n])
      else if n + 1 < |c.domains| then Joined(c.name, c.domains[n + 1]) else c.name
  {
    hide Joined, Dots;
  }

  lemma TurnFatal(c: Config, rs: seq<Reply>, st: State, r: Reply)
    requires Searching(c, rs, st) && !Soft(r.status)
    ensures var a := OnReply(c, st, r);
      a.tried == Candidates(c)[..|rs| + 1] && a.calls == [Reply(r.status, TotalTimeouts(rs + [r]))]
  {
    MoreReplies(rs, r);
    hide TotalTimeouts, SawNodata, Candidates, AsIsFirst, AsIsAt;
  }

  lemma SoftIs(status: nat)
    ensures Soft(status) <==> status == ENODATA || status == ESERVFAIL || status == ENOTFOUND
  {
  }

  lemma TurnNext(c: Config, rs: seq<Reply>, st: State, r: Reply)
    requires Searching(c, rs, st) && AllSoft(rs) && Soft(r.status) && |rs| < |c.domains|
    ensures Searching(c, rs + [r], OnReply(c, st, r))
  {
    hide TotalTimeouts, SawNodata, Candidates, Joined, Dots, AsIsFirst, AllSoft, Soft;
    SoftIs(r.status);
    MoreReplies(rs, r);
    NextCandidate(c, |rs|);
  }

  lemma TurnLast(c: Config, rs: seq<Reply>, st: State, r: Reply)
    requires Searching(c, rs, st) && AllSoft(rs) && Soft(r.status) && |rs| == |c.domains| && c.domains != []
    ensures var a := OnReply(c, st, r);
      a.tried == Candidates(c) && a.calls == [Reply(FinalStatus(c, rs + [r]), TotalTimeouts(rs + [r]))]
  {
    MoreReplies(rs, r);
    assert Candidates(c)[..|rs| + 1] == Candidates(c);
    hide TotalTimeouts, SawNodata, Candidates, Joined, Dots;
  }

  /** One reply: the next candidate is tried, or the caller is told. */
  lemma SearchTurn(c: Config, rs: seq<Reply>, st: State, r: Reply)
    requires Searching(c, rs, st) && AllSoft(rs) && c.domains != [] && |rs| <= |c.domains|
    ensures var a := OnReply(c, st, r);
      var all := rs + [r];
      if !Soft(r.status) then a.tried == Candidates(c)[..|all|] && a.calls == [Reply(r.status, TotalTimeouts(all))]
      else if |all| <= |c.domains| then Searching(c, all, a)
      else a.tried == Candidates(c) && a.calls == [Reply(FinalStatus(c, all), TotalTimeouts(all))]
  {
    hide *;
    if !Soft(r.status) {
      TurnFatal(c, rs, st, r);
    } else if |rs| < |c.domains| {
      TurnNext(c, rs, st, r);
    } else {
      TurnLast(c, rs, st, r);
    }
  }

  lemma NodataNext(rs: seq<Reply>, r: Reply)
    ensures SawNodata(rs + [r]) <==> SawNodata(rs) || r.status == ENODATA
  {
    var all := rs + [r];
    if SawNodata(rs) {
      var i :| 0 <= i < |rs| && rs[i].status == ENODATA;
      assert all[i].status == ENODATA;
    }
    if r.status == ENODATA { assert all[|rs|].status == ENODATA; }
  }

  lemma {:induction false} SearchGoesOn(c: Config, rs: seq<Reply>)
    requires c.name != [] && SingleDomain(c).None? && AllSoft(rs) && |rs| <= |c.domains|
    ensures Searching(c, rs, Run(c, rs))
  {
    if rs == [] {
      SearchStart(c);
    } else {
      var front := rs[..|rs| - 1];
      SearchGoesOn(c, front);
      SearchTurn(c, front, Run(c, front), rs[|rs| - 1]);
      assert front + [rs[|rs| - 1]] == rs;
    }
    hide Searching, Start, OnReply;
  }

  /** When every query fails softly, every candidate has been tried, each once and in order, and the caller
      is told once: the status of the name as it is, or ENODATA when that was not found but something
      had no data. */
  lemma SearchExhausted(c: Config, rs: seq<Reply>)
    requires c.name != [] && SingleDomain(c).None? && AllSoft(rs) && |rs| == |c.domains| + 1
    ensures Run(c, rs).tried == Candidates(c)
    ensures Run(c, rs).calls == [Reply(FinalStatus(c, rs), TotalTimeouts(rs))]
  {
    var front := rs[..|rs| - 1];
    SearchGoesOn(c, front);
    SearchTurn(c, front, Run(c, front), rs[|rs| - 1]);
    assert front + [rs[|rs| - 1]] == rs;
    hide Searching, OnReply, FinalStatus, Candidates;
  }

  /** The first fatal outcome, or success, ends the search there and is reported as it is. */
  lemma SearchStops(c: Config, rs: seq<Reply>, r: Reply)
    requires c.name != [] && SingleDomain(c).None? && AllSoft(rs) && |rs| <= |c.domains| && !Soft(r.status)
    ensures var st := Run(c, rs + [r]);
      st.tried == Candidates(c)[..|rs| + 1] && st.calls == [Reply(r.status, TotalTimeouts(rs + [r]))]
  {
    SearchGoesOn(c, rs);
    SearchTurn(c, rs, Run(c, rs), r);
    assert (rs + [r])[..|rs|] == rs;
    hide Searching, OnReply, Candidates, TotalTimeouts;
  }

  /** Until then the caller is told nothing. */
  lemma SearchSilent(c: Config, rs: seq<Reply>)
    requires c.name != [] && SingleDomain(c).None? && AllSoft(rs) && |rs| <= |c.domains|
    ensures Run(c, rs).calls == [] && Run(c, rs).tried == Candidates(c)[..|rs| + 1]
  {
    SearchGoesOn(c, rs);
    hide Run, Candidates;
  }

  /** A name with a trailing dot is asked for as it is, dot and all, and nothing else is; the caller is told
      what that one query was told. */
  lemma {:induction false} TrailingDotKept(c: Config, rs: seq<Reply>)
    requires c.name != [] && c.name[|c.name| - 1] == '.'
    ensures var st := Run(c, rs); st.direct && st.tried == [c.name] && st.calls == rs
  {
    hide OnReply, Start;
    if rs == [] {
      StartDirect(c);
    } else {
      var front, last := rs[..|rs| - 1], rs[|rs| - 1];
      TrailingDotKept(c, front);
      ReplyDirect(c, Run(c, front), last);
      assert front + [last] == rs;
    }
  }

  lemma StartDirect(c: Config)
    requires c.name != [] && c.name[|c.name| - 1] == '.'
    ensures var st := Start(c); st.direct && st.tried == [c.name] && st.calls == []
  {
    hide Dots;
  }

  lemma ReplyDirect(c: Config, st: State, r: Reply)
    requires st.direct
    ensures OnReply(c, st, r) == st.(calls := st.calls + [r])
  {
    hide Dots;
  }

  lemma {:induction false} DotsAre(s: string)
    ensures Dots(s) == multiset(s)['.']
  {
    if s != [] {
      DotsAre(s[..|s| - 1]);
      assert s == s[..|s| - 1] + [s[|s| - 1]];
    }
  }

  /** The k-th name to be asked for: the name as it is comes first when it has at least ndots periods, and last
      otherwise; in between each domain is put behind it, after a period. */
  function KthName(c: Config, k: nat): string
    requires k <= |c.domains|
  {
    if multiset(c.name)['.'] >= c.ndots then
      if k == 0 then c.name else c.name + "." + c.domains[k - 1]
    else if k < |c.domains| then c.name + "." + c.domains[k] else c.name
  }

  lemma CandidatesAre(c: Config)
    ensures Candidates(c) == seq(|c.domains| + 1, k requires 0 <= k <= |c.domains| => KthName(c, k))
    ensures AsIsAt(c) == if multiset(c.name)['.'] >= c.ndots then 0 else |c.domains|
  {
    DotsAre(c.name);
    hide Dots;
  }

  predicate GoesOn(status: nat) { status == 1 || status == 3 || status == 4 }

  /** The caller has a name without a period at its end, no alias for it, and domains to search. */
  predicate Searchable(c: Config) {
    && c.name != [] && c.name[|c.name| - 1] != '.' && (c.noAliases || c.alias.None? || '.' in c.name)
    && !c.noSearch && c.domains != []
  }

  /** The status when every name was tried in vain: that of the name as it is, but "no data" when that does not
      exist and some other had no data. */
  ghost function InVain(c: Config, rs: seq<Reply>): nat
    requires |rs| == |c.domains| + 1
  {
    var asIs := rs[if multiset(c.name)['.'] >= c.ndots then 0 else |c.domains|].status;
    if asIs == 4 && exists i :: 0 <= i < |rs| && rs[i].status == 1 then 1 else asIs
  }

  /** The whole of a search after any replies that all but the last let it go on: which names have been asked
      for, and what the caller has been told. */
  lemma SearchOutcome(c: Config, rs: seq<Reply>, last: Reply)
    requires Searchable(c) && |rs| <= |c.domains| && forall i :: 0 <= i < |rs| ==> GoesOn(rs[i].status)
    ensures var all := rs + [last];
      var st := Run(c, all);
      var asked := if GoesOn(last.status) && |all| <= |c.domains| then |all| + 1 else |all|;
      && |st.tried| == asked && (forall k :: 0 <= k < asked ==> st.tried[k] == KthName(c, k))
      && (if !GoesOn(last.status) then st.calls == [Reply(last.status, TotalTimeouts(all))]
          else if |all| <= |c.domains| then st.calls == []
          else st.calls == [Reply(InVain(c, all), TotalTimeouts(all))])
  {
    hide *;
    var all := rs + [last];
    Settings(c);
    CandidatesAre(c);
    SoftAll(rs);
    SoftAll(all);
    SoftSame(last.status);
    if !GoesOn(last.status) {
      SearchStops(c, rs, last);
    } else if |all| <= |c.domains| {
      SearchSilent(c, all);
    } else {
      SearchExhausted(c, all);
      FinalIs(c, all);
    }
  }

  lemma Settings(c: Config)
    requires Searchable(c)
    ensures c.name != [] && SingleDomain(c).None?
  {
  }

  lemma SoftAll(rs: seq<Reply>)
    ensures (forall i :: 0 <= i < |rs| ==> GoesOn(rs[i].status)) <==> AllSoft(rs)
  {
  }

  lemma SoftSame(status: nat)
    ensures GoesOn(status) <==> Soft(status)
  {
  }

  lemma FinalIs(c: Config, rs: seq<Reply>)
    requires |rs| == |c.domains| + 1
    ensures FinalStatus(c, rs) == InVain(c, rs)
  {
    CandidatesAre(c);
    hide AsIsAt, Candidates;
  }

  /** When there is nothing to search, one name is asked for: the name itself, or its alias when it has no
      period and aliases are wanted; and the caller is told what that query was told. */
  lemma {:induction false} SingleQuery(c: Config, rs: seq<Reply>)
    requires c.name != [] && !Searchable(c)
    ensures var st := Run(c, rs);
      && st.calls == rs
      && st.tried == [if '.' !in c.name && !c.noAliases && c.alias.Some? then c.alias.value else c.name]
      && st.direct
  {
    hide OnReply, Start;
    if rs == [] {
      StartSingle(c);
    } else {
      var front, last := rs[..|rs| - 1], rs[|rs| - 1];
      SingleQuery(c, front);
      ReplyDirect(c, Run(c, front), last);
      assert front + [last] == rs;
    }
  }

  lemma StartSingle(c: Config)
    requires c.name != [] && !Searchable(c)
    ensures var st := Start(c);
      st.direct && st.calls == [] && st.tried == [if '.' !in c.name && !c.noAliases && c.alias.Some? then c.alias.value else c.name]
  {
    assert c.name[|c.name| - 1] in c.name;
    hide Dots;
  }

  // ---------- in place ----------

  class SearchQuery {
    const c: Config
    var direct: bool
    var statusAsIs: StatusOrNone
    var nextDomain: nat
    var tryingAsIs: bool
    var timeouts: nat
    var everGotNodata: bool
    var tried: seq<string>
    var calls: seq<Reply>

    ghost function View(): State
      reads this
    {
      State(direct, statusAsIs, nextDomain, tryingAsIs, timeouts, everGotNodata, tried, calls)
    }

    /** ares_search. */
    constructor (c: Config)
      requires c.name != []
      ensures this.c == c && View() == Start(c)
    {
      this.c := c;
      direct, statusAsIs, nextDomain, tryingAsIs, timeouts, everGotNodata := false, -1, 0, false, 0, false;
      tried, calls := [], [];
      new;
      var single := SingleDomain(c);
      if single.Some? {
        direct := true;
        tried := [single.value];
        return;
      }
      var ndots := 0;
      var p := 0;
      while p < |c.name|
        invariant 0 <= p <= |c.name| && ndots == Dots(c.name[..p])
      {
        assert c.name[..p + 1][..p] == c.name[..p];
        if c.name[p] == '.' {
          ndots := ndots + 1;
        }
        p := p + 1;
      }
      assert c.name[..p] == c.name;
      if ndots >= c.ndots {
        nextDomain, tryingAsIs := 0, true;
        tried := [c.name];
      } else {
        nextDomain, tryingAsIs := 1, false;
        tried := [Joined(c.name, c.domains[0])];
      }
    }

    method SearchCallback(r: Reply)
      modifies this
      ensures View() == OnReply(c, old(View()), r)
    {
      if direct {
        calls := calls + [r];
        return;
      }
      timeouts := timeouts + r.timeouts;
      if r.status != ENODATA && r.status != ESERVFAIL && r.status != ENOTFOUND {
        EndSearch(r.status);
        return;
      }
      if tryingAsIs {
        statusAsIs := r.status;
      }
      if r.status == ENODATA {
        everGotNodata := true;
      }
      if nextDomain < |c.domains| {
        tried := tried + [Joined(c.name, c.domains[nextDomain])];
        tryingAsIs := false;
        nextDomain := nextDomain + 1;
      } else if statusAsIs == -1 {
        tryingAsIs := true;
        tried := tried + [c.name];
      } else if statusAsIs == ENOTFOUND && everGotNodata {
        EndSearch(ENODATA);
      } else {
        EndSearch(statusAsIs);
      }
    }

    /** end_squery. */
    method EndSearch(status: nat)
      modifies this`calls
      ensures calls == old(calls) + [Reply(status, timeouts)]
    {
      calls := calls + [Reply(status, timeouts)];
    }
  }
}
