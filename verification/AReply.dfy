/** Reading a reply to an address query (ares_parse_a_reply.c): the CNAME chain, the addresses of the name it
    leads to, and the time to live of each. */
module AReply {
  import opened Seqs
  import opened Names
  import opened Questions

  const RRFIXEDSZ: nat := 10
  const T_A: nat := 1
  const T_CNAME: nat := 5
  const C_IN: nat := 1
  const INT_MAX: int := 0x7FFF_FFFF

  const SUCCESS: nat := 0
  const ENODATA: nat := 1
  const EBADRESP: nat := 10

  /** A 32-bit field read into an int. */
  function Be32(msg: seq<byte>, pos: nat): (r: int)
    requires pos + 4 <= |msg|
    ensures -0x8000_0000 <= r <= INT_MAX
  {
    var u := Be16(msg, pos) * 65536 + Be16(msg, pos + 2);
    if u <= INT_MAX then u else u - 0x1_0000_0000
  }

  /** The name and the fixed part of a record; data is where its data begin. */
  datatype Head = Head(owner: seq<byte>, rtype: nat, dnsclass: nat, ttl: int, len: nat, data: nat)

  ghost function HeadAt(msg: seq<byte>, pos: nat): (r: Option<Head>)
    requires pos <= |msg|
    ensures r.Some? ==> r.value.data <= |msg|
  {
    match Expand(msg, pos)
    case None => None
    case Some(e) =>
      var p := pos + e.encoded;
      if p + RRFIXEDSZ > |msg| then None
      else Some(Head(Spell(e.labels), Be16(msg, p), Be16(msg, p + 2), Be32(msg, p + 4), Be16(msg, p + 8), p + RRFIXEDSZ))
  }

  /** A record; target is what a CNAME record says. */
  datatype Record = Record(owner: seq<byte>, rtype: nat, dnsclass: nat, ttl: int, data: seq<byte>, target: seq<byte>)

  predicate IsCname(r: Record) { r.dnsclass == C_IN && r.rtype == T_CNAME }

  predicate IsAddress(r: Record) { r.dnsclass == C_IN && r.rtype == T_A && |r.data| == 4 }

  /** The record at pos and where the next one begins, if all of it lies inside the message. */
  ghost function RecordAt(msg: seq<byte>, pos: nat): (r: Option<(Record, nat)>)
    requires pos <= |msg|
    ensures r.Some? ==> r.value.1 <= |msg|
  {
    match HeadAt(msg, pos)
    case None => None
    case Some(h) =>
      if h.data + h.len > |msg| then None
      else
        var plain := Record(h.owner, h.rtype, h.dnsclass, h.ttl, msg[h.data..h.data + h.len], []);
        if !IsCname(plain) then Some((plain, h.data + h.len))
        else
          match Expand(msg, h.data)
          case None => None
          case Some(e) => Some((plain.(target := Spell(e.labels)), h.data + h.len))
  }

  ghost function Records(msg: seq<byte>, pos: nat, n: nat): (r: Option<seq<Record>>)
    requires pos <= |msg|
    ensures r.Some? ==> |r.value| == n
    decreases n
  {
    if n == 0 then Some([])
    else
      match RecordAt(msg, pos)
      case None => None
      case Some((r, next)) =>
        match Records(msg, next, n - 1)
        case None => None
        case Some(rs) => Some([r] + rs)
  }

  // ---------- what the records mean ----------

  /** The name that the question's name has become after these records. */
  function HostAfter(host: seq<byte>, rs: seq<Record>): seq<byte> {
    if rs == [] then host
    else if IsCname(rs[|rs| - 1]) then rs[|rs| - 1].target
    else HostAfter(host, rs[..|rs| - 1])
  }

  datatype AddrTtl = AddrTtl(addr: seq<byte>, ttl: int)

  /** Record i is an address of the name as the CNAMEs before it have rewritten it. */
  ghost predicate Answers(host: seq<byte>, rs: seq<Record>, i: nat) {
    i < |rs| && IsAddress(rs[i]) && SameIgnoringCase(rs[i].owner, HostAfter(host, rs[..i]))
  }

  /** Which records answer, in the order of the reply. */
  ghost function AnswerIndexes(host: seq<byte>, rs: seq<Record>): (ks: seq<nat>)
    ensures forall j :: 0 <= j < |ks| ==> ks[j] < |rs|
  {
    if rs == [] then []
    else
      var front := AnswerIndexes(host, rs[..|rs| - 1]);
      if Answers(host, rs, |rs| - 1) then front + [|rs| - 1] else front
  }

  ghost function Addresses(host: seq<byte>, rs: seq<Record>): (r: seq<AddrTtl>)
    ensures |r| == |AnswerIndexes(host, rs)|
  {
    var ks := AnswerIndexes(host, rs);
    seq(|ks|, j requires 0 <= j < |ks| => AddrTtl(rs[ks[j]].data, rs[ks[j]].ttl))
  }

  function Aliases(rs: seq<Record>): seq<seq<byte>> {
    if rs == [] then []
    else
      var front := Aliases(rs[..|rs| - 1]);
      if IsCname(rs[|rs| - 1]) then front + [rs[|rs| - 1].owner] else front
  }

  /** The limit that the CNAME records set. */
  function ChainTtl(rs: seq<Record>): int {
    if rs == [] then INT_MAX
    else
      var front := ChainTtl(rs[..|rs| - 1]);
      if IsCname(rs[|rs| - 1]) && front > rs[|rs| - 1].ttl then rs[|rs| - 1].ttl else front
  }

  function Clamp(a: AddrTtl, limit: int): AddrTtl { if a.ttl > limit then a.(ttl := limit) else a }

  function Clamped(addrs: seq<AddrTtl>, limit: int): (r: seq<AddrTtl>)
    ensures |r| == |addrs| && forall i :: 0 <= i < |r| ==> r[i] == Clamp(addrs[i], limit)
  {
    seq(|addrs|, i requires 0 <= i < |addrs| => Clamp(addrs[i], limit))
  }

  datatype HostEnt = HostEnt(name: seq<byte>, aliases: seq<seq<byte>>, addrs: seq<seq<byte>>)

  /** Return code, *host and *addrttls. */
  datatype Reply = Reply(status: nat, host: Option<HostEnt>, ttls: seq<AddrTtl>)

  function Failed(status: nat): Reply { Reply(status, None, []) }

  function AddrsOf(a: seq<AddrTtl>): (r: seq<seq<byte>>)
    ensures |r| == |a| && forall i :: 0 <= i < |r| ==> r[i] == a[i].addr
  {
    seq(|a|, i requires 0 <= i < |a| => a[i].addr)
  }

  ghost function Understand(host: seq<byte>, rs: seq<Record>, wantHost: bool, room: nat): Reply {
    var addrs, aliases := Addresses(host, rs), Aliases(rs);
    if addrs == [] && aliases == [] then Failed(ENODATA)
    else
      Reply(SUCCESS, if wantHost then Some(HostEnt(HostAfter(host, rs), aliases, AddrsOf(addrs))) else None,
            Clamped(if |addrs| <= room then addrs else addrs[..room], ChainTtl(rs)))
  }

  /** The name asked for and the answer records, when the header announces one question and all of them
      decode inside the message. */
  ghost function Decoded(msg: seq<byte>): Option<(seq<byte>, seq<Record>)> {
    if |msg| < HFIXEDSZ || Be16(msg, 4) != 1 then None
    else
      match Expand(msg, HFIXEDSZ)
      case None => None
      case Some(e) =>
        var p := HFIXEDSZ + e.encoded + QFIXEDSZ;
        if p > |msg| || Records(msg, p, Be16(msg, 6)).None? then None
        else Some((Spell(e.labels), Records(msg, p, Be16(msg, 6)).value))
  }

  ghost function ParseA(msg: seq<byte>, wantHost: bool, room: nat): Reply {
    match Decoded(msg)
    case None => Failed(EBADRESP)
    case Some((host, rs)) => Understand(host, rs, wantHost, room)
  }

  // ---------- properties ----------

  /** The name after the records is what the last CNAME says, or the name asked for when there is none. */
  lemma {:induction false} LastCname(host: seq<byte>, rs: seq<Record>, i: nat)
    requires i < |rs| && IsCname(rs[i]) && forall j :: i < j < |rs| ==> !IsCname(rs[j])
    ensures HostAfter(host, rs) == rs[i].target
  {
    if i < |rs| - 1 { LastCname(host, rs[..|rs| - 1], i); }
  }

  lemma {:induction false} NoCname(host: seq<byte>, rs: seq<Record>)
    requires forall j :: 0 <= j < |rs| ==> !IsCname(rs[j])
    ensures HostAfter(host, rs) == host
  {
    if rs != [] { NoCname(host, rs[..|rs| - 1]); }
  }

  lemma AnswersPrefix(host: seq<byte>, rs: seq<Record>, n: nat, i: nat)
    requires i < n <= |rs|
    ensures Answers(host, rs[..n], i) <==> Answers(host, rs, i)
  {
    assert rs[..n][..i] == rs[..i];
    hide HostAfter, SameIgnoringCase, IsAddress;
  }

  /** The records that answer are reported all, each once, in the order of the reply. */
  lemma {:induction false} AnswersInOrder(host: seq<byte>, rs: seq<Record>)
    ensures var ks := AnswerIndexes(host, rs);
      && (forall j, k :: 0 <= j < k < |ks| ==> ks[j] < ks[k])
      && forall i: nat :: Answers(host, rs, i) <==> i in ks
  {
    if rs != [] {
      var n := |rs| - 1;
      AnswersInOrder(host, rs[..n]);
      forall i: nat | i < n
        ensures Answers(host, rs[..n], i) <==> Answers(host, rs, i)
      {
        AnswersPrefix(host, rs, n, i);
      }
      AnswersInside(host, rs);
    }
    hide Answers;
  }

  lemma AnswersInside(host: seq<byte>, rs: seq<Record>)
    ensures forall i: nat :: Answers(host, rs, i) ==> i < |rs|
  {
    hide HostAfter, SameIgnoringCase, IsAddress;
  }

  /** The limit is the least time to live of all CNAME records, wherever they stand. */
  lemma {:induction false} ChainTtlIs(rs: seq<Record>)
    requires forall i :: 0 <= i < |rs| ==> rs[i].ttl <= INT_MAX
    ensures forall i :: 0 <= i < |rs| && IsCname(rs[i]) ==> ChainTtl(rs) <= rs[i].ttl
    ensures (exists i :: 0 <= i < |rs| && IsCname(rs[i])) ==> exists i :: 0 <= i < |rs| && IsCname(rs[i]) && ChainTtl(rs) == rs[i].ttl
    ensures (forall i :: 0 <= i < |rs| ==> !IsCname(rs[i])) ==> ChainTtl(rs) == INT_MAX
  {
    if rs != [] {
      var front := rs[..|rs| - 1];
      ChainTtlIs(front);
      if exists i :: 0 <= i < |front| && IsCname(front[i]) {
        var i :| 0 <= i < |front| && IsCname(front[i]) && ChainTtl(front) == front[i].ttl;
        assert rs[i] == front[i];
      }
    }
    hide IsCname;
  }

  lemma {:induction false} RecordsTtl(msg: seq<byte>, pos: nat, n: nat)
    requires pos <= |msg| && Records(msg, pos, n).Some?
    ensures forall i :: 0 <= i < n ==> Records(msg, pos, n).value[i].ttl <= INT_MAX
    decreases n
  {
    if n > 0 {
      RecordTtl(msg, pos);
      RecordsTtl(msg, RecordAt(msg, pos).value.1, n - 1);
    }
    hide RecordAt;
  }

  lemma RecordTtl(msg: seq<byte>, pos: nat)
    requires pos <= |msg| && RecordAt(msg, pos).Some?
    ensures RecordAt(msg, pos).value.0.ttl <= INT_MAX
  {
    hide Expand, Spell, Be16;
  }

  lemma DecodedTtl(msg: seq<byte>)
    requires Decoded(msg).Some?
    ensures forall i :: 0 <= i < |Decoded(msg).value.1| ==> Decoded(msg).value.1[i].ttl <= INT_MAX
  {
    var p := HFIXEDSZ + Expand(msg, HFIXEDSZ).value.encoded + QFIXEDSZ;
    RecordsTtl(msg, p, Be16(msg, 6));
    hide Expand, Records, Be16, Spell;
  }

  /** The entry lists the data of exactly the records that answer, in their order, and as aliases the owners
      of the CNAME records. */
  ghost predicate Lists(h: HostEnt, host: seq<byte>, rs: seq<Record>) {
    var ks := AnswerIndexes(host, rs);
    && h.name == HostAfter(host, rs) && h.aliases == Aliases(rs) && |h.addrs| == |ks|
    && forall j :: 0 <= j < |ks| ==> h.addrs[j] == rs[ks[j]].data
  }

  /** The answer's own time to live, cut to the least of all CNAME records, later ones included. */
  ghost predicate Limited(ttl: int, own: int, rs: seq<Record>) {
    && ttl <= own && (forall i :: 0 <= i < |rs| && IsCname(rs[i]) ==> ttl <= rs[i].ttl)
    && (ttl == own || exists i :: 0 <= i < |rs| && IsCname(rs[i]) && ttl == rs[i].ttl)
  }

  /** What a successful reply reports, and when a reply is successful. */
  lemma SuccessfulReply(msg: seq<byte>, wantHost: bool, room: nat)
    ensures var r := ParseA(msg, wantHost, room);
      match Decoded(msg)
      case None => r == Reply(10, None, [])
      case Some((host, rs)) =>
        var ks := AnswerIndexes(host, rs);
        if ks == [] && Aliases(rs) == [] then r == Reply(1, None, [])
        else
          && r.status == 0
          && (r.host.Some? <==> wantHost) && (wantHost ==> Lists(r.host.value, host, rs))
          && |r.ttls| == (if |ks| <= room then |ks| else room)
          && forall j :: 0 <= j < |r.ttls| ==> r.ttls[j].addr == rs[ks[j]].data && Limited(r.ttls[j].ttl, rs[ks[j]].ttl, rs)
  {
    hide Decoded, AnswerIndexes, HostAfter, Aliases, IsCname, ChainTtl;
    if Decoded(msg).Some? {
      DecodedTtl(msg);
      ChainTtlIs(Decoded(msg).value.1);
    }
  }

  // ---------- the parser ----------

  /** The name and the fixed part of one record. */
  method ReadHead(msg: seq<byte>, pos: nat) returns (ok: bool, owner: array?<byte>, h: Head)
    requires pos <= |msg|
    ensures ok <==> HeadAt(msg, pos).Some?
    ensures ok ==> HeadAt(msg, pos) == Some(h) && owner != null && fresh(owner) && owner[..] == h.owner + [0] && h.data <= |msg|
  {
    hide Expand, Be16, Spell;
    var enclen;
    h := Head([], 0, 0, 0, 0, 0);
    ok, owner, enclen := ExpandName(msg, pos);
    if !ok {
      return;
    }
    var p := pos + enclen;
    if p + RRFIXEDSZ > |msg| {
      ok := false;
      return;
    }
    h := Head(owner[..owner.Length - 1], Be16(msg, p), Be16(msg, p + 2), Be32(msg, p + 4), Be16(msg, p + 8), p + RRFIXEDSZ);
  }

  /** i records have been read, rs, and the next one begins at pos. */
  ghost predicate ReadTo(msg: seq<byte>, p0: nat, n: nat, i: nat, pos: nat, rs: seq<Record>) {
    && p0 <= |msg| && pos <= |msg| && i <= n && |rs| == i
    && Records(msg, p0, n) == match Records(msg, pos, n - i) case None => None case Some(more) => Some(rs + more)
  }

  lemma ReadStart(msg: seq<byte>, p0: nat, n: nat)
    requires p0 <= |msg|
    ensures ReadTo(msg, p0, n, 0, p0, [])
  {
    hide RecordAt;
    match Records(msg, p0, n)
    case None =>
    case Some(more) => assert [] + more == more;
  }

  lemma ReadTurn(msg: seq<byte>, p0: nat, n: nat, i: nat, pos: nat, rs: seq<Record>)
    requires ReadTo(msg, p0, n, i, pos, rs) && i < n
    ensures p0 <= |msg| && pos <= |msg|
    ensures RecordAt(msg, pos).None? ==> Records(msg, p0, n).None?
    ensures RecordAt(msg, pos).Some? ==>
      var (r, next) := RecordAt(msg, pos).value;
      next <= |msg| && ReadTo(msg, p0, n, i + 1, next, rs + [r])
  {
    hide *;
    ReadParts(msg, p0, n, i, pos, rs);
    RecordsIs(msg, pos, n - i);
    if RecordAt(msg, pos).Some? {
      var (r, next) := RecordAt(msg, pos).value;
      ReadNext(msg, p0, n, i, next, rs, r);
    }
  }

  lemma ReadParts(msg: seq<byte>, p0: nat, n: nat, i: nat, pos: nat, rs: seq<Record>)
    requires ReadTo(msg, p0, n, i, pos, rs)
    ensures p0 <= |msg| && pos <= |msg| && i <= n && |rs| == i
    ensures Records(msg, p0, n) == match Records(msg, pos, n - i) case None => None case Some(more) => Some(rs + more)
  {
    hide Records;
  }

  lemma RecordsIs(msg: seq<byte>, pos: nat, n: nat)
    requires pos <= |msg| && n > 0
    ensures match RecordAt(msg, pos)
      case None => Records(msg, pos, n) == None
      case Some((r, next)) =>
        next <= |msg| &&
        match Records(msg, next, n - 1)
        case None => Records(msg, pos, n) == None
        case Some(more) => Records(msg, pos, n) == Some([r] + more)
  {
    hide RecordAt;
  }

  lemma ReadNext(msg: seq<byte>, p0: nat, n: nat, i: nat, next: nat, rs: seq<Record>, r: Record)
    requires p0 <= |msg| && next <= |msg| && i < n && |rs| == i
    requires Records(msg, p0, n) == match Records(msg, next, n - i - 1) case None => None case Some(more) => Some(rs + ([r] + more))
    ensures ReadTo(msg, p0, n, i + 1, next, rs + [r])
  {
    hide Records;
    match Records(msg, next, n - i - 1)
    case None =>
    case Some(more) => assert rs + ([r] + more) == (rs + [r]) + more;
  }

  lemma ReadEnd(msg: seq<byte>, p0: nat, n: nat, i: nat, pos: nat, rs: seq<Record>)
    requires ReadTo(msg, p0, n, i, pos, rs) && i == n
    ensures p0 <= |msg| && Records(msg, p0, n) == Some(rs)
  {
    assert rs + [] == rs;
  }

  /** What the parser has gathered from the records rs. */
  ghost predicate Gathered(host: seq<byte>, rs: seq<Record>, wantHost: bool, room: nat,
                           hostname: seq<byte>, addrs: seq<seq<byte>>, aliases: seq<seq<byte>>, ttls: seq<AddrTtl>,
                           naddrs: nat, naliases: nat, limit: int) {
    var all := Addresses(host, rs);
    && hostname == HostAfter(host, rs) && naddrs == |all| && naliases == |Aliases(rs)| && limit == ChainTtl(rs)
    && (wantHost ==> addrs == AddrsOf(all) && aliases == Aliases(rs))
    && ttls == if |all| <= room then all else all[..room]
  }

  lemma GatherStart(host: seq<byte>, wantHost: bool, room: nat)
    ensures Gathered(host, [], wantHost, room, host, [], [], [], 0, 0, INT_MAX)
  {
  }

  lemma AddressesNext(host: seq<byte>, rs: seq<Record>, r: Record)
    ensures Answers(host, rs + [r], |rs|) <==> IsAddress(r) && SameIgnoringCase(r.owner, HostAfter(host, rs))
    ensures Addresses(host, rs + [r]) ==
      if Answers(host, rs + [r], |rs|) then Addresses(host, rs) + [AddrTtl(r.data, r.ttl)] else Addresses(host, rs)
  {
    assert (rs + [r])[..|rs|] == rs;
    hide HostAfter, SameIgnoringCase, IsAddress;
  }

  lemma ChainNext(host: seq<byte>, rs: seq<Record>, r: Record)
    ensures HostAfter(host, rs + [r]) == if IsCname(r) then r.target else HostAfter(host, rs)
    ensures Aliases(rs + [r]) == if IsCname(r) then Aliases(rs) + [r.owner] else Aliases(rs)
    ensures ChainTtl(rs + [r]) == if IsCname(r) && ChainTtl(rs) > r.ttl then r.ttl else ChainTtl(rs)
  {
    assert (rs + [r])[..|rs|] == rs;
    hide IsCname;
  }

  /** One more record: an address record is no CNAME record. */
  lemma GatherTurn(host: seq<byte>, rs: seq<Record>, wantHost: bool, room: nat,
                   hostname: seq<byte>, addrs: seq<seq<byte>>, aliases: seq<seq<byte>>, ttls: seq<AddrTtl>,
                   naddrs: nat, naliases: nat, limit: int, r: Record)
    requires Gathered(host, rs, wantHost, room, hostname, addrs, aliases, ttls, naddrs, naliases, limit)
    ensures if IsAddress(r) && SameIgnoringCase(r.owner, hostname) then
              Gathered(host, rs + [r], wantHost, room, hostname, if wantHost then addrs + [r.data] else addrs, aliases,
                       if naddrs < room then ttls + [AddrTtl(r.data, r.ttl)] else ttls, naddrs + 1, naliases, limit)
            else if IsCname(r) then
              Gathered(host, rs + [r], wantHost, room, r.target, addrs, if wantHost then aliases + [r.owner] else aliases, ttls,
                       naddrs, naliases + 1, if limit > r.ttl then r.ttl else limit)
            else Gathered(host, rs + [r], wantHost, room, hostname, addrs, aliases, ttls, naddrs, naliases, limit)
  {
    AddressesNext(host, rs, r);
    ChainNext(host, rs, r);
    NotBoth(r);
    hide Addresses, HostAfter, Aliases, ChainTtl, Answers, SameIgnoringCase, IsAddress, IsCname;
    var all := Addresses(host, rs);
    var x := AddrTtl(r.data, r.ttl);
    assert AddrsOf(all + [x]) == AddrsOf(all) + [r.data];
    assert |all| >= room ==> (all + [x])[..room] == all[..room];
  }

  lemma NotBoth(r: Record)
    ensures IsAddress(r) ==> !IsCname(r)
  {
  }

  /** What is known of the record at pos once its head is read. */
  lemma HeadRecord(msg: seq<byte>, pos: nat, h: Head)
    requires pos <= |msg| && HeadAt(msg, pos) == Some(h) && h.data <= |msg|
    ensures h.data + h.len > |msg| ==> RecordAt(msg, pos) == None
    ensures h.data + h.len <= |msg| ==>
      var plain := Record(h.owner, h.rtype, h.dnsclass, h.ttl, msg[h.data..h.data + h.len], []);
      if h.dnsclass == C_IN && h.rtype == T_CNAME then
        RecordAt(msg, pos) == (match Expand(msg, h.data)
                               case None => None
                               case Some(e) => Some((plain.(target := Spell(e.labels)), h.data + h.len)))
      else RecordAt(msg, pos) == Some((plain, h.data + h.len))
    ensures h.dnsclass == C_IN && h.rtype == T_CNAME && Expand(msg, h.data).None? ==> RecordAt(msg, pos) == None
  {
    hide HeadAt, Expand, Spell;
  }

  lemma Kinds(r: Record)
    ensures IsAddress(r) <==> r.dnsclass == C_IN && r.rtype == T_A && |r.data| == 4
    ensures IsCname(r) <==> r.dnsclass == C_IN && r.rtype == T_CNAME
  {
  }

  /** Comparing the buffers compares the names in them. */
  lemma SameNames(a: seq<byte>, b: seq<byte>)
    ensures SameIgnoringCase(a + [0], b + [0]) <==> SameIgnoringCase(a, b)
  {
    TerminatedCString(a);
    TerminatedCString(b);
  }

  lemma DecodedIs(msg: seq<byte>)
    ensures |msg| < HFIXEDSZ ==> Decoded(msg) == None
    ensures |msg| >= HFIXEDSZ && Be16(msg, 4) != 1 ==> Decoded(msg) == None
    ensures |msg| >= HFIXEDSZ && Expand(msg, HFIXEDSZ).None? ==> Decoded(msg) == None
    ensures |msg| >= HFIXEDSZ && Be16(msg, 4) == 1 && Expand(msg, HFIXEDSZ).Some? ==>
      var e := Expand(msg, HFIXEDSZ).value;
      var p := HFIXEDSZ + e.encoded + QFIXEDSZ;
      if p > |msg| || Records(msg, p, Be16(msg, 6)).None? then Decoded(msg) == None
      else Decoded(msg) == Some((Spell(e.labels), Records(msg, p, Be16(msg, 6)).value))
    ensures HFIXEDSZ == 12
  {
    hide Expand, Records, Spell, Be16;
  }

  lemma ParseIs(msg: seq<byte>, wantHost: bool, room: nat)
    ensures Decoded(msg).None? ==> ParseA(msg, wantHost, room) == Failed(EBADRESP)
    ensures Decoded(msg).Some? ==>
      ParseA(msg, wantHost, room) == Understand(Decoded(msg).value.0, Decoded(msg).value.1, wantHost, room)
  {
    hide Decoded, Understand;
  }

  lemma GatherEnd(host: seq<byte>, rs: seq<Record>, wantHost: bool, room: nat,
                  hostname: seq<byte>, addrs: seq<seq<byte>>, aliases: seq<seq<byte>>, ttls: seq<AddrTtl>,
                  naddrs: nat, naliases: nat, limit: int)
    requires Gathered(host, rs, wantHost, room, hostname, addrs, aliases, ttls, naddrs, naliases, limit)
    ensures Understand(host, rs, wantHost, room) ==
      if naddrs == 0 && naliases == 0 then Failed(ENODATA)
      else Reply(SUCCESS, if wantHost then Some(HostEnt(hostname, aliases, addrs)) else None, Clamped(ttls, limit))
  {
    hide Addresses, HostAfter, Aliases, ChainTtl;
  }

  /** ares_parse_a_reply: room is the size of the caller's array of addresses with their times to live. */
  method ParseAReply(msg: seq<byte>, wantHost: bool, room: nat) returns (r: Reply)
    ensures r == ParseA(msg, wantHost, room)
  {
    hide *;
    DecodedIs(msg);
    ParseIs(msg, wantHost, room);
    if |msg| < HFIXEDSZ {
      return Failed(EBADRESP);
    }
    var qdcount := Be16(msg, 4);
    var ancount := Be16(msg, 6);
    if qdcount != 1 {
      return Failed(EBADRESP);
    }
    var ok, hostname, len := ExpandName(msg, HFIXEDSZ);
    if !ok {
      return Failed(EBADRESP);
    }
    if HFIXEDSZ + len + QFIXEDSZ > |msg| {
      return Failed(EBADRESP);
    }
    var pos: nat := HFIXEDSZ + len + QFIXEDSZ;
    ghost var p0 := pos;
    ghost var host := hostname[..hostname.Length - 1];
    assert host == Spell(Expand(msg, HFIXEDSZ).value.labels);
    ghost var rs: seq<Record> := [];
    var addrs: seq<seq<byte>> := [];
    var aliases: seq<seq<byte>> := [];
    var ttls: seq<AddrTtl> := [];
    var naddrs: nat := 0;
    var naliases: nat := 0;
    var limit: int := INT_MAX;
    var i: nat := 0;
    ReadStart(msg, p0, ancount);
    GatherStart(host, wantHost, room);
    while i < ancount
      invariant i <= ancount && ReadTo(msg, p0, ancount, i, pos, rs) && pos <= |msg|
      invariant hostname != null && fresh(hostname) && hostname.Length > 0 && hostname[..] == hostname[..hostname.Length - 1] + [0]
      invariant Gathered(host, rs, wantHost, room, hostname[..hostname.Length - 1], addrs, aliases, ttls, naddrs, naliases, limit)
    {
      ReadTurn(msg, p0, ancount, i, pos, rs);
      var good, owner, h := ReadHead(msg, pos);
      if !good {
        NoRecord(msg, pos);
        return Failed(EBADRESP);
      }
      HeadRecord(msg, pos, h);
      ghost var was := hostname[..hostname.Length - 1];
      ghost var addrs0, aliases0, ttls0, naddrs0, naliases0, limit0 := addrs, aliases, ttls, naddrs, naliases, limit;
      SameNames(h.owner, was);
      var d := h.data;
      var matches := false;
      if h.dnsclass == C_IN && h.rtype == T_A && h.len == 4 {
        matches := StrCaseEqual(owner, hostname);
      }
      if matches {
        if wantHost {
          if d + 4 > |msg| {
            return Failed(EBADRESP);
          }
          addrs := addrs + [msg[d..d + 4]];
        }
        if naddrs < room {
          if d + 4 > |msg| {
            return Failed(EBADRESP);
          }
          ttls := ttls + [AddrTtl(msg[d..d + 4], h.ttl)];
        }
        naddrs := naddrs + 1;
      }
      if h.dnsclass == C_IN && h.rtype == T_CNAME {
        if wantHost {
          aliases := aliases + [owner[..owner.Length - 1]];
        }
        naliases := naliases + 1;
        var decoded, target, _ := ExpandName(msg, d);
        if !decoded {
          return Failed(EBADRESP);
        }
        hostname := target;
        if limit > h.ttl {
          limit := h.ttl;
        }
      }
      pos := d + h.len;
      if pos > |msg| {
        return Failed(EBADRESP);
      }
      ghost var rec := Record(h.owner, h.rtype, h.dnsclass, h.ttl, msg[d..d + h.len],
                              if h.dnsclass == C_IN && h.rtype == T_CNAME then hostname[..hostname.Length - 1] else []);
      Kinds(rec);
      NotBoth(rec);
      GatherTurn(host, rs, wantHost, room, was, addrs0, aliases0, ttls0, naddrs0, naliases0, limit0, rec);
      rs := rs + [rec];
      i := i + 1;
    }
    ReadEnd(msg, p0, ancount, i, pos, rs);
    GatherEnd(host, rs, wantHost, room, hostname[..hostname.Length - 1], addrs, aliases, ttls, naddrs, naliases, limit);
    if naddrs == 0 && naliases == 0 {
      return Failed(ENODATA);
    }
    var ent := if wantHost then Some(HostEnt(hostname[..hostname.Length - 1], aliases, addrs)) else None;
    var limited := LimitTtls(ttls, limit);
    return Reply(SUCCESS, ent, limited);
  }

  /** No address is kept longer than the CNAME records allow. */
  method LimitTtls(ttls: seq<AddrTtl>, limit: int) returns (r: seq<AddrTtl>)
    ensures r == Clamped(ttls, limit)
  {
    r := ttls;
    var n := 0;
    while n < |ttls|
      invariant 0 <= n <= |ttls| == |r|
      invariant forall k :: 0 <= k < n ==> r[k] == Clamp(ttls[k], limit)
      invariant forall k :: n <= k < |ttls| ==> r[k] == ttls[k]
    {
      if r[n].ttl > limit {
        r := r[n := r[n].(ttl := limit)];
      }
      n := n + 1;
    }
  }

  lemma NoRecord(msg: seq<byte>, pos: nat)
    requires pos <= |msg| && HeadAt(msg, pos).None?
    ensures RecordAt(msg, pos) == None
  {
    hide HeadAt;
  }
}
