/** Replies as they are put together, and what ares_parse_a_reply makes of them: the records of section 4.1.3 of
    RFC 1035 are found where they were put, field by field. */
module ReplyWire {
  import opened Seqs
  import opened Names
  import opened Questions
  import opened DnsWire
  import opened AReply

  /** Thirty-two bits, most significant byte first. */
  function Four(n: nat): (r: seq<byte>)
    requires n < 0x1_0000_0000
    ensures |r| == 4
  {
    Two(n / 0x1_0000) + Two(n % 0x1_0000)
  }

  /** The value of a 32-bit field that is kept in an int. */
  function Signed(n: nat): int {
    if n < 0x8000_0000 then n else n - 0x1_0000_0000
  }

  /** A record before its data are known to be an address or a name: ttl is the 32-bit number in the packet, and
      target is the name that the data of an alias hold. */
  datatype WireRecord = WireRecord(owner: WireName, rtype: nat, dnsclass: nat, ttl: nat, data: seq<byte>, target: WireName)

  predicate IsAlias(r: WireRecord) { r.rtype == 5 && r.dnsclass == 1 }

  ghost predicate RecordOk(msg: seq<byte>, r: WireRecord) {
    && NameOk(r.owner) && Leads(msg, r.owner)
    && r.rtype < 0x1_0000 && r.dnsclass < 0x1_0000 && r.ttl < 0x1_0000_0000 && |r.data| < 0x1_0000
    && (IsAlias(r) ==> NameOk(r.target) && Leads(msg, r.target) && NameBytes(r.target) <= r.data)
  }

  ghost function RecordBytes(msg: seq<byte>, r: WireRecord): seq<byte>
    requires RecordOk(msg, r)
  {
    NameBytes(r.owner) + (Two(r.rtype) + (Two(r.dnsclass) + (Four(r.ttl) + (Two(|r.data|) + r.data))))
  }

  /** What the record says. */
  ghost function Said(msg: seq<byte>, r: WireRecord): Record
    requires RecordOk(msg, r)
  {
    Record(Text(msg, r.owner), r.rtype, r.dnsclass, Signed(r.ttl), r.data, if IsAlias(r) then Text(msg, r.target) else [])
  }

  lemma FourReads(msg: seq<byte>, pos: nat, n: nat)
    requires n < 0x1_0000_0000 && At(msg, pos, Four(n))
    ensures pos + 4 <= |msg| && Be32(msg, pos) == Signed(n)
  {
    hide *;
    FourParts(n);
    AtParts(msg, pos, Two(n / 0x1_0000), Two(n % 0x1_0000));
    TwoReads(msg, pos, n / 0x1_0000);
    TwoReads(msg, pos + 2, n % 0x1_0000);
    FourIs(msg, pos, n);
  }

  lemma FourParts(n: nat)
    requires n < 0x1_0000_0000
    ensures n / 0x1_0000 < 0x1_0000 && Four(n) == Two(n / 0x1_0000) + Two(n % 0x1_0000)
  {
  }

  lemma FourIs(msg: seq<byte>, pos: nat, n: nat)
    requires pos + 4 <= |msg| && Be16(msg, pos) == n / 0x1_0000 && Be16(msg, pos + 2) == n % 0x1_0000 && n < 0x1_0000_0000
    ensures Be32(msg, pos) == Signed(n)
  {
    hide Be16;
  }

  lemma RecordParts(msg: seq<byte>, r: WireRecord)
    requires RecordOk(msg, r)
    ensures NameOk(r.owner) && Leads(msg, r.owner)
    ensures r.rtype < 0x1_0000 && r.dnsclass < 0x1_0000 && r.ttl < 0x1_0000_0000 && |r.data| < 0x1_0000
    ensures RecordBytes(msg, r) ==
      NameBytes(r.owner) + (Two(r.rtype) + (Two(r.dnsclass) + (Four(r.ttl) + (Two(|r.data|) + r.data))))
    ensures |RecordBytes(msg, r)| == |NameBytes(r.owner)| + 10 + |r.data|
    ensures IsAlias(r) ==> NameOk(r.target) && Leads(msg, r.target) && r.data == NameBytes(r.target) + r.data[|NameBytes(r.target)|..]
    ensures Said(msg, r) == Record(Spell(AllLabels(msg, r.owner)), r.rtype, r.dnsclass, Signed(r.ttl), r.data,
                                   if IsAlias(r) then Spell(AllLabels(msg, r.target)) else [])
    ensures IsAlias(r) <==> r.rtype == 5 && r.dnsclass == 1
  {
    hide Spell, NameOk, Leads, AllLabels, NameBytes, Two, Four, Signed;
  }

  /** The fixed part is read field by field. */
  lemma HeadReads(msg: seq<byte>, pos: nat, r: WireRecord)
    requires RecordOk(msg, r) && At(msg, pos, RecordBytes(msg, r))
    ensures NameOk(r.owner) && Leads(msg, r.owner) && pos <= |msg|
    ensures var d := pos + |NameBytes(r.owner)| + 10;
      && d + |r.data| <= |msg| && At(msg, d, r.data)
      && HeadAt(msg, pos) == Some(Head(Spell(AllLabels(msg, r.owner)), r.rtype, r.dnsclass, Signed(r.ttl), |r.data|, d))
  {
    hide *;
    RecordParts(msg, r);
    var n := NameBytes(r.owner);
    var p := pos + |n|;
    AtParts(msg, pos, n, Two(r.rtype) + (Two(r.dnsclass) + (Four(r.ttl) + (Two(|r.data|) + r.data))));
    FixedReads(msg, p, r.rtype, r.dnsclass, r.ttl, r.data);
    NameReads(msg, pos, r.owner);
    HeadIs(msg, pos);
  }

  lemma FixedReads(msg: seq<byte>, p: nat, rtype: nat, dnsclass: nat, ttl: nat, data: seq<byte>)
    requires rtype < 0x1_0000 && dnsclass < 0x1_0000 && ttl < 0x1_0000_0000 && |data| < 0x1_0000
    requires At(msg, p, Two(rtype) + (Two(dnsclass) + (Four(ttl) + (Two(|data|) + data))))
    ensures p + 10 + |data| <= |msg| && At(msg, p + 10, data)
    ensures Be16(msg, p) == rtype && Be16(msg, p + 2) == dnsclass && Be32(msg, p + 4) == Signed(ttl) && Be16(msg, p + 8) == |data|
  {
    hide *;
    AtParts(msg, p, Two(rtype), Two(dnsclass) + (Four(ttl) + (Two(|data|) + data)));
    AtParts(msg, p + 2, Two(dnsclass), Four(ttl) + (Two(|data|) + data));
    AtParts(msg, p + 4, Four(ttl), Two(|data|) + data);
    AtParts(msg, p + 8, Two(|data|), data);
    TwoReads(msg, p, rtype);
    TwoReads(msg, p + 2, dnsclass);
    FourReads(msg, p + 4, ttl);
    TwoReads(msg, p + 8, |data|);
  }

  lemma HeadIs(msg: seq<byte>, pos: nat)
    requires pos <= |msg| && Expand(msg, pos).Some? && pos + Expand(msg, pos).value.encoded + 10 <= |msg|
    ensures var e := Expand(msg, pos).value;
      var p := pos + e.encoded;
      HeadAt(msg, pos) == Some(Head(Spell(e.labels), Be16(msg, p), Be16(msg, p + 2), Be32(msg, p + 4), Be16(msg, p + 8), p + 10))
  {
    hide Expand, Spell, Be16, Be32;
  }

  lemma AtIs(msg: seq<byte>, pos: nat, bytes: seq<byte>)
    requires At(msg, pos, bytes)
    ensures pos + |bytes| <= |msg| && msg[pos..pos + |bytes|] == bytes
  {
  }

  /** A record that has been put into a message is read back, and the next one begins behind it. */
  lemma RecordReads(msg: seq<byte>, pos: nat, r: WireRecord)
    requires RecordOk(msg, r) && At(msg, pos, RecordBytes(msg, r))
    ensures pos + |RecordBytes(msg, r)| <= |msg|
    ensures RecordAt(msg, pos) == Some((Said(msg, r), pos + |RecordBytes(msg, r)|))
  {
    hide *;
    RecordParts(msg, r);
    HeadReads(msg, pos, r);
    var d := pos + |NameBytes(r.owner)| + 10;
    AtIs(msg, d, r.data);
    KindNumbers();
    HeadRecord(msg, pos, HeadAt(msg, pos).value);
    if IsAlias(r) {
      AtParts(msg, d, NameBytes(r.target), r.data[|NameBytes(r.target)|..]);
      NameReads(msg, d, r.target);
    }
  }

  lemma KindNumbers()
    ensures C_IN == 1 && T_A == 1 && T_CNAME == 5 && HFIXEDSZ == 12 && QFIXEDSZ == 4
  {
  }

  ghost predicate RecordsOk(msg: seq<byte>, rs: seq<WireRecord>) {
    forall i :: 0 <= i < |rs| ==> RecordOk(msg, rs[i])
  }

  ghost function RecordsBytes(msg: seq<byte>, rs: seq<WireRecord>): seq<byte>
    requires RecordsOk(msg, rs)
  {
    if rs == [] then [] else RecordBytes(msg, rs[0]) + RecordsBytes(msg, rs[1..])
  }

  ghost function AllSaid(msg: seq<byte>, rs: seq<WireRecord>): (s: seq<Record>)
    requires RecordsOk(msg, rs)
    ensures |s| == |rs| && forall i :: 0 <= i < |rs| ==> s[i] == Said(msg, rs[i])
  {
    seq(|rs|, i requires 0 <= i < |rs| => Said(msg, rs[i]))
  }

  lemma RecordsParts(msg: seq<byte>, rs: seq<WireRecord>)
    requires RecordsOk(msg, rs)
    ensures rs == [] ==> RecordsBytes(msg, rs) == [] && AllSaid(msg, rs) == []
    ensures rs != [] ==>
      && RecordOk(msg, rs[0]) && RecordsOk(msg, rs[1..])
      && RecordsBytes(msg, rs) == RecordBytes(msg, rs[0]) + RecordsBytes(msg, rs[1..])
      && AllSaid(msg, rs) == [Said(msg, rs[0])] + AllSaid(msg, rs[1..])
  {
    hide RecordOk, RecordBytes, Said;
    if rs != [] { assert AllSaid(msg, rs) == [Said(msg, rs[0])] + AllSaid(msg, rs[1..]); }
  }

  /** Records written one after another are read back, all of them, in their order. */
  lemma {:induction false} RecordsRead(msg: seq<byte>, pos: nat, rs: seq<WireRecord>)
    requires RecordsOk(msg, rs) && At(msg, pos, RecordsBytes(msg, rs))
    ensures pos <= |msg| && Records(msg, pos, |rs|) == Some(AllSaid(msg, rs))
    decreases |rs|
  {
    hide *;
    RecordsParts(msg, rs);
    AtIs(msg, pos, RecordsBytes(msg, rs));
    if rs == [] {
      NoRecords(msg, pos);
    } else {
      AtParts(msg, pos, RecordBytes(msg, rs[0]), RecordsBytes(msg, rs[1..]));
      RecordReads(msg, pos, rs[0]);
      RecordsRead(msg, pos + |RecordBytes(msg, rs[0])|, rs[1..]);
      RecordsIs(msg, pos, |rs|);
    }
  }

  lemma NoRecords(msg: seq<byte>, pos: nat)
    requires pos <= |msg|
    ensures Records(msg, pos, 0) == Some([])
  {
  }

  // ---------- the whole reply ----------

  /** A message of one question, the announced answer records and whatever follows. */
  ghost predicate Carries(msg: seq<byte>, id: nat, f: Flags, c: Counts, q: WireQuestion, rs: seq<WireRecord>) {
    && id < 0x1_0000 && FlagsOk(f) && CountsOk(c) && c.qd == 1 && c.an == |rs|
    && QuestionOk(q) && Leads(msg, q.name) && RecordsOk(msg, rs)
    && At(msg, 0, HeaderBytes(id, f, c) + (QuestionBytes(q) + RecordsBytes(msg, rs)))
  }

  /** What is decoded of a reply is the name that was asked for and the records that were put into it. */
  lemma ReplyReads(msg: seq<byte>, id: nat, f: Flags, c: Counts, q: WireQuestion, rs: seq<WireRecord>)
    requires Carries(msg, id, f, c, q, rs)
    ensures Leads(msg, q.name) && RecordsOk(msg, rs)
    ensures Decoded(msg) == Some((Text(msg, q.name), AllSaid(msg, rs)))
  {
    hide *;
    CarriesParts(msg, id, f, c, q, rs);
    AtParts(msg, 0, HeaderBytes(id, f, c), QuestionBytes(q) + RecordsBytes(msg, rs));
    AtParts(msg, 12, QuestionBytes(q), RecordsBytes(msg, rs));
    HeaderReads(msg, id, f, c);
    QuestionParts(msg, q);
    AtParts(msg, 12, NameBytes(q.name), Two(q.qtype) + Two(q.dnsclass));
    NameReads(msg, 12, q.name);
    RecordsRead(msg, 12 + |QuestionBytes(q)|, rs);
    KindNumbers();
    DecodedIs(msg);
    TextIs(msg, q.name);
  }

  lemma TextIs(msg: seq<byte>, w: WireName)
    requires Leads(msg, w)
    ensures Text(msg, w) == Spell(AllLabels(msg, w))
  {
    hide Spell, AllLabels;
  }

  lemma CarriesParts(msg: seq<byte>, id: nat, f: Flags, c: Counts, q: WireQuestion, rs: seq<WireRecord>)
    requires Carries(msg, id, f, c, q, rs)
    ensures id < 0x1_0000 && FlagsOk(f) && CountsOk(c) && c.qd == 1 && c.an == |rs|
    ensures QuestionOk(q) && Leads(msg, q.name) && RecordsOk(msg, rs)
    ensures At(msg, 0, HeaderBytes(id, f, c) + (QuestionBytes(q) + RecordsBytes(msg, rs)))
  {
    hide FlagsOk, CountsOk, QuestionOk, Leads, RecordsOk, At, HeaderBytes, QuestionBytes, RecordsBytes;
  }

  // ---------- two replies ----------

  lemma TwoSaid(msg: seq<byte>, a: WireRecord, b: WireRecord)
    requires RecordsOk(msg, [a, b])
    ensures RecordOk(msg, a) && RecordOk(msg, b) && AllSaid(msg, [a, b]) == [Said(msg, a), Said(msg, b)]
  {
    hide RecordOk, Said;
    var rs := [a, b];
    assert rs[0] == a && rs[1] == b;
  }

  lemma NothingYet(host: seq<byte>, a: Record, b: Record)
    ensures HostAfter(host, []) == host && Aliases([]) == [] && Addresses(host, []) == [] && ChainTtl([]) == 0x7FFF_FFFF
    ensures [] + [a] == [a] && [a] + [b] == [a, b]
    ensures forall x: AddrTtl :: [] + [x] == [x]
    ensures forall x: seq<byte> :: [] + [x] == [x]
  {
  }

  /** What one more record adds, by its type and class. */
  lemma OneMore(host: seq<byte>, rs: seq<Record>, r: Record)
    ensures var alias := r.rtype == 5 && r.dnsclass == 1;
      && HostAfter(host, rs + [r]) == (if alias then r.target else HostAfter(host, rs))
      && Aliases(rs + [r]) == (if alias then Aliases(rs) + [r.owner] else Aliases(rs))
      && ChainTtl(rs + [r]) == (if alias && ChainTtl(rs) > r.ttl then r.ttl else ChainTtl(rs))
      && Addresses(host, rs + [r]) ==
         (if r.rtype == 1 && r.dnsclass == 1 && |r.data| == 4 && SameIgnoringCase(r.owner, HostAfter(host, rs)) then
            Addresses(host, rs) + [AddrTtl(r.data, r.ttl)]
          else Addresses(host, rs))
  {
    hide *;
    ChainNext(host, rs, r);
    AddressesNext(host, rs, r);
    Kinds(r);
    KindNumbers();
  }

  /** A question that an alias answers, with the address of the name it leads to: the entry bears that name, the
      alias is listed, and the address is kept no longer than the alias. */
  lemma AliasThenAddress(msg: seq<byte>, id: nat, f: Flags, c: Counts, q: WireQuestion, alias: WireRecord, address: WireRecord,
                         wantHost: bool, room: nat)
    requires Carries(msg, id, f, c, q, [alias, address])
    requires alias.rtype == 5 && alias.dnsclass == 1 && address.rtype == 1 && address.dnsclass == 1 && |address.data| == 4
    requires RecordOk(msg, alias) && RecordOk(msg, address) && Leads(msg, alias.owner) && Leads(msg, address.owner)
    requires Leads(msg, alias.target) && SameIgnoringCase(Text(msg, address.owner), Text(msg, alias.target))
    ensures ParseA(msg, wantHost, room) ==
      Reply(0, if wantHost then Some(HostEnt(Text(msg, alias.target), [Text(msg, alias.owner)], [address.data])) else None,
            if room == 0 then []
            else [AddrTtl(address.data, if Signed(alias.ttl) < Signed(address.ttl) then Signed(alias.ttl) else Signed(address.ttl))])
  {
    hide *;
    ReplyReads(msg, id, f, c, q, [alias, address]);
    TwoSaid(msg, alias, address);
    var host, x, y := Text(msg, q.name), Said(msg, alias), Said(msg, address);
    SaidIs(msg, alias);
    SaidIs(msg, address);
    NothingYet(host, x, y);
    OneMore(host, [], x);
    OneMore(host, [x], y);
    ParseIs(msg, wantHost, room);
    OneAddress(host, [x, y], wantHost, room, y);
  }

  /** The same for an address of the name that was asked for, with an alias behind it: the address stays, and the
      alias limits it although it comes later. */
  lemma AddressThenAlias(msg: seq<byte>, id: nat, f: Flags, c: Counts, q: WireQuestion, address: WireRecord, alias: WireRecord,
                         wantHost: bool, room: nat)
    requires Carries(msg, id, f, c, q, [address, alias])
    requires alias.rtype == 5 && alias.dnsclass == 1 && address.rtype == 1 && address.dnsclass == 1 && |address.data| == 4
    requires RecordOk(msg, alias) && RecordOk(msg, address) && Leads(msg, alias.owner) && Leads(msg, address.owner)
    requires Leads(msg, alias.target) && Leads(msg, q.name) && SameIgnoringCase(Text(msg, address.owner), Text(msg, q.name))
    ensures ParseA(msg, wantHost, room) ==
      Reply(0, if wantHost then Some(HostEnt(Text(msg, alias.target), [Text(msg, alias.owner)], [address.data])) else None,
            if room == 0 then []
            else [AddrTtl(address.data, if Signed(alias.ttl) < Signed(address.ttl) then Signed(alias.ttl) else Signed(address.ttl))])
  {
    hide *;
    ReplyReads(msg, id, f, c, q, [address, alias]);
    TwoSaid(msg, address, alias);
    var host, x, y := Text(msg, q.name), Said(msg, address), Said(msg, alias);
    SaidIs(msg, alias);
    SaidIs(msg, address);
    NothingYet(host, x, y);
    OneMore(host, [], x);
    OneMore(host, [x], y);
    ParseIs(msg, wantHost, room);
    OneAddress(host, [x, y], wantHost, room, x);
  }

  lemma SaidIs(msg: seq<byte>, r: WireRecord)
    requires RecordOk(msg, r)
    ensures Leads(msg, r.owner) && (r.rtype == 5 && r.dnsclass == 1 ==> Leads(msg, r.target))
    ensures var s := Said(msg, r);
      && s.owner == Text(msg, r.owner) && s.rtype == r.rtype && s.dnsclass == r.dnsclass && s.ttl == Signed(r.ttl) && s.data == r.data
      && (r.rtype == 5 && r.dnsclass == 1 ==> s.target == Text(msg, r.target))
      && s.ttl <= 0x7FFF_FFFF
  {
    hide Text, Leads, NameOk, NameBytes;
  }

  /** An understanding with one alias at most and one address. */
  lemma OneAddress(host: seq<byte>, rs: seq<Record>, wantHost: bool, room: nat, r: Record)
    requires Addresses(host, rs) == [AddrTtl(r.data, r.ttl)]
    ensures Understand(host, rs, wantHost, room) ==
      Reply(0, if wantHost then Some(HostEnt(HostAfter(host, rs), Aliases(rs), [r.data])) else None,
            if room == 0 then [] else [AddrTtl(r.data, if r.ttl > ChainTtl(rs) then ChainTtl(rs) else r.ttl)])
  {
    hide Addresses, HostAfter, Aliases, ChainTtl;
    var one := [AddrTtl(r.data, r.ttl)];
    assert room == 0 ==> one[..room] == [];
    assert AddrsOf(one) == [r.data];
    assert Clamped([], ChainTtl(rs)) == [];
    assert Clamped(one, ChainTtl(rs)) == [Clamp(one[0], ChainTtl(rs))];
  }
}
