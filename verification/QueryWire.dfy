/** The packet that ares_mkquery builds, in the terms of section 4.1 of RFC 1035, and which names it takes. */
module QueryWire {
  import opened Seqs
  import opened Names
  import opened Questions
  import opened MkQuery
  import W = DnsWire

  /** A query: nothing set but the wish for recursion. */
  function QueryFlags(rd: bool): W.Flags { W.Flags(false, 0, false, false, rd, false, 0, 0) }

  ghost predicate LabelsOk(labels: seq<seq<byte>>) { forall l :: l in labels ==> 1 <= |l| <= 63 && 0 !in l }

  lemma LabelsAre(labels: seq<seq<byte>>)
    ensures LabelsOk(labels) <==> ValidLabels(labels)
    ensures LabelsOk(labels) ==> W.NameOk(W.WireName(labels, None))
  {
  }

  lemma {:induction false} WireIsName(labels: seq<seq<byte>>)
    requires ValidLabels(labels) && W.NameOk(W.WireName(labels, None))
    ensures Wire(labels) + [0] == W.NameBytes(W.WireName(labels, None))
    decreases |labels|
  {
    hide *;
    var w := W.WireName(labels, None);
    W.NameParts(w);
    WireIs(labels);
    if labels == [] {
      assert [] + [0 as byte] == [0];
    } else {
      RestIs(labels);
      WireIsName(labels[1..]);
      PrefixedIs(labels[0]);
      assert Wire(labels) + [0] == Prefixed(labels[0]) + (Wire(labels[1..]) + [0]);
    }
  }

  lemma RestIs(labels: seq<seq<byte>>)
    requires labels != []
    ensures W.Rest(W.WireName(labels, None)) == W.WireName(labels[1..], None)
  {
  }

  lemma PrefixedIs(l: seq<byte>)
    requires |l| <= MAX_LABEL
    ensures MAX_LABEL == 63 && Prefixed(l) == [|l|] + l
  {
  }

  /** The packet is a header that asks for recursion or not and announces one question, and the question: the
      name label by label, type and class, most significant byte first. */
  lemma PacketBytes(labels: seq<seq<byte>>, dnsclass: nat, qtype: nat, id: nat, rd: bool)
    requires LabelsOk(labels) && id < 0x1_0000 && qtype < 0x1_0000 && dnsclass < 0x1_0000
    ensures WireName(Spell(labels)).Some?
    ensures W.QuestionOk(W.WireQuestion(W.WireName(labels, None), qtype, dnsclass))
    ensures Packet(Spell(labels), dnsclass, qtype, id, rd) ==
      W.HeaderBytes(id, QueryFlags(rd), W.Counts(1, 0, 0, 0)) +
      W.QuestionBytes(W.WireQuestion(W.WireName(labels, None), qtype, dnsclass))
  {
    hide *;
    LabelsAre(labels);
    EncodeSpell(labels);
    NotJustDot(labels);
    WireNameIs(Spell(labels));
    WireIsName(labels);
    PacketIs(Spell(labels), dnsclass, qtype, id, rd);
    HeaderIs(id, rd);
    TailIs(qtype, dnsclass);
    QuestionIs(labels, qtype, dnsclass);
    assert Header(id, rd) + Wire(labels) + [0] + Tail(qtype, dnsclass)
        == Header(id, rd) + ((Wire(labels) + [0]) + Tail(qtype, dnsclass));
  }

  lemma HeaderIs(id: nat, rd: bool)
    requires id < 0x1_0000
    ensures W.FlagsOk(QueryFlags(rd)) && W.CountsOk(W.Counts(1, 0, 0, 0))
    ensures Header(id, rd) == W.HeaderBytes(id, QueryFlags(rd), W.Counts(1, 0, 0, 0))
  {
    HeaderParts(id, rd);
    hide *;
    Join(id / 256, id % 256, if rd then 1 else 0);
  }

  lemma HeaderParts(id: nat, rd: bool)
    requires id < 0x1_0000
    ensures W.FlagsOk(QueryFlags(rd)) && W.CountsOk(W.Counts(1, 0, 0, 0))
    ensures id / 256 < 256 && Header(id, rd) == [id / 256, id % 256, if rd then 1 else 0, 0, 0, 1, 0, 0, 0, 0, 0, 0]
    ensures W.HeaderBytes(id, QueryFlags(rd), W.Counts(1, 0, 0, 0)) ==
      [id / 256, id % 256] + [if rd then 1 else 0, 0] + [0, 1] + [0, 0] + [0, 0] + [0, 0]
  {
    hide *;
    HeaderDef(id, rd);
    QueryFlagsOk(rd);
    HeaderUnfold(id, QueryFlags(rd));
    TwoIs(id);
    TwoIs(1);
    TwoIs(0);
  }

  lemma HeaderDef(id: nat, rd: bool)
    requires id < 0x1_0000
    ensures id / 256 < 256 && Header(id, rd) == [id / 256, id % 256, if rd then 1 else 0, 0, 0, 1, 0, 0, 0, 0, 0, 0]
  {
  }

  lemma TwoIs(n: nat)
    requires n < 0x1_0000
    ensures n / 256 < 256 && W.Two(n) == [n / 256, n % 256]
  {
  }

  lemma QueryFlagsOk(rd: bool)
    ensures W.FlagsOk(QueryFlags(rd)) && W.FlagBytes(QueryFlags(rd)) == [if rd then 1 else 0, 0]
  {
    var f := QueryFlags(rd);
    FlagsAt(f);
    hide W.FlagBytes;
  }

  lemma FlagsAt(f: W.Flags)
    requires W.FlagsOk(f)
    ensures W.FlagBytes(f)[0] == W.Bit(f.qr) * 128 + f.opcode * 8 + W.Bit(f.aa) * 4 + W.Bit(f.tc) * 2 + W.Bit(f.rd)
    ensures W.FlagBytes(f)[1] == W.Bit(f.ra) * 128 + f.z * 16 + f.rcode
  {
  }

  lemma HeaderUnfold(id: nat, f: W.Flags)
    requires id < 0x1_0000 && W.FlagsOk(f)
    ensures W.CountsOk(W.Counts(1, 0, 0, 0))
    ensures W.HeaderBytes(id, f, W.Counts(1, 0, 0, 0)) == W.Two(id) + W.FlagBytes(f) + W.Two(1) + W.Two(0) + W.Two(0) + W.Two(0)
  {
    hide W.Two, W.FlagBytes;
  }

  lemma Join(a: byte, b: byte, c: byte)
    ensures [a, b] + [c, 0] + [0, 1] + [0, 0] + [0, 0] + [0, 0] == [a, b, c, 0, 0, 1, 0, 0, 0, 0, 0, 0]
  {
  }

  lemma TailIs(qtype: nat, dnsclass: nat)
    requires qtype < 0x1_0000 && dnsclass < 0x1_0000
    ensures Tail(qtype, dnsclass) == W.Two(qtype) + W.Two(dnsclass)
  {
  }

  lemma QuestionIs(labels: seq<seq<byte>>, qtype: nat, dnsclass: nat)
    requires W.NameOk(W.WireName(labels, None)) && qtype < 0x1_0000 && dnsclass < 0x1_0000
    ensures var q := W.WireQuestion(W.WireName(labels, None), qtype, dnsclass);
      W.QuestionOk(q) && W.QuestionBytes(q) == W.NameBytes(q.name) + (W.Two(qtype) + W.Two(dnsclass))
  {
    hide W.NameOk, W.NameBytes, W.Two;
  }

  /** What a server reads in it. */
  lemma PacketReads(labels: seq<seq<byte>>, dnsclass: nat, qtype: nat, id: nat, rd: bool)
    requires LabelsOk(labels) && id < 0x1_0000 && qtype < 0x1_0000 && dnsclass < 0x1_0000
    ensures WireName(Spell(labels)).Some?
    ensures var packet := Packet(Spell(labels), dnsclass, qtype, id, rd);
      && |packet| >= 16 && Be16(packet, 0) == id && packet[2] == (if rd then 1 else 0) && packet[3] == 0
      && Be16(packet, 4) == 1 && Be16(packet, 6) == 0 && Be16(packet, 8) == 0 && Be16(packet, 10) == 0
      && QuestionAt(packet, 12) == Some((Question(Spell(labels), qtype, dnsclass), |packet|))
  {
    hide *;
    PacketBytes(labels, dnsclass, qtype, id, rd);
    var packet := Packet(Spell(labels), dnsclass, qtype, id, rd);
    var q := W.WireQuestion(W.WireName(labels, None), qtype, dnsclass);
    var f, c := QueryFlags(rd), W.Counts(1, 0, 0, 0);
    HeaderIs(id, rd);
    WholeAt(packet);
    W.AtParts(packet, 0, W.HeaderBytes(id, f, c), W.QuestionBytes(q));
    W.HeaderReads(packet, id, f, c);
    NoPointer(packet, labels);
    W.QuestionReads(packet, 12, q);
    W.QuestionParts(packet, q);
    FlagsAre(packet, rd);
  }

  lemma WholeAt(msg: seq<byte>)
    ensures W.At(msg, 0, msg)
  {
    assert msg[0..|msg|] == msg;
  }

  lemma NoPointer(msg: seq<byte>, labels: seq<seq<byte>>)
    ensures var w := W.WireName(labels, None); W.Leads(msg, w) && W.AllLabels(msg, w) == labels
  {
    assert labels + [] == labels;
    hide Expand;
  }

  lemma FlagsAre(msg: seq<byte>, rd: bool)
    requires |msg| >= 12 && W.FlagsOk(QueryFlags(rd)) && msg[2..4] == W.FlagBytes(QueryFlags(rd))
    ensures msg[2] == (if rd then 1 else 0) && msg[3] == 0
  {
    hide *;
    QueryFlagsOk(rd);
    assert msg[2] == msg[2..4][0] && msg[3] == msg[2..4][1];
  }

  // ---------- which names are taken ----------

  /** The bytes that the labels take on the wire, the final zero included. */
  function Size(labels: seq<seq<byte>>): nat {
    if labels == [] then 1 else |labels[0]| + 1 + Size(labels[1..])
  }

  lemma {:induction false} SizeIs(labels: seq<seq<byte>>)
    requires ValidLabels(labels)
    ensures |Wire(labels)| + 1 == Size(labels)
    decreases |labels|
  {
    WireIs(labels);
    if labels != [] { SizeIs(labels[1..]); }
    hide Wire, ValidLabels;
  }

  lemma {:induction false} LongRefused(labels: seq<seq<byte>>)
    requires (forall l :: l in labels ==> l != []) && exists l :: l in labels && |l| > MAX_LABEL
    ensures Encode(Spell(labels)) == None
    decreases |labels|
  {
    hide *;
    var l, more := labels[0], labels[1..];
    assert l in labels;
    var t: seq<byte> := if more == [] then [] else [DOT] + Spell(more);
    SpellCons(labels);
    assert more == [] ==> Escape(l) + [] == Escape(l) + t;
    if |l| > MAX_LABEL {
      LongFirst(l, t);
    } else {
      var x :| x in labels && |x| > MAX_LABEL;
      assert labels == [l] + more && x in more;
      assert forall y :: y in more ==> y in labels;
      LongRefused(more);
      EncodeFirst(l, t);
      assert t[1..] == Spell(more);
    }
  }

  lemma LongFirst(l: seq<byte>, rest: seq<byte>)
    requires |l| > MAX_LABEL && (rest == [] || rest[0] == DOT)
    ensures Encode(Escape(l) + rest) == None
  {
    UnescapeLabel(l, rest);
    EscapeFirst(l);
    hide Raw, Rest, Escape, Prefixed;
  }

  /** A query is built for exactly the names of labels of 1 to 63 bytes that take 255 bytes on the wire; a
      name whose last label ends in a period may take one more, because its escape is miscounted. */
  lemma TakenIff(labels: seq<seq<byte>>)
    requires forall l :: l in labels ==> l != [] && 0 !in l
    ensures Accepted(Spell(labels)) <==>
      && (forall l :: l in labels ==> |l| <= 63)
      && Size(labels) <= 255 + if labels != [] && EndsInDot(labels[|labels| - 1]) then 1 else 0
  {
    hide *;
    Limits();
    if exists l :: l in labels && |l| > MAX_LABEL {
      LongRefused(labels);
      assert labels[0] in labels;
      NotJustDotLong(labels);
      WireNameIs(Spell(labels));
      AcceptedIs(Spell(labels));
    } else {
      LabelsAre(labels);
      FitLabels(labels);
      EncodeSpell(labels);
      NotJustDot(labels);
      WireNameIs(Spell(labels));
      ReportedLength(Spell(labels));
      AcceptedIs(Spell(labels));
      SizeIs(labels);
      if labels != [] {
        LastLabelDot(labels);
        EndsInDotIs(labels[|labels| - 1]);
      } else {
        NoEscapedDot();
      }
    }
  }

  predicate EndsInDot(l: seq<byte>) { l != [] && l[|l| - 1] == 46 }

  lemma EndsInDotIs(l: seq<byte>)
    ensures EndsInDot(l) <==> |l| > 0 && l[|l| - 1] == DOT
  {
  }

  lemma NoEscapedDot()
    ensures !EndsEscapedDot(Spell([]))
  {
  }

  lemma FitLabels(labels: seq<seq<byte>>)
    requires forall l :: l in labels ==> l != [] && 0 !in l && |l| <= 63
    ensures LabelsOk(labels)
  {
  }

  lemma Limits()
    ensures MAX_LABEL == 63 && MAX_NAME == 255
  {
  }

  lemma AcceptedIs(name: seq<byte>)
    ensures Accepted(name) <==> NameSpace(name) <= MAX_NAME && WireName(name).Some?
  {
    hide NameSpace, WireName;
  }

  lemma NotJustDotLong(labels: seq<seq<byte>>)
    requires labels != [] && labels[0] != []
    ensures Spell(labels) != [DOT]
  {
    SpellCons(labels);
    EscapeFirst(labels[0]);
    hide Escape, Spell;
  }

  // ---------- any text of a name ----------

  /** How a text is taken apart: a period ends a label, a backslash stands for the byte behind it, and for
      itself at the very end. */
  lemma TextRead(b: byte, c: byte, u: seq<byte>)
    ensures Raw([]) == [] && Raw([46] + u) == [] && Rest([46] + u) == [46] + u
    ensures Raw([92, c] + u) == [c] + Raw(u) && Rest([92, c] + u) == Rest(u)
    ensures Raw([92]) == [92] && Rest([92]) == []
    ensures b != 46 && b != 92 ==> Raw([b] + u) == [b] + Raw(u) && Rest([b] + u) == Rest(u)
  {
    var e: seq<byte> := [];
    var x, y, z := [92, c] + u, [b] + u, [92 as byte];
    assert Step(x) == 2 && x[2..] == u;
    assert Step(z) == 1 && z[1..] == e;
    assert b != 92 ==> Step(y) == 1 && y[1..] == u;
    assert [92] + e == z;
  }

  /** A period at the end of a name changes nothing; one at the beginning, or two in a row, are refused. */
  lemma {:induction false} Periods(labels: seq<seq<byte>>, u: seq<byte>)
    requires ValidLabels(labels) && labels != []
    ensures Encode(Spell(labels) + [46]) == Encode(Spell(labels))
    ensures Encode([46] + u) == None && Encode(Spell(labels) + ([46, 46] + u)) == None
    decreases |labels|
  {
    hide *;
    var l, more := labels[0], labels[1..];
    WireIs(labels);
    EncodeDot(u);
    EncodeDot([]);
    PeriodTail(labels, [46]);
    PeriodTail(labels, [46, 46] + u);
    PeriodTail(labels, []);
    assert Spell(labels) + [] == Spell(labels);
    assert [46 as byte] + [] == [46];
    if more == [] {
      assert ([46, 46] + u)[1..] == [46] + u && [46 as byte][1..] == [];
      EncodeNothing();
      assert Prefixed(l) + [] == Prefixed(l);
    } else {
      Periods(more, u);
      assert Spell(more) + [] == Spell(more);
    }
  }

  lemma EncodeNothing()
    ensures Encode([]) == Some([])
  {
  }

  lemma EncodeDot(u: seq<byte>)
    ensures Encode([46] + u) == None
  {
  }

  /** The first label of a spelled name with something behind it. */
  lemma PeriodTail(labels: seq<seq<byte>>, t: seq<byte>)
    requires ValidLabels(labels) && labels != [] && (t == [] || t[0] == 46)
    ensures |labels[0]| <= MAX_LABEL
    ensures var rest := if |labels| == 1 then t else [46] + (Spell(labels[1..]) + t);
      Encode(Spell(labels) + t) ==
        if rest == [] then Some(Prefixed(labels[0]))
        else match Encode(rest[1..]) case None => None case Some(w) => Some(Prefixed(labels[0]) + w)
    ensures |labels| > 1 ==> ([46] + (Spell(labels[1..]) + t))[1..] == Spell(labels[1..]) + t
  {
    hide *;
    var l := labels[0];
    var rest: seq<byte> := if |labels| == 1 then t else [46] + (Spell(labels[1..]) + t);
    WireIs(labels);
    SpellCons(labels);
    DotIs();
    assert |labels| > 1 ==> Escape(l) + ([46] + Spell(labels[1..])) + t == Escape(l) + rest;
    assert |labels| == 1 ==> Escape(l) + [] + t == Escape(l) + rest;
    assert Spell(labels) + t == Escape(l) + rest;
    EncodeFirst(l, rest);
  }

  lemma DotIs()
    ensures DOT == 46
  {
  }

  lemma EncodeFirst(l: seq<byte>, rest: seq<byte>)
    requires 1 <= |l| <= MAX_LABEL && (rest == [] || rest[0] == DOT)
    ensures Encode(Escape(l) + rest) ==
        if rest == [] then Some(Prefixed(l))
        else match Encode(rest[1..]) case None => None case Some(w) => Some(Prefixed(l) + w)
  {
    UnescapeLabel(l, rest);
    EscapeFirst(l);
    hide Raw, Rest, Escape, Prefixed;
  }
}
