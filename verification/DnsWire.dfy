/** Messages as they are put together, byte by byte: headers, names, questions and records of section 4.1 of
    RFC 1035. What is built here is what the readers find. */
module DnsWire {
  import opened Seqs
  import opened Names
  import opened Questions

  /** Sixteen bits, most significant byte first. */
  function Two(n: nat): (r: seq<byte>)
    requires n < 0x1_0000
    ensures |r| == 2
  {
    [n / 0x100, n % 0x100]
  }

  /** The bytes stand in the message at this position. */
  ghost predicate At(msg: seq<byte>, pos: nat, bytes: seq<byte>) {
    pos + |bytes| <= |msg| && msg[pos..pos + |bytes|] == bytes
  }

  lemma AtParts(msg: seq<byte>, pos: nat, a: seq<byte>, b: seq<byte>)
    requires At(msg, pos, a + b)
    ensures At(msg, pos, a) && At(msg, pos + |a|, b) && pos + |a| + |b| <= |msg|
  {
    var w := msg[pos..pos + |a + b|];
    SliceOfSlice(msg, pos, pos + |a + b|, 0, |a|);
    SliceOfSlice(msg, pos, pos + |a + b|, |a|, |a + b|);
    assert w[0..|a|] == a && w[|a|..|a + b|] == b;
  }

  lemma AtByte(msg: seq<byte>, pos: nat, bytes: seq<byte>, i: nat)
    requires At(msg, pos, bytes) && i < |bytes|
    ensures pos + i < |msg| && msg[pos + i] == bytes[i]
  {
    assert msg[pos..pos + |bytes|][i] == bytes[i];
  }

  lemma TwoReads(msg: seq<byte>, pos: nat, n: nat)
    requires n < 0x1_0000 && At(msg, pos, Two(n))
    ensures pos + 2 <= |msg| && Be16(msg, pos) == n
  {
    AtByte(msg, pos, Two(n), 0);
    AtByte(msg, pos, Two(n), 1);
  }

  // ---------- the header ----------

  datatype Flags = Flags(qr: bool, opcode: nat, aa: bool, tc: bool, rd: bool, ra: bool, z: nat, rcode: nat)

  ghost predicate FlagsOk(f: Flags) { f.opcode < 16 && f.z < 8 && f.rcode < 16 }

  function Bit(b: bool): nat { if b then 1 else 0 }

  /** QR, four bits of OPCODE, AA, TC and RD; RA, three bits of Z and four of RCODE. */
  ghost function FlagBytes(f: Flags): (r: seq<byte>)
    requires FlagsOk(f)
    ensures |r| == 2
  {
    [Bit(f.qr) * 128 + f.opcode * 8 + Bit(f.aa) * 4 + Bit(f.tc) * 2 + Bit(f.rd), Bit(f.ra) * 128 + f.z * 16 + f.rcode]
  }

  datatype Counts = Counts(qd: nat, an: nat, ns: nat, ar: nat)

  ghost predicate CountsOk(c: Counts) { c.qd < 0x1_0000 && c.an < 0x1_0000 && c.ns < 0x1_0000 && c.ar < 0x1_0000 }

  ghost function HeaderBytes(id: nat, f: Flags, c: Counts): (r: seq<byte>)
    requires id < 0x1_0000 && FlagsOk(f) && CountsOk(c)
    ensures |r| == 12
  {
    Two(id) + FlagBytes(f) + Two(c.qd) + Two(c.an) + Two(c.ns) + Two(c.ar)
  }

  lemma HeaderReads(msg: seq<byte>, id: nat, f: Flags, c: Counts)
    requires id < 0x1_0000 && FlagsOk(f) && CountsOk(c) && At(msg, 0, HeaderBytes(id, f, c))
    ensures |msg| >= 12
    ensures Be16(msg, 0) == id && msg[2..4] == FlagBytes(f)
    ensures Be16(msg, 4) == c.qd && Be16(msg, 6) == c.an && Be16(msg, 8) == c.ns && Be16(msg, 10) == c.ar
  {
    hide FlagBytes;
    var h := HeaderBytes(id, f, c);
    forall i | 0 <= i < 12 ensures i < |msg| && msg[i] == h[i] { AtByte(msg, 0, h, i); }
  }

  // ---------- names ----------

  /** Labels, and then the end of the name or a pointer to where it goes on. */
  datatype WireName = WireName(labels: seq<seq<byte>>, pointer: Option<nat>)

  ghost predicate NameOk(w: WireName) {
    (forall l :: l in w.labels ==> 1 <= |l| < 192) && (w.pointer.Some? ==> w.pointer.value < 16384)
  }

  ghost function NameBytes(w: WireName): (r: seq<byte>)
    requires NameOk(w)
    ensures r != []
    decreases |w.labels|
  {
    if w.labels == [] then
      if w.pointer.Some? then [192 + w.pointer.value / 256, w.pointer.value % 256] else [0]
    else
      assert w.labels[0] in w.labels;
      var n: byte := |w.labels[0]|;
      [n] + w.labels[0] + NameBytes(Rest(w))
  }

  function Rest(w: WireName): WireName
    requires w.labels != []
  {
    w.(labels := w.labels[1..])
  }

  /** The pointer, if there is one, leads to a name. */
  ghost predicate Leads(msg: seq<byte>, w: WireName) {
    w.pointer.Some? ==> Expand(msg, w.pointer.value).Some?
  }

  /** All labels of the name, those behind the pointer included. */
  ghost function AllLabels(msg: seq<byte>, w: WireName): seq<seq<byte>>
    requires Leads(msg, w)
  {
    w.labels + if w.pointer.Some? then Expand(msg, w.pointer.value).value.labels else []
  }

  ghost function Text(msg: seq<byte>, w: WireName): seq<byte>
    requires Leads(msg, w)
  {
    Spell(AllLabels(msg, w))
  }

  lemma ExpandHops(msg: seq<byte>, pos: nat) returns (k: nat)
    requires Expand(msg, pos).Some?
    ensures Ends(msg, pos, k) && Expand(msg, pos).value.labels == LabelsAt(msg, pos, k)
  {
    k :| Ends(msg, pos, k);
    ExpandIs(msg, pos, k);
  }

  lemma PointerHop(msg: seq<byte>, pos: nat, t: nat, k: nat)
    requires t < 16384 && At(msg, pos, [192 + t / 256, t % 256]) && Ends(msg, t, k)
    ensures Ends(msg, pos, k + 1) && LabelsAt(msg, pos, k + 1) == LabelsAt(msg, t, k) && EncodedLength(msg, pos, k + 1) == 2
  {
    var bytes: seq<byte> := [192 + t / 256, t % 256];
    AtByte(msg, pos, bytes, 0);
    AtByte(msg, pos, bytes, 1);
    assert HopAt(msg, pos) == Jump(t);
  }

  lemma LabelHop(msg: seq<byte>, pos: nat, l: seq<byte>, k: nat)
    requires 1 <= |l| < 192 && At(msg, pos, [|l|] + l) && Ends(msg, pos + |l| + 1, k)
    ensures Ends(msg, pos, k + 1) && LabelsAt(msg, pos, k + 1) == [l] + LabelsAt(msg, pos + |l| + 1, k)
    ensures EncodedLength(msg, pos, k + 1) == |l| + 1 + EncodedLength(msg, pos + |l| + 1, k)
  {
    var n: byte := |l|;
    var bytes := [n] + l;
    AtByte(msg, pos, bytes, 0);
    AtParts(msg, pos, [n], l);
    assert msg[pos + 1..pos + 1 + |l|] == l;
    assert HopAt(msg, pos) == Label(|l|);
  }

  lemma EndHop(msg: seq<byte>, pos: nat)
    requires At(msg, pos, [0])
    ensures Ends(msg, pos, 0) && LabelsAt(msg, pos, 0) == [] && EncodedLength(msg, pos, 0) == 1
  {
    AtByte(msg, pos, [0], 0);
  }

  lemma NameParts(w: WireName)
    requires NameOk(w)
    ensures w.pointer.Some? ==> w.pointer.value < 16384
    ensures w.labels == [] ==>
      NameBytes(w) == if w.pointer.Some? then [192 + w.pointer.value / 256, w.pointer.value % 256] else [0]
    ensures w.labels != [] ==>
      && 1 <= |w.labels[0]| < 192 && NameOk(Rest(w))
      && NameBytes(w) == ([|w.labels[0]|] + w.labels[0]) + NameBytes(Rest(w))
      && w.labels == [w.labels[0]] + Rest(w).labels
  {
    if w.labels != [] { assert w.labels[0] in w.labels; }
  }

  lemma {:induction false} NameHops(msg: seq<byte>, pos: nat, w: WireName) returns (k: nat)
    requires NameOk(w) && Leads(msg, w) && At(msg, pos, NameBytes(w))
    ensures Ends(msg, pos, k) && LabelsAt(msg, pos, k) == AllLabels(msg, w) && EncodedLength(msg, pos, k) == |NameBytes(w)|
    decreases |w.labels|
  {
    hide *;
    NameParts(w);
    AllParts(msg, w);
    if w.labels == [] {
      if w.pointer.Some? {
        k := ExpandHops(msg, w.pointer.value);
        PointerHop(msg, pos, w.pointer.value, k);
        k := k + 1;
      } else {
        EndHop(msg, pos);
        k := 0;
      }
    } else {
      var l := w.labels[0];
      AtParts(msg, pos, [|l|] + l, NameBytes(Rest(w)));
      k := NameHops(msg, pos + |l| + 1, Rest(w));
      LabelHop(msg, pos, l, k);
      k := k + 1;
    }
  }

  lemma AllParts(msg: seq<byte>, w: WireName)
    requires Leads(msg, w)
    ensures w.labels == [] ==> AllLabels(msg, w) == if w.pointer.Some? then Expand(msg, w.pointer.value).value.labels else []
    ensures w.pointer.Some? ==> Expand(msg, w.pointer.value).Some?
    ensures w.labels != [] ==> Leads(msg, Rest(w)) && AllLabels(msg, w) == [w.labels[0]] + AllLabels(msg, Rest(w))
  {
    hide Expand;
    if w.labels != [] { assert w.labels == [w.labels[0]] + w.labels[1..]; }
  }

  /** A name that has been put into a message is expanded to its labels, followed by those that its pointer
      leads to, and takes the bytes that were put there. */
  lemma NameReads(msg: seq<byte>, pos: nat, w: WireName)
    requires NameOk(w) && Leads(msg, w) && At(msg, pos, NameBytes(w))
    ensures Expand(msg, pos) == Some(Expansion(AllLabels(msg, w), |NameBytes(w)|))
  {
    hide *;
    var k := NameHops(msg, pos, w);
    ExpandIs(msg, pos, k);
  }

  /** The text of a name: a period between the labels, and a backslash before each period and each backslash of a label. */
  lemma TextOf(l: seq<byte>, rest: seq<seq<byte>>, a: seq<byte>, b: seq<byte>, c: byte)
    ensures Spell([]) == [] && Spell([l]) == Escape(l)
    ensures rest != [] ==> Spell([l] + rest) == Escape(l) + [46] + Spell(rest)
    ensures Escape([]) == [] && Escape(a + b) == Escape(a) + Escape(b)
    ensures Escape([c]) == if c == 46 || c == 92 then [92, c] else [c]
  {
    EscapeConcat(a, b);
    assert [c][1..] == [];
    var all := [l] + rest;
    assert all[0] == l && all[1..] == rest;
    assert Dotted([l]) == Escape(l) + [46];
    if rest != [] {
      DottedEmpty(rest);
      assert Dotted(all) == Escape(l) + [46] + Dotted(rest);
    }
  }

  /** The comparison of two names without a NUL: letter by letter, whatever the case. */
  lemma SameTextIs(a: seq<byte>, b: seq<byte>)
    requires 0 !in a && 0 !in b
    ensures SameIgnoringCase(a, b) <==> |a| == |b| && forall i :: 0 <= i < |a| ==>
      a[i] == b[i] || (65 <= a[i] <= 90 && b[i] == a[i] + 32) || (65 <= b[i] <= 90 && a[i] == b[i] + 32)
  {
    WholeCString(a);
    WholeCString(b);
    var x, y := Lowered(a), Lowered(b);
    if x == y {
      forall i | 0 <= i < |a|
        ensures a[i] == b[i] || (65 <= a[i] <= 90 && b[i] == a[i] + 32) || (65 <= b[i] <= 90 && a[i] == b[i] + 32)
      {
        assert x[i] == y[i];
      }
    }
  }

  lemma {:induction false} WholeCString(s: seq<byte>)
    requires 0 !in s
    ensures CString(s) == s
  {
    if s != [] {
      WholeCString(s[1..]);
      assert s == [s[0]] + s[1..];
    }
  }

  // ---------- questions ----------

  datatype WireQuestion = WireQuestion(name: WireName, qtype: nat, dnsclass: nat)

  ghost predicate QuestionOk(q: WireQuestion) { NameOk(q.name) && q.qtype < 0x1_0000 && q.dnsclass < 0x1_0000 }

  ghost function QuestionBytes(q: WireQuestion): seq<byte>
    requires QuestionOk(q)
  {
    NameBytes(q.name) + (Two(q.qtype) + Two(q.dnsclass))
  }

  ghost function Asked(msg: seq<byte>, q: WireQuestion): Question
    requires Leads(msg, q.name)
  {
    Question(Text(msg, q.name), q.qtype, q.dnsclass)
  }

  lemma QuestionReads(msg: seq<byte>, pos: nat, q: WireQuestion)
    requires QuestionOk(q) && Leads(msg, q.name) && At(msg, pos, QuestionBytes(q))
    ensures pos <= |msg| && QuestionAt(msg, pos) == Some((Asked(msg, q), pos + |QuestionBytes(q)|))
    ensures pos + |QuestionBytes(q)| <= |msg|
  {
    hide *;
    QuestionParts(msg, q);
    var n := |NameBytes(q.name)|;
    AtParts(msg, pos, NameBytes(q.name), Two(q.qtype) + Two(q.dnsclass));
    AtParts(msg, pos + n, Two(q.qtype), Two(q.dnsclass));
    NameReads(msg, pos, q.name);
    TwoReads(msg, pos + n, q.qtype);
    TwoReads(msg, pos + n + 2, q.dnsclass);
    QuestionIs(msg, pos);
  }

  lemma QuestionParts(msg: seq<byte>, q: WireQuestion)
    requires QuestionOk(q)
    ensures NameOk(q.name) && q.qtype < 0x1_0000 && q.dnsclass < 0x1_0000
    ensures QuestionBytes(q) == NameBytes(q.name) + (Two(q.qtype) + Two(q.dnsclass))
    ensures |QuestionBytes(q)| == |NameBytes(q.name)| + 4
    ensures Leads(msg, q.name) ==> Asked(msg, q) == Question(Spell(AllLabels(msg, q.name)), q.qtype, q.dnsclass)
  {
    hide Spell, NameOk, Leads, AllLabels, NameBytes, Two;
  }

  lemma QuestionIs(msg: seq<byte>, pos: nat)
    requires pos <= |msg| && Expand(msg, pos).Some? && pos + Expand(msg, pos).value.encoded + 4 <= |msg|
    ensures var e := Expand(msg, pos).value;
      var p := pos + e.encoded;
      QuestionAt(msg, pos) == Some((Question(Spell(e.labels), Be16(msg, p), Be16(msg, p + 2)), p + 4))
  {
    hide Expand, Spell, Be16;
  }

  ghost predicate QuestionsOk(msg: seq<byte>, qs: seq<WireQuestion>) {
    forall i :: 0 <= i < |qs| ==> QuestionOk(qs[i]) && Leads(msg, qs[i].name)
  }

  ghost function QuestionsBytes(msg: seq<byte>, qs: seq<WireQuestion>): seq<byte>
    requires QuestionsOk(msg, qs)
  {
    if qs == [] then [] else QuestionBytes(qs[0]) + QuestionsBytes(msg, qs[1..])
  }

  lemma FirstQuestion(msg: seq<byte>, pos: nat, qs: seq<WireQuestion>)
    requires QuestionsOk(msg, qs) && qs != [] && At(msg, pos, QuestionsBytes(msg, qs))
    ensures QuestionOk(qs[0]) && Leads(msg, qs[0].name) && QuestionsOk(msg, qs[1..])
    ensures var next := pos + |QuestionBytes(qs[0])|;
      && next <= |msg| && QuestionAt(msg, pos) == Some((Asked(msg, qs[0]), next))
      && At(msg, next, QuestionsBytes(msg, qs[1..]))
  {
    hide *;
    QuestionsParts(msg, qs);
    AtParts(msg, pos, QuestionBytes(qs[0]), QuestionsBytes(msg, qs[1..]));
    QuestionReads(msg, pos, qs[0]);
  }

  lemma QuestionsParts(msg: seq<byte>, qs: seq<WireQuestion>)
    requires QuestionsOk(msg, qs) && qs != []
    ensures QuestionOk(qs[0]) && Leads(msg, qs[0].name) && QuestionsOk(msg, qs[1..])
    ensures QuestionsBytes(msg, qs) == QuestionBytes(qs[0]) + QuestionsBytes(msg, qs[1..])
  {
    hide QuestionBytes, QuestionOk, Leads;
  }

  /** One of these questions has the same name up to case, the same type and the same class. */
  ghost predicate Met(q: Question, msg: seq<byte>, qs: seq<WireQuestion>)
    requires QuestionsOk(msg, qs)
  {
    exists i :: 0 <= i < |qs| && Meets(q, Asked(msg, qs[i]))
  }

  ghost predicate Meets(q: Question, a: Question) {
    SameIgnoringCase(a.name, q.name) && a.qtype == q.qtype && a.dnsclass == q.dnsclass
  }

  lemma MetParts(q: Question, msg: seq<byte>, qs: seq<WireQuestion>)
    requires QuestionsOk(msg, qs)
    ensures qs == [] ==> !Met(q, msg, qs)
    ensures qs != [] ==>
      && QuestionsOk(msg, qs[1..]) && Leads(msg, qs[0].name)
      && (Met(q, msg, qs) <==> Meets(q, Asked(msg, qs[0])) || Met(q, msg, qs[1..]))
  {
    hide QuestionOk, Leads, Meets, Asked;
    if qs != [] {
      var rest := qs[1..];
      assert forall i :: 0 <= i < |rest| ==> rest[i] == qs[i + 1];
      if Met(q, msg, qs) {
        var i :| 0 <= i < |qs| && Meets(q, Asked(msg, qs[i]));
        if i > 0 { assert rest[i - 1] == qs[i]; }
      }
    }
  }

  lemma {:induction false} FoundOnWire(q: Question, msg: seq<byte>, pos: nat, qs: seq<WireQuestion>)
    requires QuestionsOk(msg, qs) && At(msg, pos, QuestionsBytes(msg, qs))
    ensures pos <= |msg|
    ensures Found(q, msg, pos, |qs|) <==> Met(q, msg, qs)
    decreases |qs|
  {
    hide *;
    AtInside(msg, pos, QuestionsBytes(msg, qs));
    FoundTurn(q, msg, pos, |qs|);
    MetParts(q, msg, qs);
    if qs != [] {
      FirstQuestion(msg, pos, qs);
      MeetsIs(q, Asked(msg, qs[0]));
      FoundOnWire(q, msg, pos + |QuestionBytes(qs[0])|, qs[1..]);
    }
  }

  lemma AtInside(msg: seq<byte>, pos: nat, bytes: seq<byte>)
    requires At(msg, pos, bytes)
    ensures pos + |bytes| <= |msg|
  {
  }

  lemma MeetsIs(q: Question, a: Question)
    ensures Meets(q, a) <==> SameIgnoringCase(q.name, a.name) && q.qtype == a.qtype && q.dnsclass == a.dnsclass
  {
    hide Lowered, CString;
  }

  /** Each question of one message is met by one of the other. */
  ghost predicate EachMet(qmsg: seq<byte>, qs: seq<WireQuestion>, amsg: seq<byte>, rs: seq<WireQuestion>)
    requires QuestionsOk(qmsg, qs) && QuestionsOk(amsg, rs)
  {
    forall i :: 0 <= i < |qs| ==> Met(Asked(qmsg, qs[i]), amsg, rs)
  }

  lemma {:induction false} AllOnWire(qmsg: seq<byte>, pos: nat, qs: seq<WireQuestion>, amsg: seq<byte>, rs: seq<WireQuestion>)
    requires QuestionsOk(qmsg, qs) && At(qmsg, pos, QuestionsBytes(qmsg, qs))
    requires QuestionsOk(amsg, rs) && At(amsg, HFIXEDSZ, QuestionsBytes(amsg, rs))
    ensures pos <= |qmsg| && HFIXEDSZ <= |amsg|
    ensures AllFound(qmsg, pos, |qs|, amsg, |rs|) <==> EachMet(qmsg, qs, amsg, rs)
    decreases |qs|
  {
    hide *;
    AtInside(qmsg, pos, QuestionsBytes(qmsg, qs));
    AtInside(amsg, HFIXEDSZ, QuestionsBytes(amsg, rs));
    AllFoundTurn(qmsg, pos, |qs|, amsg, |rs|);
    EachMetParts(qmsg, qs, amsg, rs);
    if qs != [] {
      FirstQuestion(qmsg, pos, qs);
      FoundOnWire(Asked(qmsg, qs[0]), amsg, HFIXEDSZ, rs);
      AllOnWire(qmsg, pos + |QuestionBytes(qs[0])|, qs[1..], amsg, rs);
    }
  }

  lemma EachMetParts(qmsg: seq<byte>, qs: seq<WireQuestion>, amsg: seq<byte>, rs: seq<WireQuestion>)
    requires QuestionsOk(qmsg, qs) && QuestionsOk(amsg, rs)
    ensures qs == [] ==> EachMet(qmsg, qs, amsg, rs)
    ensures qs != [] ==>
      && QuestionsOk(qmsg, qs[1..]) && Leads(qmsg, qs[0].name)
      && (EachMet(qmsg, qs, amsg, rs) <==> Met(Asked(qmsg, qs[0]), amsg, rs) && EachMet(qmsg, qs[1..], amsg, rs))
  {
    hide QuestionOk, Leads, Met, Asked;
    if qs != [] {
      var rest := qs[1..];
      assert forall i :: 0 <= i < |rest| ==> rest[i] == qs[i + 1];
      assert forall i :: 0 < i < |qs| ==> qs[i] == rest[i - 1];
    }
  }

  /** same_questions, of two messages that have been put together from questions: as many in both, and each
      of the first met by one of the second with the same name up to case, type and class. */
  lemma SameOnWire(qmsg: seq<byte>, qid: nat, qf: Flags, qc: Counts, qs: seq<WireQuestion>,
                   amsg: seq<byte>, aid: nat, af: Flags, ac: Counts, rs: seq<WireQuestion>)
    requires qid < 0x1_0000 && FlagsOk(qf) && CountsOk(qc) && At(qmsg, 0, HeaderBytes(qid, qf, qc)) && qc.qd == |qs|
    requires aid < 0x1_0000 && FlagsOk(af) && CountsOk(ac) && At(amsg, 0, HeaderBytes(aid, af, ac)) && ac.qd == |rs|
    requires QuestionsOk(qmsg, qs) && At(qmsg, 12, QuestionsBytes(qmsg, qs))
    requires QuestionsOk(amsg, rs) && At(amsg, 12, QuestionsBytes(amsg, rs))
    ensures SameQuestions(qmsg, amsg) <==> |qs| == |rs| && EachMet(qmsg, qs, amsg, rs)
  {
    hide *;
    HeaderSize();
    HeaderReads(qmsg, qid, qf, qc);
    HeaderReads(amsg, aid, af, ac);
    SameQuestionsIs(qmsg, amsg);
    AllOnWire(qmsg, 12, qs, amsg, rs);
  }

  lemma HeaderSize()
    ensures HFIXEDSZ == 12
  {
  }
}
