/** Building a query packet from an escaped name (section 4.1 of RFC 1035), and its inverse. */
module MkQuery {
  import opened Seqs
  import opened Names

  const MAX_LABEL: nat := 63
  const MAX_NAME: nat := 255

  // ---------- reading an escaped name ----------

  /** A backslash takes the next byte with it, unless it is the last byte. */
  function Step(s: seq<byte>): (n: nat)
    requires s != []
    ensures 1 <= n <= |s|
  {
    if s[0] == BACKSLASH && |s| > 1 then 2 else 1
  }

  ghost function Char(s: seq<byte>): byte
    requires s != []
  {
    s[Step(s) - 1]
  }

  /** Bytes of the first label, escapes resolved. */
  ghost function Raw(s: seq<byte>): seq<byte>
    decreases |s|
  {
    if s == [] || s[0] == DOT then [] else [Char(s)] + Raw(s[Step(s)..])
  }

  /** What follows the first label: empty, or starting with its period. */
  ghost function Rest(s: seq<byte>): (r: seq<byte>)
    ensures |r| <= |s| && (r == [] || r[0] == DOT)
    decreases |s|
  {
    if s == [] || s[0] == DOT then s else Rest(s[Step(s)..])
  }

  ghost function Tokens(s: seq<byte>): nat
    decreases |s|
  {
    if s == [] then 0 else 1 + Tokens(s[Step(s)..])
  }

  function Prefixed(raw: seq<byte>): (r: seq<byte>)
    requires |raw| <= MAX_LABEL
    ensures |r| == |raw| + 1 && r[0] == |raw| && r[1..] == raw
  {
    var length: byte := |raw|;
    [length] + raw
  }

  /** Length-prefixed labels of an escaped name, or None when a label is empty or too long. */
  ghost function Encode(s: seq<byte>): Option<seq<byte>>
    decreases |s|
  {
    if s == [] then Some([])
    else if s[0] == DOT || |Raw(s)| > MAX_LABEL then None
    else if Rest(s) == [] then Some(Prefixed(Raw(s)))
    else
      match Encode(Rest(s)[1..])
      case None => None
      case Some(w) => Some(Prefixed(Raw(s)) + w)
  }

  /** The length the code computes before writing: it looks at the last raw byte of the name. */
  ghost function NameSpace(name: seq<byte>): nat {
    1 + Tokens(name) + if name != [] && name[|name| - 1] != DOT then 1 else 0
  }

  ghost function WireName(name: seq<byte>): Option<seq<byte>> {
    Encode(if name == [DOT] then [] else name)
  }

  function Header(id: nat, rd: bool): (h: seq<byte>)
    requires id < 65536
    ensures |h| == HFIXEDSZ
  {
    [id / 256, id % 256, if rd then 1 else 0, 0, 0, 1, 0, 0, 0, 0, 0, 0]
  }

  function Tail(qtype: nat, dnsclass: nat): (t: seq<byte>)
    ensures |t| == QFIXEDSZ
  {
    [qtype / 256 % 256, qtype % 256, dnsclass / 256 % 256, dnsclass % 256]
  }

  /** The packet for a name that can be encoded. */
  ghost function Packet(name: seq<byte>, dnsclass: nat, qtype: nat, id: nat, rd: bool): seq<byte>
    requires id < 65536 && WireName(name).Some?
  {
    Header(id, rd) + WireName(name).value + [0] + Tail(qtype, dnsclass)
  }

  /** Names that a query is built for. */
  ghost predicate Accepted(name: seq<byte>) { NameSpace(name) <= MAX_NAME && WireName(name).Some? }

  datatype Status = Success | BadName

  /** Number of bytes the encoded name is expected to take. */
  method MeasureName(name: seq<byte>) returns (len: nat)
    ensures len == NameSpace(name)
  {
    len := 1;
    var p := 0;
    while p < |name|
      invariant 0 <= p <= |name|
      invariant len + Tokens(name[p..]) == 1 + Tokens(name)
    {
      assert name[p..][Step(name[p..])..] == name[p + Step(name[p..])..];
      if name[p] == BACKSLASH && p + 1 < |name| { p := p + 1; }
      len := len + 1;
      p := p + 1;
    }
    if name != [] && name[p - 1] != DOT { len := len + 1; }
  }

  /** One turn of the label loops at position p. */
  lemma LabelTurn(name: seq<byte>, p: nat)
    requires p <= |name|
    ensures p == |name| || name[p] == DOT ==> Raw(name[p..]) == [] && Rest(name[p..]) == name[p..]
    ensures p < |name| && name[p] != DOT ==>
      var q := if name[p] == BACKSLASH && p + 1 < |name| then p + 1 else p;
      Raw(name[p..]) == [name[q]] + Raw(name[q + 1..]) && Rest(name[p..]) == Rest(name[q + 1..])
  {
    if p < |name| {
      var s := name[p..];
      assert s[Step(s)..] == name[p + Step(s)..];
    }
  }

  /** The two passes over one label: its bytes and the position after it. */
  method ReadLabel(name: seq<byte>, from: nat) returns (raw: seq<byte>, p: nat)
    requires from <= |name|
    ensures raw == Raw(name[from..])
    ensures from <= p <= |name| && name[p..] == Rest(name[from..])
    ensures p < |name| ==> name[p] == DOT
  {
    hide *;
    raw, p := [], from;
    assert raw + Raw(name[p..]) == Raw(name[from..]);
    while p < |name| && name[p] != DOT
      invariant from <= p <= |name|
      invariant raw + Raw(name[p..]) == Raw(name[from..])
      invariant Rest(name[p..]) == Rest(name[from..])
    {
      LabelTurn(name, p);
      ghost var before := raw;
      if name[p] == BACKSLASH && p + 1 < |name| { p := p + 1; }
      raw := raw + [name[p]];
      p := p + 1;
      assert before + ([name[p - 1]] + Raw(name[p..])) == raw + Raw(name[p..]);
    }
    LabelTurn(name, p);
    assert raw + [] == raw;
  }

  /** done has been written for the part of start before rest. */
  ghost predicate Encoding(start: seq<byte>, done: seq<byte>, rest: seq<byte>) {
    match Encode(rest)
    case None => Encode(start) == None
    case Some(w) => Encode(start) == Some(done + w)
  }

  lemma EncodingStart(start: seq<byte>)
    ensures Encoding(start, [], start)
  {
    if w :| Encode(start) == Some(w) { assert [] + w == w; }
  }

  lemma EncodingTurn(start: seq<byte>, done: seq<byte>, s: seq<byte>)
    requires Encoding(start, done, s)
    ensures s == [] ==> Encode(start) == Some(done)
    ensures s != [] && (s[0] == DOT || |Raw(s)| > MAX_LABEL) ==> Encode(start) == None
    ensures s != [] && s[0] != DOT && |Raw(s)| <= MAX_LABEL ==>
      var more := done + Prefixed(Raw(s));
      if Rest(s) == [] then Encode(start) == Some(more) else Encoding(start, more, Rest(s)[1..])
  {
    hide Raw, Rest, Prefixed;
    assert done + [] == done;
    if s != [] && s[0] != DOT && |Raw(s)| <= MAX_LABEL && Rest(s) != [] {
      var t := Rest(s)[1..];
      if Encode(t).Some? { assert done + (Prefixed(Raw(s)) + Encode(t).value) == done + Prefixed(Raw(s)) + Encode(t).value; }
    }
  }

  /** The label loop: wire form of all labels from position p, or None on an empty or long label. */
  method WriteLabels(name: seq<byte>, from: nat) returns (wire: Option<seq<byte>>)
    requires from <= |name|
    ensures wire == Encode(name[from..])
  {
    hide *;
    var p, done: seq<byte> := from, [];
    EncodingStart(name[from..]);
    while p < |name|
      invariant from <= p <= |name|
      invariant Encoding(name[from..], done, name[p..])
    {
      EncodingTurn(name[from..], done, name[p..]);
      if name[p] == DOT { return None; }
      var raw, end := ReadLabel(name, p);
      if |raw| > MAX_LABEL { return None; }
      done := done + Prefixed(raw);
      if end == |name| { return Some(done); }
      assert name[end..][1..] == name[end + 1..];
      p := end + 1;
    }
    EncodingTurn(name[from..], done, name[p..]);
    return Some(done);
  }

  /** ares_mkquery: the bytes written into the packet, and the length that is allocated and reported for it.
      The bytes fit in the allocation if and only if the name does not end in an escaped period. */
  method MakeQuery(name: seq<byte>, dnsclass: nat, qtype: nat, id: nat, rd: bool)
      returns (status: Status, out: seq<byte>, buflen: nat)
    requires id < 65536
    ensures status == if Accepted(name) then Success else BadName
    ensures status == Success ==>
      && out == Packet(name, dnsclass, qtype, id, rd)
      && buflen == HFIXEDSZ + NameSpace(name) + QFIXEDSZ
    ensures status == Success ==> (|out| <= buflen <==> !EndsEscapedDot(name))
  {
    out, buflen := [], 0;
    var len := MeasureName(name);
    if len > MAX_NAME { return BadName, out, buflen; }
    buflen := len + HFIXEDSZ + QFIXEDSZ;
    var from := if name == [DOT] then 1 else 0;
    assert name[from..] == if name == [DOT] then [] else name;
    var wire := WriteLabels(name, from);
    if wire.None? { return BadName, out, buflen; }
    out := Header(id, rd) + wire.value + [0] + Tail(qtype, dnsclass);
    status := Success;
    WrittenLength(name);
  }

  // ---------- the reported length ----------

  lemma WrittenLength(name: seq<byte>)
    requires WireName(name).Some?
    ensures |WireName(name).value| + 1 <= NameSpace(name) <==> !EndsEscapedDot(name)
  {
    ReportedLength(name);
    if name == [DOT] { assert Step(name) == 1; }
    hide WireName, NameSpace;
  }

  /** It happens: the name a\. needs a byte more than is allocated for it, and the name "." a byte less. */
  lemma LengthExamples()
    ensures var name: seq<byte> := [97, 92, 46]; NameSpace(name) == 3 && WireName(name) == Some([2, 97, 46])
    ensures NameSpace([46]) == 2 && WireName([46]) == Some([])
  {
    var name: seq<byte>, b: seq<byte>, e: seq<byte>, dot: seq<byte> := [97, 92, 46], [92, 46], [], [46];
    assert name[Step(name)..] == b && b[Step(b)..] == e && dot[Step(dot)..] == e;
    assert Tokens(b) == 1 + Tokens(e) && Tokens(name) == 2;
    assert Raw(b) == [46] + Raw(e) && Raw(name) == [97] + Raw(b);
    assert Rest(b) == e && Rest(name) == e;
    var raw: seq<byte> := [97, 46];
    assert Raw(name) == raw && Prefixed(raw) == [2, 97, 46];
  }

  /** The name's last token is an escaped period. A caller can see this in the last two tokens' bytes. */
  predicate EndsEscapedDot(s: seq<byte>)
    decreases |s|
  {
    s != [] && if Step(s) == |s| then Step(s) == 2 && s[1] == DOT else EndsEscapedDot(s[Step(s)..])
  }

  /** The name's last token is a separator. */
  ghost predicate EndsSeparator(s: seq<byte>)
    decreases |s|
  {
    s != [] && if Step(s) == |s| then s == [DOT] else EndsSeparator(s[Step(s)..])
  }

  lemma {:induction false} LastByte(s: seq<byte>)
    requires s != []
    ensures s[|s| - 1] == DOT <==> EndsSeparator(s) || EndsEscapedDot(s)
    ensures !(EndsSeparator(s) && EndsEscapedDot(s))
    decreases |s|
  {
    if Step(s) < |s| { LastByte(s[Step(s)..]); }
  }

  /** Splitting off the first label keeps count of tokens and of how the name ends. */
  lemma {:induction false} FirstLabel(s: seq<byte>)
    ensures Tokens(s) == |Raw(s)| + Tokens(Rest(s))
    ensures Rest(s) != [] ==> EndsSeparator(s) == EndsSeparator(Rest(s))
    ensures s != [] && s[0] != DOT && Rest(s) == [] ==> !EndsSeparator(s)
    decreases |s|
  {
    if s != [] && s[0] != DOT { FirstLabel(s[Step(s)..]); }
  }

  /** Wire length of a name that encodes: a token a byte, plus one when no separator ends it. */
  lemma {:induction false} WireLength(s: seq<byte>)
    requires Encode(s).Some?
    ensures |Encode(s).value| == Tokens(s) + if s == [] || EndsSeparator(s) then 0 else 1
    decreases |s|
  {
    if s != [] {
      FirstLabel(s);
      var r := Rest(s);
      if r != [] {
        assert Step(r) == 1;
        WireLength(r[1..]);
        if r[1..] != [] {
          assert EndsSeparator(r) == EndsSeparator(r[1..]);
        } else {
          assert r == [DOT];
        }
      }
    }
  }

  /** The reported length is the number of bytes written, except for the name "." (one too many) and
      for names whose last token is an escaped period (one too few). */
  lemma ReportedLength(name: seq<byte>)
    requires WireName(name).Some?
    ensures var written := |WireName(name).value| + 1;
      NameSpace(name) == if name == [DOT] then written + 1 else if EndsEscapedDot(name) then written - 1 else written
  {
    if name != [] { LastByte(name); }
    if name != [DOT] {
      WireLength(name);
    } else {
      assert name[Step(name)..] == [];
    }
  }

  // ---------- the round trip ----------

  ghost predicate ValidLabels(labels: seq<seq<byte>>) {
    forall l :: l in labels ==> 1 <= |l| <= MAX_LABEL && 0 !in l
  }

  ghost function Wire(labels: seq<seq<byte>>): seq<byte>
    requires ValidLabels(labels)
  {
    if labels == [] then []
    else
      assert labels[0] in labels;
      Prefixed(labels[0]) + Wire(labels[1..])
  }

  /** Reading back one escaped byte. */
  lemma Peel(b: byte, u: seq<byte>)
    ensures var s := EscapeByte(b) + u; s[0] != DOT && Char(s) == b && s[Step(s)..] == u && Step(s) == |EscapeByte(b)|
  {
  }

  /** Reading back one escaped label, up to the period or the end that follows it. */
  lemma {:induction false} UnescapeLabel(l: seq<byte>, t: seq<byte>)
    requires t == [] || t[0] == DOT
    ensures Raw(Escape(l) + t) == l && Rest(Escape(l) + t) == t
  {
    var s := Escape(l) + t;
    if l == [] {
      assert s == t;
    } else {
      hide Step, Char, EscapeByte;
      var u := Escape(l[1..]) + t;
      assert s == EscapeByte(l[0]) + u;
      Peel(l[0], u);
      UnescapeLabel(l[1..], t);
      assert l == [l[0]] + l[1..];
    }
  }

  lemma SpellCons(labels: seq<seq<byte>>)
    requires labels != []
    ensures Spell(labels) == Escape(labels[0]) + if |labels| == 1 then [] else [DOT] + Spell(labels[1..])
  {
    DottedEmpty(labels[1..]);
  }

  /** An escaped name encodes to the wire form of its labels. */
  lemma {:induction false} EncodeSpell(labels: seq<seq<byte>>)
    requires ValidLabels(labels)
    ensures Encode(Spell(labels)) == Some(Wire(labels))
    decreases |labels|
  {
    if labels != [] {
      hide Raw, Rest, Escape, Spell, Prefixed;
      var l, more := labels[0], labels[1..];
      assert l in labels;
      var t: seq<byte> := if more == [] then [] else [DOT] + Spell(more);
      SpellCons(labels);
      UnescapeLabel(l, t);
      EscapeFirst(l);
      EncodeSpell(more);
      if more != [] { assert t[1..] == Spell(more); } else { assert Prefixed(l) + [] == Prefixed(l); }
    }
  }

  lemma EscapeFirst(l: seq<byte>)
    requires l != []
    ensures Escape(l) != [] && Escape(l)[0] != DOT
  {
    assert Escape(l)[0] == EscapeByte(l[0])[0];
  }

  lemma WalkCons(msg: seq<byte>, pos: nat, n: nat, k: nat)
    requires pos < |msg| && HopAt(msg, pos) == Label(n) && Ends(msg, pos + n + 1, k)
    ensures Ends(msg, pos, k + 1)
    ensures LabelsAt(msg, pos, k + 1) == [msg[pos + 1..pos + 1 + n]] + LabelsAt(msg, pos + n + 1, k)
    ensures EncodedLength(msg, pos, k + 1) == n + 1 + EncodedLength(msg, pos + n + 1, k)
  {
  }

  lemma WalkEnd(msg: seq<byte>, pos: nat)
    requires pos < |msg| && msg[pos] == 0
    ensures Ends(msg, pos, 0) && LabelsAt(msg, pos, 0) == [] && EncodedLength(msg, pos, 0) == 1
  {
  }

  /** The walk over an uncompressed name in a message. */
  lemma {:induction false} WalkWire(msg: seq<byte>, pos: nat, labels: seq<seq<byte>>)
    requires ValidLabels(labels) && pos + |Wire(labels)| + 1 <= |msg|
    requires msg[pos..pos + |Wire(labels)| + 1] == Wire(labels) + [0]
    ensures Ends(msg, pos, |labels|)
    ensures LabelsAt(msg, pos, |labels|) == labels
    ensures EncodedLength(msg, pos, |labels|) == |Wire(labels)| + 1
    decreases |labels|
  {
    hide *;
    WireIs(labels);
    if labels == [] {
      assert msg[pos] == msg[pos..pos + |Wire(labels)| + 1][0];
      WalkEnd(msg, pos);
    } else {
      var l, more := labels[0], labels[1..];
      FirstOnWire(msg, pos, l, Wire(more));
      WalkWire(msg, pos + |l| + 1, more);
      WalkCons(msg, pos, |l|, |more|);
      assert labels == [l] + more;
    }
  }

  lemma WireIs(labels: seq<seq<byte>>)
    requires ValidLabels(labels)
    ensures labels == [] ==> Wire(labels) == []
    ensures labels != [] ==>
      && 1 <= |labels[0]| <= MAX_LABEL && ValidLabels(labels[1..]) && Wire(labels) == Prefixed(labels[0]) + Wire(labels[1..])
  {
    if labels != [] { assert labels[0] in labels; }
  }

  lemma FirstOnWire(msg: seq<byte>, pos: nat, l: seq<byte>, more: seq<byte>)
    requires 1 <= |l| <= MAX_LABEL && pos + |l| + 1 + |more| + 1 <= |msg|
    requires msg[pos..pos + |l| + 1 + |more| + 1] == Prefixed(l) + more + [0]
    ensures HopAt(msg, pos) == Label(|l|) && msg[pos + 1..pos + 1 + |l|] == l
    ensures var next := pos + |l| + 1; msg[next..next + |more| + 1] == more + [0]
  {
    hide Prefixed;
    var w := msg[pos..pos + |l| + 1 + |more| + 1];
    assert w == Prefixed(l) + (more + [0]);
    var p := Prefixed(l);
    assert w[..|p|] == p;
    assert msg[pos] == w[0] == p[0];
    assert w[1..|p|] == p[1..];
    SliceOfSlice(msg, pos, pos + |w|, 1, |p|);
    assert w[|p|..|w|] == more + [0];
    SliceOfSlice(msg, pos, pos + |w|, |p|, |w|);
  }

  /** Encoding then expanding: any list of labels of 1 to 63 non-NUL bytes that fits in 255 wire bytes
      becomes a query whose name at offset 12 expands to the same labels, hence the same text. */
  lemma QueryRoundTrip(labels: seq<seq<byte>>, id: nat, rd: bool, qtype: nat, dnsclass: nat)
    requires ValidLabels(labels) && |Wire(labels)| + 1 <= MAX_NAME && id < 65536
    ensures Accepted(Spell(labels)) && WireName(Spell(labels)).Some?
    ensures var packet := Packet(Spell(labels), dnsclass, qtype, id, rd);
      && Expand(packet, HFIXEDSZ) == Some(Expansion(labels, |Wire(labels)| + 1))
      && |packet| == HFIXEDSZ + |Wire(labels)| + 1 + QFIXEDSZ
      && HFIXEDSZ + NameSpace(Spell(labels)) + QFIXEDSZ == |packet| - if EndsEscapedDot(Spell(labels)) then 1 else 0
  {
    hide *;
    EncodeSpell(labels);
    NotJustDot(labels);
    WireNameIs(Spell(labels));
    ReportedLength(Spell(labels));
    PacketIs(Spell(labels), dnsclass, qtype, id, rd);
    var packet := Packet(Spell(labels), dnsclass, qtype, id, rd);
    var w := Wire(labels) + [0];
    assert packet == Header(id, rd) + w + Tail(qtype, dnsclass);
    assert packet[HFIXEDSZ..HFIXEDSZ + |w|] == w;
    WalkWire(packet, HFIXEDSZ, labels);
    ExpandIs(packet, HFIXEDSZ, |labels|);
  }

  lemma PacketIs(name: seq<byte>, dnsclass: nat, qtype: nat, id: nat, rd: bool)
    requires id < 65536 && WireName(name).Some?
    ensures Packet(name, dnsclass, qtype, id, rd) == Header(id, rd) + WireName(name).value + [0] + Tail(qtype, dnsclass)
    ensures Accepted(name) <==> NameSpace(name) <= MAX_NAME
  {
    hide WireName, NameSpace;
  }

  lemma WireNameIs(name: seq<byte>)
    ensures name != [DOT] ==> WireName(name) == Encode(name)
  {
  }

  lemma NotJustDot(labels: seq<seq<byte>>)
    requires ValidLabels(labels)
    ensures Spell(labels) != [DOT]
  {
    if labels != [] {
      SpellCons(labels);
      assert labels[0] in labels;
      EscapeFirst(labels[0]);
    }
  }

  /** The escaped text ends in an escaped period exactly when the last label ends in a period. */
  lemma {:induction false} LastLabelDot(labels: seq<seq<byte>>)
    requires ValidLabels(labels) && labels != []
    ensures EndsEscapedDot(Spell(labels)) <==> var l := labels[|labels| - 1]; |l| > 0 && l[|l| - 1] == DOT
    decreases |labels|
  {
    hide *;
    WireIs(labels);
    SpellCons(labels);
    var l, more := labels[0], labels[1..];
    var t: seq<byte> := if more == [] then [] else [DOT] + Spell(more);
    EscapedEnd(l, t);
    if more == [] {
      assert Escape(l) + t == Spell(labels);
    } else {
      LastLabelDot(more);
      SpellCons(more);
      WireIs(more);
      EscapeFirst(more[0]);
      AfterSeparator(Spell(more));
      assert more[|more| - 1] == labels[|labels| - 1];
    }
  }

  lemma AfterSeparator(u: seq<byte>)
    requires u != []
    ensures EndsEscapedDot([DOT] + u) == EndsEscapedDot(u)
  {
    var t := [DOT] + u;
    assert Step(t) == 1 && t[1..] == u;
  }

  lemma {:induction false} EscapedEnd(l: seq<byte>, t: seq<byte>)
    requires l != [] && (t == [] || t[0] == DOT)
    ensures EndsEscapedDot(Escape(l) + t) <==> if t == [] then l[|l| - 1] == DOT else EndsEscapedDot(t)
    decreases |l|
  {
    hide *;
    var s, u := Escape(l) + t, Escape(l[1..]) + t;
    EscapeCons(l);
    assert s == EscapeByte(l[0]) + u;
    Peel(l[0], u);
    EscapedToken(l[0], u);
    if |l| > 1 {
      EscapedEnd(l[1..], t);
      EscapeFirst(l[1..]);
    } else {
      EscapeNone(l);
      assert l[1..] == l[..0] && u == t;
    }
  }

  lemma EscapeCons(l: seq<byte>)
    requires l != []
    ensures Escape(l) == EscapeByte(l[0]) + Escape(l[1..])
  {
  }

  /** One escaped byte and what follows it: the rest decides, if there is any. */
  lemma EscapedToken(b: byte, u: seq<byte>)
    ensures EndsEscapedDot(EscapeByte(b) + u) <==> if u == [] then b == DOT else EndsEscapedDot(u)
  {
    var s := EscapeByte(b) + u;
    Peel(b, u);
    assert |s| == |EscapeByte(b)| + |u|;
  }
}
