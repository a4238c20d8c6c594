/** The entity encoder of the HTML parser (HTMLparser.c) and the tables behind it. */
module HtmlEntities {
  import opened Seqs
  import opened Numerals
  import opened Utf8

  const AMP: byte := 38
  const HASH: byte := 35
  const SEMICOLON: byte := 59
  const LESS: byte := 60
  const GREATER: byte := 62

  /** A row of the table of predefined entities. */
  datatype Entity = Entity(value: rune, name: seq<byte>)

  predicate Letter(c: int) { 97 <= c <= 122 || 65 <= c <= 90 }

  predicate Decimal(c: int) { 48 <= c <= 57 }

  /** A letter, then letters and digits, eight characters at most. */
  predicate Plain(name: seq<byte>) {
    0 < |name| <= 8 && Letter(name[0]) && forall k :: 0 <= k < |name| ==> Letter(name[k]) || Decimal(name[k])
  }

  /** What the lookups rely on: values ascend, no name comes twice, and names are plain. */
  ghost predicate TableOk(table: seq<Entity>) {
    && (forall i, j :: 0 <= i < j < |table| ==> table[i].value < table[j].value)
    && (forall i, j :: 0 <= i < j < |table| ==> table[i].name != table[j].name)
    && (forall i :: 0 <= i < |table| ==> Plain(table[i].name))
  }

  ghost predicate Named(table: seq<Entity>, c: nat) {
    exists e :: e in table && e.value == c
  }

  /** htmlEntityValueLookup: the scan gives up at the first larger value. */
  method ValueLookup(table: seq<Entity>, value: nat) returns (r: Option<Entity>)
    requires TableOk(table)
    ensures r.Some? ==> r.value in table && r.value.value == value
    ensures r.None? ==> !Named(table, value)
  {
    var i := 0;
    while i < |table|
      invariant 0 <= i <= |table|
      invariant forall j :: 0 <= j < i ==> table[j].value < value
    {
      if table[i].value >= value {
        if table[i].value > value {
          break;
        }
        return Some(table[i]);
      }
      i := i + 1;
    }
    return None;
  }

  /** htmlEntityLookup. */
  method NameLookup(table: seq<Entity>, name: seq<byte>) returns (r: Option<Entity>)
    requires TableOk(table)
    ensures r == FindName(table, name)
  {
    var i := 0;
    while i < |table|
      invariant 0 <= i <= |table|
      invariant FindName(table, name) == FindName(table[i..], name)
    {
      assert table[i..][0] == table[i] && table[i..][1..] == table[i + 1..];
      if name == table[i].name {
        return Some(table[i]);
      }
      i := i + 1;
    }
    return None;
  }

  /** The first row with that name. */
  function FindName(table: seq<Entity>, name: seq<byte>): (r: Option<Entity>)
    ensures r.Some? ==> r.value in table && r.value.name == name
  {
    if table == [] then None else if table[0].name == name then Some(table[0]) else FindName(table[1..], name)
  }

  /** The first row with that value. */
  function FindValue(table: seq<Entity>, c: nat): (r: Option<Entity>)
    ensures r.Some? ==> r.value in table && r.value.value == c
  {
    if table == [] then None else if table[0].value == c then Some(table[0]) else FindValue(table[1..], c)
  }

  lemma {:induction false} FindValueIs(table: seq<Entity>, e: Entity)
    requires TableOk(table) && e in table
    ensures FindValue(table, e.value) == Some(e)
  {
    if e != table[0] {
      var i :| 0 < i < |table| && table[i] == e;
      assert table[1..][i - 1] == e;
      FindValueIs(table[1..], e);
    }
  }

  lemma {:induction false} FindNameIs(table: seq<Entity>, e: Entity)
    requires TableOk(table) && e in table
    ensures FindName(table, e.name) == Some(e)
  {
    if e != table[0] {
      var i :| 0 < i < |table| && table[i] == e;
      assert table[1..][i - 1] == e;
      FindNameIs(table[1..], e);
    }
  }

  lemma FindValueNone(table: seq<Entity>, c: nat)
    requires !Named(table, c)
    ensures FindValue(table, c) == None
  {
  }

  /** ASCII text as bytes. */
  function Ascii(s: string): (r: seq<byte>)
    ensures |r| == |s| && forall i :: 0 <= i < |s| ==> r[i] == s[i] as int % 256
  {
    seq(|s|, i requires 0 <= i < |s| => s[i] as int % 256)
  }

  predicate Literal(c: nat, quote: nat) {
    c < 0x80 && c != quote && c != AMP && c != LESS && c != GREATER
  }

  function Reference(table: seq<Entity>, c: nat): seq<byte> {
    match FindValue(table, c)
    case Some(e) => e.name
    case None => [HASH] + Ascii(Numeral(c, 10))
  }

  /** What is written for character c. */
  function Piece(table: seq<Entity>, c: nat, quote: nat): (r: seq<byte>)
    ensures r != []
  {
    if Literal(c, quote) then [c] else [AMP] + Reference(table, c) + [SEMICOLON]
  }

  datatype Encoded = Encoded(status: int, out: seq<byte>, used: nat)

  /** htmlEncodeEntities: stops at the first character that is cut off or whose piece does not fit. */
  function EncodeFrom(table: seq<Entity>, s: seq<byte>, room: nat, quote: nat): (r: Encoded)
    ensures r.used <= |s| && |r.out| <= room && (r.status == 0 || r.status == -2)
    decreases |s|
  {
    match Next(s)
    case Nothing => Encoded(0, [], 0)
    case Malformed => Encoded(-2, [], 0)
    case Truncated => Encoded(0, [], 0)
    case Char(c, n) =>
      var p := Piece(table, c, quote);
      if |p| > room then Encoded(0, [], 0)
      else
        var more := EncodeFrom(table, s[n..], room - |p|, quote);
        Encoded(more.status, p + more.out, n + more.used)
  }

  /** The encoder, having read up to processed and written out. */
  ghost predicate EncodingAt(table: seq<Entity>, s: seq<byte>, room: nat, quote: nat, processed: nat, out: seq<byte>) {
    && processed <= |s| && |out| <= room
    && var more := EncodeFrom(table, s[processed..], room - |out|, quote);
       EncodeFrom(table, s, room, quote) == Encoded(more.status, out + more.out, processed + more.used)
  }

  lemma EncodingStart(table: seq<Entity>, s: seq<byte>, room: nat, quote: nat)
    ensures EncodingAt(table, s, room, quote, 0, [])
  {
    assert s[0..] == s;
    hide EncodeFrom;
  }

  lemma EncodingTurn(table: seq<Entity>, s: seq<byte>, room: nat, quote: nat, processed: nat, out: seq<byte>)
    requires EncodingAt(table, s, room, quote, processed, out)
    ensures processed <= |s| && |out| <= room
    ensures var whole := EncodeFrom(table, s, room, quote);
      match Next(s[processed..])
      case Nothing => whole == Encoded(0, out, processed)
      case Malformed => whole == Encoded(-2, out, processed)
      case Truncated => whole == Encoded(0, out, processed)
      case Char(c, n) =>
        var p := Piece(table, c, quote);
        if |out| + |p| > room then whole == Encoded(0, out, processed)
        else processed + n <= |s| && EncodingAt(table, s, room, quote, processed + n, out + p)
  {
    hide *;
    EncodingParts(table, s, room, quote, processed, out);
    EncodeIs(table, s[processed..], room - |out|, quote);
    assert out + [] == out;
    match Next(s[processed..])
    case Char(c, n) =>
      var p := Piece(table, c, quote);
      if |out| + |p| <= room {
        assert s[processed..][n..] == s[processed + n..];
        EncodingNext(table, s, room, quote, processed, out, n, p);
      }
    case _ =>
  }

  lemma EncodingParts(table: seq<Entity>, s: seq<byte>, room: nat, quote: nat, processed: nat, out: seq<byte>)
    requires EncodingAt(table, s, room, quote, processed, out)
    ensures processed <= |s| && |out| <= room
    ensures var more := EncodeFrom(table, s[processed..], room - |out|, quote);
       EncodeFrom(table, s, room, quote) == Encoded(more.status, out + more.out, processed + more.used)
  {
    hide EncodeFrom;
  }

  lemma EncodingNext(table: seq<Entity>, s: seq<byte>, room: nat, quote: nat, processed: nat, out: seq<byte>, n: nat, p: seq<byte>)
    requires processed + n <= |s| && |out| + |p| <= room
    requires var more := EncodeFrom(table, s[processed + n..], room - |out| - |p|, quote);
       EncodeFrom(table, s, room, quote) == Encoded(more.status, out + (p + more.out), processed + (n + more.used))
    ensures EncodingAt(table, s, room, quote, processed + n, out + p)
  {
    hide EncodeFrom;
    var more := EncodeFrom(table, s[processed + n..], room - |out| - |p|, quote);
    assert out + (p + more.out) == (out + p) + more.out;
  }

  lemma EncodeIs(table: seq<Entity>, s: seq<byte>, room: nat, quote: nat)
    ensures var r := EncodeFrom(table, s, room, quote);
      match Next(s)
      case Malformed => r == Encoded(-2, [], 0)
      case Char(c, n) =>
        var p := Piece(table, c, quote);
        n <= |s| &&
        if |p| > room then r == Encoded(0, [], 0)
        else
          var more := EncodeFrom(table, s[n..], room - |p|, quote);
          r == Encoded(more.status, p + more.out, n + more.used)
      case _ => r == Encoded(0, [], 0)
  {
    hide Piece, Next;
  }

  /** Reads the trailing bytes of one character, as the inner loop does. */
  method ReadTrail(s: seq<byte>, at: nat, first: nat, count: nat) returns (r: Step)
    requires at + count <= |s|
    ensures r == Trail(s, at, count, first)
  {
    var c: nat, i: nat, trailing: nat := first, at, count;
    while trailing > 0
      invariant i + trailing == at + count
      invariant Trail(s, at, count, first) == Trail(s, i, trailing, c)
    {
      var d := s[i];
      if !(0x80 <= d < 0xC0) {
        return Malformed;
      }
      c := c * 64 + (d - 0x80);
      i := i + 1;
      trailing := trailing - 1;
    }
    return Char(c, i);
  }

  lemma {:induction false} TrailShift(s: seq<byte>, k: nat, i: nat, t: nat, c: nat)
    requires k <= |s| && i + t <= |s| - k
    ensures var a := Trail(s[k..], i, t, c);
      Trail(s, k + i, t, c) == if a.Char? then Char(a.c, k + a.n) else a
    decreases t
  {
    if t > 0 && 0x80 <= s[k + i] < 0xC0 { TrailShift(s, k, i + 1, t - 1, c * 64 + (s[k + i] - 0x80)); }
  }

  method EncodeEntities(table: seq<Entity>, s: seq<byte>, outlen: nat, quote: nat) returns (r: Encoded)
    requires TableOk(table)
    ensures r == EncodeFrom(table, s, outlen, quote)
  {
    hide *;
    var out: seq<byte> := [];
    var processed: nat := 0;
    EncodingStart(table, s, outlen, quote);
    while true
      invariant EncodingAt(table, s, outlen, quote, processed, out)
      decreases |s| - processed
    {
      EncodingTurn(table, s, outlen, quote, processed, out);
      if processed == |s| {
        Finished(s, processed);
        return Encoded(0, out, processed);
      }
      var d := s[processed];
      LeadIs(s, processed);
      if Lead(d).None? {
        return Encoded(-2, out, processed);
      }
      var (c0, trailing) := Lead(d).value;
      if |s| - (processed + 1) < trailing {
        return Encoded(0, out, processed);
      }
      var e := ReadTrail(s, processed + 1, c0, trailing);
      if e.Malformed? {
        return Encoded(-2, out, processed);
      }
      var c := e.c;
      PieceIs(table, c, quote);
      if Literal(c, quote) {
        if |out| >= outlen {
          return Encoded(0, out, processed);
        }
        out := out + [c];
      } else {
        var ent := ValueLookup(table, c);
        var cp: seq<byte> := if ent.Some? then ent.value.name else [HASH] + Ascii(Numeral(c, 10));
        LookupIs(table, c, ent);
        if |out| + 2 + |cp| > outlen {
          return Encoded(0, out, processed);
        }
        assert ((out + [AMP]) + cp) + [SEMICOLON] == out + ([AMP] + cp + [SEMICOLON]);
        out := out + [AMP] + cp + [SEMICOLON];
      }
      processed := e.n;
    }
  }

  lemma Finished(s: seq<byte>, at: nat)
    requires at <= |s|
    ensures at == |s| ==> Next(s[at..]) == Nothing
  {
  }

  lemma LeadIs(s: seq<byte>, at: nat)
    requires at < |s|
    ensures var a := Next(s[at..]);
      match Lead(s[at])
      case None => a == Malformed
      case Some((c, t)) =>
        if |s| - (at + 1) < t then a == Truncated
        else
          var b := Trail(s, at + 1, t, c);
          if b.Char? then b.n > at && a == Char(b.c, b.n - at) else b == Malformed && a == Malformed
  {
    hide *;
    assert s[at..][0] == s[at] && |s[at..]| == |s| - at;
    NextIs(s[at..]);
    if Lead(s[at]).Some? {
      var (c, t) := Lead(s[at]).value;
      if |s| - (at + 1) >= t { TrailShift(s, at, 1, t, c); }
    }
  }

  lemma NextIs(s: seq<byte>)
    requires s != []
    ensures match Lead(s[0])
      case None => Next(s) == Malformed
      case Some((c, t)) => if |s| - 1 < t then Next(s) == Truncated else Next(s) == Trail(s, 1, t, c)
  {
    hide Trail, Lead;
  }

  lemma PieceIs(table: seq<Entity>, c: nat, quote: nat)
    ensures Literal(c, quote) ==> c < 256 && Piece(table, c, quote) == [c]
    ensures !Literal(c, quote) ==> Piece(table, c, quote) == [AMP] + Reference(table, c) + [SEMICOLON]
  {
    hide Reference;
  }

  lemma LookupIs(table: seq<Entity>, c: nat, ent: Option<Entity>)
    requires TableOk(table) && (ent.Some? ==> ent.value in table && ent.value.value == c) && (ent.None? ==> !Named(table, c))
    ensures Reference(table, c) == if ent.Some? then ent.value.name else [HASH] + Ascii(Numeral(c, 10))
  {
    if ent.Some? { FindValueIs(table, ent.value); } else { FindValueNone(table, c); }
    hide FindValue, Numeral;
  }
}
