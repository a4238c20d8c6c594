/** What htmlEncodeEntities writes, whatever it reads: harmless ASCII, in which every ampersand begins a reference. */
module HtmlOutput {
  import opened Seqs
  import opened Numerals
  import opened Utf8
  import opened HtmlEntities
  import opened HtmlRoundTrip

  /** A letter or a digit of ASCII. */
  predicate Alphanumeric(b: byte) { 97 <= b <= 122 || 65 <= b <= 90 || 48 <= b <= 57 }

  /** From the ampersand at i to the semicolon at j: a name, or a number sign and decimal digits. */
  ghost predicate IsReference(out: seq<byte>, i: nat, j: nat) {
    && i + 1 < j < |out| && out[i] == 38 && out[j] == 59
    && ((forall k :: i < k < j ==> Alphanumeric(out[k]))
        || (out[i + 1] == 35 && i + 2 < j && forall k :: i + 2 <= k < j ==> 48 <= out[k] <= 57))
  }

  /** ASCII without angle brackets and without the quote, in which every ampersand begins a reference. */
  ghost predicate Harmless(out: seq<byte>, quote: nat) {
    && (forall i :: 0 <= i < |out| ==> out[i] < 0x80 && out[i] != 60 && out[i] != 62 && out[i] != quote)
    && (forall i :: 0 <= i < |out| && out[i] == 38 ==> exists j :: IsReference(out, i, j))
  }

  lemma HarmlessConcat(a: seq<byte>, b: seq<byte>, quote: nat)
    requires Harmless(a, quote) && Harmless(b, quote)
    ensures Harmless(a + b, quote)
  {
    var c := a + b;
    forall i | 0 <= i < |c| && c[i] == 38 ensures exists j :: IsReference(c, i, j) {
      if i < |a| {
        var j :| IsReference(a, i, j);
        assert IsReference(c, i, j);
      } else {
        var j :| IsReference(b, i - |a|, j);
        ReferenceMoved(a, b, i - |a|, j);
      }
    }
  }

  lemma ReferenceMoved(a: seq<byte>, b: seq<byte>, i: nat, j: nat)
    requires IsReference(b, i, j)
    ensures IsReference(a + b, |a| + i, |a| + j)
  {
    var c := a + b;
    assert forall k :: |a| <= k < |c| ==> c[k] == b[k - |a|];
  }

  /** One reference by itself. */
  lemma LoneReference(body: seq<byte>, quote: nat)
    requires quote == 0 || quote == 34 || quote == 39
    requires body != []
    requires (forall k :: 0 <= k < |body| ==> Alphanumeric(body[k]))
      || (body[0] == 35 && |body| > 1 && forall k :: 1 <= k < |body| ==> 48 <= body[k] <= 57)
    ensures Harmless([38] + body + [59], quote)
  {
    var out: seq<byte> := [38] + body + [59];
    assert forall k :: 0 < k < |out| - 1 ==> out[k] == body[k - 1];
    assert IsReference(out, 0, |out| - 1);
  }

  lemma {:induction false} DecimalDigits(n: nat)
    ensures forall k :: 0 <= k < |Numeral(n, 10)| ==> 48 <= Numeral(n, 10)[k] as int <= 57
  {
    if n >= 10 { DecimalDigits(n / 10); }
  }

  /** The two forms of a reference. */
  lemma ReferenceForms(table: seq<Entity>, c: nat)
    requires TableOk(table)
    ensures var r := Reference(table, c);
      && r != []
      && ((forall k :: 0 <= k < |r| ==> Alphanumeric(r[k]))
          || (r[0] == 35 && |r| > 1 && forall k :: 1 <= k < |r| ==> 48 <= r[k] <= 57))
  {
    if FindValue(table, c).Some? {
      var e := FindValue(table, c).value;
      var i :| 0 <= i < |table| && table[i] == e;
      assert Plain(table[i].name);
    } else {
      DecimalDigits(c);
      assert Numeral(c, 10) != [];
    }
    hide Numeral, FindValue;
  }

  lemma PieceHarmless(table: seq<Entity>, c: nat, quote: nat)
    requires TableOk(table) && (quote == 0 || quote == 34 || quote == 39)
    ensures Harmless(Piece(table, c, quote), quote)
  {
    PieceIs(table, c, quote);
    if !Literal(c, quote) {
      ReferenceForms(table, c);
      LoneReference(Reference(table, c), quote);
    }
    hide Reference, TableOk, Piece;
  }

  /** Whatever is read, valid or not, and however little room there is: the output is harmless. */
  lemma {:induction false} OutputHarmless(table: seq<Entity>, s: seq<byte>, room: nat, quote: nat)
    requires TableOk(table) && (quote == 0 || quote == 34 || quote == 39)
    ensures Harmless(EncodeFrom(table, s, room, quote).out, quote)
    decreases |s|
  {
    hide *;
    EncodeIs(table, s, room, quote);
    NothingHarmless(quote);
    match Next(s)
    case Char(c, n) =>
      NextMoves(s);
      var p := Piece(table, c, quote);
      if |p| <= room {
        PieceHarmless(table, c, quote);
        OutputHarmless(table, s[n..], room - |p|, quote);
        HarmlessConcat(p, EncodeFrom(table, s[n..], room - |p|, quote).out, quote);
      }
    case _ =>
  }

  lemma NothingHarmless(quote: nat)
    ensures Harmless([], quote)
  {
  }

  lemma NextMoves(s: seq<byte>)
    ensures var a := Next(s); a.Char? ==> 0 < a.n <= |s|
  {
    hide Trail;
  }

  /** ASCII text that needs no escaping is copied as it is, as far as there is room. */
  lemma {:induction false} PlainCopied(table: seq<Entity>, s: seq<byte>, room: nat, quote: nat)
    requires forall i :: 0 <= i < |s| ==> s[i] < 0x80 && s[i] != 38 && s[i] != 60 && s[i] != 62 && s[i] != quote
    ensures var n := if room < |s| then room else |s|;
      EncodeFrom(table, s, room, quote) == Encoded(0, s[..n], n)
    decreases |s|
  {
    hide *;
    EncodeIs(table, s, room, quote);
    if s == [] {
      NextOfAscii(s);
    } else {
      NextOfAscii(s);
      PlainPiece(table, s[0], quote);
      if room > 0 {
        PlainCopied(table, s[1..], room - 1, quote);
        var n := if room < |s| then room else |s|;
        assert s[..n] == [s[0]] + s[1..][..n - 1];
      }
    }
  }

  lemma NextOfAscii(s: seq<byte>)
    ensures s == [] ==> Next(s) == Nothing
    ensures s != [] && s[0] < 0x80 ==> Next(s) == Char(s[0], 1)
  {
  }

  lemma PlainPiece(table: seq<Entity>, c: byte, quote: nat)
    requires c < 0x80 && c != 38 && c != 60 && c != 62 && c != quote
    ensures Piece(table, c, quote) == [c]
  {
  }

  /** Any other character is written as its name in the table, or as its number when it has none. */
  lemma OthersEscaped(table: seq<Entity>, c: rune, quote: nat)
    requires TableOk(table) && (c >= 0x80 || c == 38 || c == 60 || c == 62 || c == quote)
    ensures var out := EncodeFrom(table, Bytes(c), 10, quote).out;
      && (forall e :: e in table && e.value == c ==> out == [38] + e.name + [59])
      && (!Named(table, c) ==> out == [38, 35] + Ascii(Numeral(c, 10)) + [59])
  {
    hide *;
    EncodeIs(table, Bytes(c), 10, quote);
    assert Bytes(c) + [] == Bytes(c);
    NextOfBytes(c, []);
    PieceLength(table, c, quote);
    LongestIs();
    var p := Piece(table, c, quote);
    EncodeIs(table, [], 10 - |p|, quote);
    NextOfAscii([]);
    assert p + [] == p;
    forall e | e in table && e.value == c ensures p == [38] + e.name + [59] { FindValueIs(table, e); NamedPiece(table, e, quote); }
    if !Named(table, c) { FindValueNone(table, c); NumberedPiece(table, c, quote); }
  }

  lemma NamedPiece(table: seq<Entity>, e: Entity, quote: nat)
    requires FindValue(table, e.value) == Some(e)
    requires e.value >= 0x80 || e.value == 38 || e.value == 60 || e.value == 62 || e.value == quote
    ensures Piece(table, e.value, quote) == [38] + e.name + [59]
  {
  }

  lemma NumberedPiece(table: seq<Entity>, c: rune, quote: nat)
    requires FindValue(table, c) == None && (c >= 0x80 || c == 38 || c == 60 || c == 62 || c == quote)
    ensures Piece(table, c, quote) == [38, 35] + Ascii(Numeral(c, 10)) + [59]
  {
    hide Numeral, FindValue;
  }

  // ---------- where encoding stops ----------

  /** Valid characters are encoded, and then what follows them. */
  lemma {:induction false} EncodeThen(table: seq<Entity>, cs: seq<rune>, t: seq<byte>, room: nat, quote: nat)
    requires room >= |AllPieces(table, cs, quote)|
    ensures var p := AllPieces(table, cs, quote);
      var more := EncodeFrom(table, t, room - |p|, quote);
      EncodeFrom(table, AllBytes(cs) + t, room, quote) == Encoded(more.status, p + more.out, |AllBytes(cs)| + more.used)
    decreases |cs|
  {
    hide *;
    PiecesAre(table, cs, quote);
    if cs == [] {
      assert [] + t == t;
      assert [] + EncodeFrom(table, t, room, quote).out == EncodeFrom(table, t, room, quote).out;
    } else {
      var b, rest := Bytes(cs[0]), AllBytes(cs[1..]) + t;
      var p, more := Piece(table, cs[0], quote), AllPieces(table, cs[1..], quote);
      assert AllBytes(cs) + t == b + rest;
      NextOfBytes(cs[0], rest);
      EncodeIs(table, b + rest, room, quote);
      EncodeThen(table, cs[1..], t, room - |p|, quote);
      var last := EncodeFrom(table, t, room - |p + more|, quote).out;
      assert p + (more + last) == (p + more) + last;
    }
  }

  /** How many bytes a character takes that begins with this byte; 0 when none does. */
  function Width(b: byte): nat {
    if b < 0x80 then 1 else if b < 0xC0 then 0 else if b < 0xE0 then 2 else if b < 0xF0 then 3 else if b < 0xF8 then 4 else 0
  }

  /** Behind valid characters, a byte that begins none is an error, and a character that the end of the input
      cuts off is left for the next call; either way what stands before is encoded and consumed. */
  lemma StopsBehind(table: seq<Entity>, cs: seq<rune>, t: seq<byte>, room: nat, quote: nat)
    requires room >= |AllPieces(table, cs, quote)| && t != [] && (Width(t[0]) == 0 || |t| < Width(t[0]))
    ensures EncodeFrom(table, AllBytes(cs) + t, room, quote) ==
      Encoded(if Width(t[0]) == 0 then -2 else 0, AllPieces(table, cs, quote), |AllBytes(cs)|)
  {
    hide *;
    EncodeThen(table, cs, t, room, quote);
    NextStops(t);
    EncodeIs(table, t, room - |AllPieces(table, cs, quote)|, quote);
    assert AllPieces(table, cs, quote) + [] == AllPieces(table, cs, quote);
  }

  lemma NextStops(t: seq<byte>)
    requires t != [] && (Width(t[0]) == 0 || |t| < Width(t[0]))
    ensures if Width(t[0]) == 0 then Next(t) == Malformed else Next(t) == Truncated
  {
    hide Trail;
  }

  /** So is a character whose second byte does not go on with it. */
  lemma BrokenBehind(table: seq<Entity>, cs: seq<rune>, t: seq<byte>, room: nat, quote: nat)
    requires room >= |AllPieces(table, cs, quote)| && t != [] && 2 <= Width(t[0]) <= |t| && !(0x80 <= t[1] < 0xC0)
    ensures EncodeFrom(table, AllBytes(cs) + t, room, quote) == Encoded(-2, AllPieces(table, cs, quote), |AllBytes(cs)|)
  {
    hide *;
    EncodeThen(table, cs, t, room, quote);
    NextBreaks(t);
    EncodeIs(table, t, room - |AllPieces(table, cs, quote)|, quote);
    assert AllPieces(table, cs, quote) + [] == AllPieces(table, cs, quote);
  }

  lemma NextBreaks(t: seq<byte>)
    requires t != [] && 2 <= Width(t[0]) <= |t| && !(0x80 <= t[1] < 0xC0)
    ensures Next(t) == Malformed
  {
  }
}
