/** Parsing an attribute value undoes htmlEncodeEntities, and encoding in pieces is encoding at once. */
module HtmlRoundTrip {
  import opened Seqs
  import opened Numerals
  import opened Utf8
  import opened HtmlEntities
  import opened HtmlAttributes

  // ---------- encoding in several calls ----------

  /** A call that stopped and the call that goes on from there do together what one call does that has
      room for both. */
  lemma {:induction false} Resume(table: seq<Entity>, s: seq<byte>, room: nat, more: nat, quote: nat)
    ensures var a := EncodeFrom(table, s, room, quote);
      var b := EncodeFrom(table, s[a.used..], more, quote);
      EncodeFrom(table, s, |a.out| + more, quote) ==
        if a.status == 0 then Encoded(b.status, a.out + b.out, a.used + b.used) else a
    decreases |s|
  {
    hide *;
    EncodeIs(table, s, room, quote);
    var a := EncodeFrom(table, s, room, quote);
    EncodeIs(table, s, |a.out| + more, quote);
    var b := EncodeFrom(table, s[a.used..], more, quote);
    match Next(s)
    case Malformed =>
    case Char(c, n) =>
      NextShorter(s);
      var p := Piece(table, c, quote);
      if |p| <= room {
        var t := s[n..];
        var a1 := EncodeFrom(table, t, room - |p|, quote);
        Resume(table, t, room - |p|, more, quote);
        assert |a.out| + more - |p| == |a1.out| + more;
        assert t[a1.used..] == s[a.used..];
        assert p + (a1.out + b.out) == (p + a1.out) + b.out;
      } else {
        assert s[0..] == s && [] + b.out == b.out;
      }
    case _ =>
      assert s[0..] == s && [] + b.out == b.out;
  }

  lemma NextShorter(s: seq<byte>)
    ensures var a := Next(s); a.Char? ==> 0 < a.n <= |s| && |s[a.n..]| < |s|
  {
    hide Trail;
  }

  /** Encoding s in one call for each of the rooms, each going on where the one before stopped. */
  function InCalls(table: seq<Entity>, s: seq<byte>, rooms: seq<nat>, quote: nat): (r: Encoded)
    ensures r.used <= |s|
    decreases |rooms|
  {
    if rooms == [] then Encoded(0, [], 0)
    else
      var a := EncodeFrom(table, s, rooms[0], quote);
      if a.status != 0 then a
      else
        var b := InCalls(table, s[a.used..], rooms[1..], quote);
        Encoded(b.status, a.out + b.out, a.used + b.used)
  }

  const LONGEST: nat := 10

  lemma TrailBound(s: seq<byte>, i: nat, t: nat, c: nat)
    requires i + t <= |s|
    ensures t == 0 && c < 0x80 ==> Trail(s, i, t, c).Char? && Trail(s, i, t, c).c < 0x200000
    ensures t == 1 && c < 32 ==> (Trail(s, i, t, c).Char? ==> Trail(s, i, t, c).c < 0x200000)
    ensures t == 2 && c < 16 ==> (Trail(s, i, t, c).Char? ==> Trail(s, i, t, c).c < 0x200000)
    ensures t == 3 && c < 8 ==> (Trail(s, i, t, c).Char? ==> Trail(s, i, t, c).c < 0x200000)
  {
    if t == 3 && 0x80 <= s[i] < 0xC0 {
      var d := c * 64 + (s[i] - 0x80);
      assert Trail(s, i, t, c) == Trail(s, i + 1, 2, d);
      if 0x80 <= s[i + 1] < 0xC0 {
        assert Trail(s, i + 1, 2, d) == Trail(s, i + 2, 1, d * 64 + (s[i + 1] - 0x80));
      }
    }
  }

  lemma NextBound(s: seq<byte>)
    requires Next(s).Char?
    ensures Next(s).c < 0x200000
  {
    TrailBound(s, 1, Lead(s[0]).value.1, Lead(s[0]).value.0);
    hide Trail;
  }

  lemma NumeralBound(n: nat)
    requires n < 10000000
    ensures |Numeral(n, 10)| <= 7
  {
    if n >= 1000 {
      DecLength(n / 1000 / 10);
      NumeralParts1000(n);
    } else {
      DecLength(n);
    }
    hide Numeral;
  }

  lemma NumeralParts1000(n: nat)
    requires n >= 1000
    ensures |Numeral(n, 10)| == |Numeral(n / 1000, 10)| + 3
    ensures n / 1000 >= 10 ==> |Numeral(n / 1000, 10)| == |Numeral(n / 1000 / 10, 10)| + 1
    ensures n / 1000 < 10 ==> |Numeral(n / 1000, 10)| == 1
  {
    assert |Numeral(n, 10)| == |Numeral(n / 10, 10)| + 1;
    assert |Numeral(n / 10, 10)| == |Numeral(n / 10 / 10, 10)| + 1;
    assert |Numeral(n / 10 / 10, 10)| == |Numeral(n / 10 / 10 / 10, 10)| + 1;
    assert n / 10 / 10 / 10 == n / 1000;
  }

  /** No character needs more than ten bytes. */
  lemma PieceLength(table: seq<Entity>, c: nat, quote: nat)
    requires TableOk(table) && c < 0x200000
    ensures |Piece(table, c, quote)| <= LONGEST
  {
    NumeralBound(c);
    if !Literal(c, quote) && FindValue(table, c).Some? {
      var e := FindValue(table, c).value;
      var i :| 0 <= i < |table| && table[i] == e;
      assert Plain(table[i].name);
    }
    hide Numeral, FindValue;
  }

  /** With ten bytes of room for every byte of input, more room changes nothing. */
  lemma {:induction false} PlentyOfRoom(table: seq<Entity>, s: seq<byte>, a: nat, b: nat, quote: nat)
    requires TableOk(table) && a >= LONGEST * |s| && b >= LONGEST * |s|
    ensures EncodeFrom(table, s, a, quote) == EncodeFrom(table, s, b, quote)
    decreases |s|
  {
    hide *;
    EncodeIs(table, s, a, quote);
    EncodeIs(table, s, b, quote);
    if Next(s).Char? {
      var c, n := Next(s).c, Next(s).n;
      NextBound(s);
      NextShorter(s);
      PieceLength(table, c, quote);
      LongestIs();
      var p := Piece(table, c, quote);
      PlentyOfRoom(table, s[n..], a - |p|, b - |p|, quote);
    }
  }

  lemma LongestIs()
    ensures LONGEST == 10
  {
  }

  ghost function Whole(table: seq<Entity>, s: seq<byte>, quote: nat): Encoded {
    EncodeFrom(table, s, LONGEST * |s|, quote)
  }

  /** Any calls that go on from one another write, put together, the beginning of what one call with enough
      room writes, and the rest of it is the encoding of the bytes they did not consume. */
  lemma {:induction false} EncodingInCalls(table: seq<Entity>, s: seq<byte>, rooms: seq<nat>, quote: nat)
    requires TableOk(table)
    ensures var r := InCalls(table, s, rooms, quote);
      if r.status != 0 then Whole(table, s, quote) == r
      else
        var rest := Whole(table, s[r.used..], quote);
        Whole(table, s, quote) == Encoded(rest.status, r.out + rest.out, r.used + rest.used)
    decreases |rooms|
  {
    hide *;
    InCallsIs(table, s, rooms, quote);
    WholeIs(table, s, quote);
    var none: seq<byte> := [];
    if rooms == [] {
      assert s[0..] == s && none + Whole(table, s, quote).out == Whole(table, s, quote).out;
    } else {
      var a := EncodeFrom(table, s, rooms[0], quote);
      var t := s[a.used..];
      var more := LONGEST * |s|;
      Resume(table, s, rooms[0], more, quote);
      PlentyOfRoom(table, s, more, |a.out| + more, quote);
      if a.status == 0 {
        WholeIs(table, t, quote);
        ShorterRoom(s, t);
        PlentyOfRoom(table, t, more, LONGEST * |t|, quote);
        EncodingInCalls(table, t, rooms[1..], quote);
        var b := InCalls(table, t, rooms[1..], quote);
        assert t[b.used..] == s[a.used + b.used..];
        var rest := Whole(table, t[b.used..], quote);
        assert a.out + (b.out + rest.out) == (a.out + b.out) + rest.out;
      }
    }
  }

  lemma ShorterRoom(s: seq<byte>, t: seq<byte>)
    requires |t| <= |s|
    ensures LONGEST * |s| >= LONGEST * |t|
  {
  }

  lemma WholeIs(table: seq<Entity>, s: seq<byte>, quote: nat)
    ensures Whole(table, s, quote) == EncodeFrom(table, s, LONGEST * |s|, quote)
  {
    hide EncodeFrom;
  }

  lemma InCallsIs(table: seq<Entity>, s: seq<byte>, rooms: seq<nat>, quote: nat)
    ensures rooms == [] ==> InCalls(table, s, rooms, quote) == Encoded(0, [], 0)
    ensures rooms != [] ==>
      var a := EncodeFrom(table, s, rooms[0], quote);
      if a.status != 0 then InCalls(table, s, rooms, quote) == a
      else
        var b := InCalls(table, s[a.used..], rooms[1..], quote);
        InCalls(table, s, rooms, quote) == Encoded(b.status, a.out + b.out, a.used + b.used)
  {
    hide EncodeFrom;
  }

  /** Ten bytes of room are enough to get past any well-formed character. */
  lemma Progress(table: seq<Entity>, s: seq<byte>, room: nat, quote: nat)
    requires TableOk(table) && room >= LONGEST && Next(s).Char?
    ensures EncodeFrom(table, s, room, quote).used > 0
  {
    EncodeIs(table, s, room, quote);
    NextBound(s);
    PieceLength(table, Next(s).c, quote);
    hide EncodeFrom, Piece, TableOk;
  }

  // ---------- the round trip ----------

  function AllPieces(table: seq<Entity>, cs: seq<rune>, quote: nat): seq<byte> {
    if cs == [] then [] else Piece(table, cs[0], quote) + AllPieces(table, cs[1..], quote)
  }

  lemma PiecesAre(table: seq<Entity>, cs: seq<rune>, quote: nat)
    ensures cs == [] ==> AllPieces(table, cs, quote) == [] && AllBytes(cs) == []
    ensures cs != [] ==>
      && AllPieces(table, cs, quote) == Piece(table, cs[0], quote) + AllPieces(table, cs[1..], quote)
      && AllBytes(cs) == Bytes(cs[0]) + AllBytes(cs[1..])
  {
    hide Piece, Bytes;
  }

  lemma NextOfNothing()
    ensures Next([]) == Nothing
  {
  }

  /** Valid UTF-8 is encoded character by character. */
  lemma {:induction false} EncodeChars(table: seq<Entity>, cs: seq<rune>, room: nat, quote: nat)
    requires room >= |AllPieces(table, cs, quote)|
    ensures EncodeFrom(table, AllBytes(cs), room, quote) == Encoded(0, AllPieces(table, cs, quote), |AllBytes(cs)|)
  {
    hide *;
    EncodeIs(table, AllBytes(cs), room, quote);
    PiecesAre(table, cs, quote);
    if cs == [] {
      NextOfNothing();
    } else {
      var rest := AllBytes(cs[1..]);
      NextOfBytes(cs[0], rest);
      EncodeChars(table, cs[1..], room - |Piece(table, cs[0], quote)|, quote);
    }
  }

  /** What is written for c is read as c: itself, its name, a numeric reference that is allowed, or one for
      NUL, which is what all others are read as. */
  ghost predicate Denoted(table: seq<Entity>, c: rune, quote: nat) {
    Literal(c, quote) || Named(table, c) || IsChar(c) || c == 0
  }

  /** The first character of what is written for c. */
  function FirstOf(c: rune, quote: nat): rune {
    if Literal(c, quote) then c else AMP
  }

  /** The characters that come back from the encoding: denoted, and not mistaken for the end of the value.
      With a quote in ' or " the end is only ever a NUL; without one it may also be a blank. */
  ghost predicate Survives(table: seq<Entity>, c: rune, quote: rune) {
    Denoted(table, c, quote) && !Ends(FirstOf(c, quote), quote)
  }

  lemma OneDigit(d: nat, rest: seq<rune>, val: nat)
    requires d < 10
    ensures Digits([(d + 48) as rune] + rest, 10, val) == (Digits(rest, 10, val * 10 + d).0, Digits(rest, 10, val * 10 + d).1 + 1)
  {
    var s: seq<rune> := [(d + 48) as rune] + rest;
    assert s[0] == d + 48 && s[1..] == rest;
  }

  lemma NumeralBytes(n: nat, rest: seq<rune>)
    ensures n < 10 ==> Ascii(Numeral(n, 10)) + rest == [(n + 48) as rune] + rest && |Numeral(n, 10)| == 1
    ensures n >= 10 ==>
      && Ascii(Numeral(n, 10)) + rest == Ascii(Numeral(n / 10, 10)) + ([(n % 10 + 48) as rune] + rest)
      && |Numeral(n, 10)| == |Numeral(n / 10, 10)| + 1
  {
    DigitCode(n % 10);
    hide Digit;
    if n < 10 {
      assert Numeral(n, 10) == [Digit(n)];
      assert Ascii(Numeral(n, 10)) == [(n + 48) as rune];
    } else {
      AsciiSnoc(Numeral(n / 10, 10), n % 10);
      hide Numeral, Ascii;
      var front: seq<rune> := Ascii(Numeral(n / 10, 10));
      assert (front + [(n % 10 + 48) as rune]) + rest == front + ([(n % 10 + 48) as rune] + rest);
    }
  }

  lemma DigitCode(d: nat)
    requires d < 10
    ensures Digit(d) as int == d + 48
  {
  }

  lemma AsciiSnoc(s: string, d: nat)
    requires d < 10
    ensures Ascii(s + [Digit(d)]) == Ascii(s) + [d + 48]
  {
    DigitCode(d);
    hide Digit;
  }

  lemma {:induction false} DigitsOfNumeral(n: nat, rest: seq<rune>)
    ensures Digits(Ascii(Numeral(n, 10)) + rest, 10, 0) ==
      (Digits(rest, 10, n).0, Digits(rest, 10, n).1 + |Numeral(n, 10)|)
  {
    hide *;
    NumeralBytes(n, rest);
    if n < 10 {
      OneDigit(n, rest, 0);
    } else {
      DigitsOfNumeral(n / 10, [(n % 10 + 48) as rune] + rest);
      OneDigit(n % 10, rest, n / 10);
      assert n / 10 * 10 + n % 10 == n;
    }
  }

  lemma {:induction false} AsciiBytes(name: seq<byte>)
    requires forall k :: 0 <= k < |name| ==> name[k] < 0x80
    ensures AllBytes(name) == name
  {
    if name != [] { AsciiBytes(name[1..]); }
  }

  /** A named reference is read back. */
  lemma NamedUnit(table: seq<Entity>, cls: Classes, e: Entity, rest: seq<rune>)
    requires TableOk(table) && e in table
    ensures var s: seq<rune> := [AMP] + e.name + [SEMICOLON] + rest;
      Unit(table, cls, s) == (Bytes(e.value), |e.name| + 2)
  {
    var s: seq<rune> := [AMP] + e.name + [SEMICOLON] + rest;
    var k := |e.name|;
    var i :| 0 <= i < |table| && table[i] == e;
    assert Plain(table[i].name);
    assert s[0] == AMP && s[1] == e.name[0] && s[1..1 + k] == e.name && s[1 + k] == SEMICOLON;
    NameRunIs(cls, s[1..][1..], k - 1);
    AsciiBytes(e.name);
    FindNameIs(table, e);
    hide NameRun, FindName, AllBytes, Bytes, TableOk;
  }

  /** A numeric reference is read back when it denotes a character, and gives NUL otherwise. */
  lemma NumericUnit(table: seq<Entity>, cls: Classes, c: rune, rest: seq<rune>)
    ensures var s: seq<rune> := [AMP] + ([HASH] + Ascii(Numeral(c, 10))) + [SEMICOLON] + rest;
      Unit(table, cls, s) == (Bytes(if IsChar(c) then c else 0), |Numeral(c, 10)| + 3)
  {
    var digits: seq<rune> := Ascii(Numeral(c, 10));
    var s: seq<rune> := [AMP] + ([HASH] + digits) + [SEMICOLON] + rest;
    var tail: seq<rune> := [SEMICOLON] + rest;
    assert s[0] == AMP && s[1] == HASH && s[2..] == digits + tail;
    DigitsOfNumeral(c, tail);
    assert Digits(tail, 10, c) == (c, 0);
    FirstDigit(c);
    assert s[2] == digits[0];
    assert s[2 + |digits|] == SEMICOLON;
    hide Numeral, Ascii, Digits, Bytes, IsChar;
  }

  lemma {:induction false} FirstDigit(n: nat)
    ensures 48 <= Numeral(n, 10)[0] as int < 58
  {
    if n >= 10 { FirstDigit(n / 10); }
  }

  /** The parser takes the whole piece of a character at once and makes the character of it, or NUL when it
      is written as a numeric reference that denotes none. */
  lemma UnitOfPiece(table: seq<Entity>, cls: Classes, c: rune, quote: nat, rest: seq<rune>)
    requires TableOk(table)
    ensures var s: seq<rune> := Piece(table, c, quote) + rest;
      && s[0] == FirstOf(c, quote)
      && Unit(table, cls, s) == (Bytes(if Denoted(table, c, quote) then c else 0), |Piece(table, c, quote)|)
      && s[|Piece(table, c, quote)|..] == rest
  {
    hide *;
    PieceIs(table, c, quote);
    DenotedIs(table, c, quote);
    if Literal(c, quote) {
      LiteralUnit(table, cls, c, quote, rest);
    } else {
      ReferenceIs(table, c);
      var e := FindValue(table, c);
      if e.Some? {
        NamedUnit(table, cls, e.value, rest);
      } else {
        NumericUnit(table, cls, c, rest);
      }
    }
  }

  lemma LiteralUnit(table: seq<Entity>, cls: Classes, c: rune, quote: nat, rest: seq<rune>)
    requires Literal(c, quote)
    ensures Unit(table, cls, [c] + rest) == (Bytes(c), 1)
  {
  }

  lemma ReferenceIs(table: seq<Entity>, c: nat)
    requires TableOk(table)
    ensures Reference(table, c) == (match FindValue(table, c) case Some(e) => e.name case None => [HASH] + Ascii(Numeral(c, 10)))
    ensures FindValue(table, c).Some? <==> Named(table, c)
    ensures FindValue(table, c).Some? ==> FindValue(table, c).value in table && FindValue(table, c).value.value == c
  {
    if Named(table, c) {
      var e :| e in table && e.value == c;
      FindValueIs(table, e);
    }
    hide FindValue, TableOk, Ascii, Numeral;
  }

  lemma DenotedIs(table: seq<Entity>, c: rune, quote: nat)
    ensures Denoted(table, c, quote) <==> Literal(c, quote) || Named(table, c) || IsChar(c) || c == 0
    ensures FirstOf(c, quote) == if Literal(c, quote) then c else AMP as rune
  {
    hide Literal, Named, IsChar;
  }

  lemma SurvivesIs(table: seq<Entity>, c: rune, quote: rune)
    ensures Survives(table, c, quote) <==> Denoted(table, c, quote) && !Ends(FirstOf(c, quote), quote)
    ensures !Denoted(table, c, quote) ==> c != 0
  {
    hide Named, Ends, IsChar;
  }

  /** What the parser does at the beginning of an encoded text. */
  lemma FirstPiece(table: seq<Entity>, cls: Classes, cs: seq<rune>, quote: rune)
    requires TableOk(table) && cs != []
    ensures var r := Attribute(table, cls, AllPieces(table, cs, quote), quote);
      if Ends(FirstOf(cs[0], quote), quote) then r == ([], 0)
      else
        var more := Attribute(table, cls, AllPieces(table, cs[1..], quote), quote);
        r == (Bytes(if Denoted(table, cs[0], quote) then cs[0] else 0) + more.0, |Piece(table, cs[0], quote)| + more.1)
  {
    hide *;
    var rest := AllPieces(table, cs[1..], quote);
    PiecesAre(table, cs, quote);
    UnitOfPiece(table, cls, cs[0], quote, rest);
    AttributeIs(table, cls, AllPieces(table, cs, quote), quote);
    AtFirst(AllPieces(table, cs, quote));
  }

  lemma AtFirst(s: seq<rune>)
    ensures s != [] ==> At(s, 0) == s[0]
  {
  }

  lemma CancelPrefix(p: seq<byte>, x: seq<byte>, y: seq<byte>)
    ensures p + x == p + y <==> x == y
  {
    if p + x == p + y {
      assert (p + x)[|p|..] == x && (p + y)[|p|..] == y;
    }
  }

  lemma NotNul(c: rune, x: seq<byte>, y: seq<byte>)
    requires c != 0
    ensures Bytes(0) + x != Bytes(c) + y
  {
    assert (Bytes(0) + x)[0] == 0 && (Bytes(c) + y)[0] == Bytes(c)[0];
  }

  /** Reading an encoded text with the stop character it was encoded for gives back the bytes of the text
      exactly when all its characters survive, and then takes the encoding whole. */
  lemma {:induction false} ParseUndoesEncode(table: seq<Entity>, cls: Classes, cs: seq<rune>, quote: rune)
    requires TableOk(table)
    ensures var pieces := AllPieces(table, cs, quote);
      var r := Attribute(table, cls, pieces, quote);
      && (r.0 == AllBytes(cs) <==> forall i :: 0 <= i < |cs| ==> Survives(table, cs[i], quote))
      && (r.0 == AllBytes(cs) ==> r.1 == |pieces|)
  {
    hide *;
    PiecesAre(table, cs, quote);
    if cs == [] {
      AttributeIs(table, cls, [], quote);
      EndsAtEnd(quote);
    } else {
      FirstPiece(table, cls, cs, quote);
      ParseUndoesEncode(table, cls, cs[1..], quote);
      SurvivesIs(table, cs[0], quote);
      BytesSome(cs[0]);
      assert cs == [cs[0]] + cs[1..];
      var more := Attribute(table, cls, AllPieces(table, cs[1..], quote), quote).0;
      if Survives(table, cs[0], quote) {
        CancelPrefix(Bytes(cs[0]), more, AllBytes(cs[1..]));
        assert forall i :: 0 <= i < |cs| - 1 ==> cs[1..][i] == cs[i + 1];
      } else if !Ends(FirstOf(cs[0], quote), quote) {
        NotNul(cs[0], more, AllBytes(cs[1..]));
      }
    }
  }

  /** With a quote character around the value, what survives is everything but NUL and what a numeric
      reference may not denote. */
  lemma QuotedSurvives(table: seq<Entity>, c: rune, quote: rune)
    requires quote == 34 || quote == 39
    ensures Survives(table, c, quote) <==> c != 0 && (Literal(c, quote) || Named(table, c) || IsChar(c))
  {
    hide Named;
  }

  /** It happens: U+FFFE, unless the table names it, comes back as a NUL byte, and after NUL nothing does. */
  lemma LostCharacters(table: seq<Entity>, cls: Classes, quote: rune)
    requires TableOk(table) && (quote == 34 || quote == 39)
    ensures var cs: seq<rune> := [0xFFFE];
      !Named(table, 0xFFFE) ==> Attribute(table, cls, AllPieces(table, cs, quote), quote).0 == [0] != AllBytes(cs)
    ensures forall tail: seq<rune> :: Attribute(table, cls, AllPieces(table, [0] + tail, quote), quote).0 == []
  {
    var none: seq<rune> := [];
    var c: rune := 0xFFFE;
    var cs := [c];
    assert cs[1..] == none;
    DenotedIs(table, c, quote);
    assert !Literal(c, quote) && !IsChar(c) && !Ends(AMP as rune, quote);
    assert Ends(FirstOf(0, quote), quote);
    hide *;
    PiecesAre(table, none, quote);
    AttributeIs(table, cls, none, quote);
    EndsAtEnd(quote);
    if !Named(table, c) {
      FirstPiece(table, cls, cs, quote);
      LoneBytes(c);
    }
    forall tail: seq<rune> ensures Attribute(table, cls, AllPieces(table, [0] + tail, quote), quote).0 == [] {
      FirstPiece(table, cls, [0] + tail, quote);
    }
  }

  lemma LoneBytes(c: rune)
    requires c >= 128
    ensures Bytes(0) == [0] && |Bytes(c)| > 1 && AllBytes([c]) == Bytes(c)
  {
    assert [c][1..] == [] && Bytes(c) + [] == Bytes(c);
  }

  lemma EndsAtEnd(quote: rune)
    ensures Ends(At([], 0), quote)
  {
  }

  lemma BytesSome(c: rune)
    ensures Bytes(c) != []
  {
  }

  /** The whole way: the bytes of any text of surviving characters, encoded in any number of calls that
      consume them all, are what the attribute parser makes of the output. */
  lemma RoundTrip(table: seq<Entity>, cls: Classes, cs: seq<rune>, rooms: seq<nat>, quote: rune)
    requires TableOk(table)
    requires forall i :: 0 <= i < |cs| ==> Survives(table, cs[i], quote)
    requires InCalls(table, AllBytes(cs), rooms, quote).used == |AllBytes(cs)|
    ensures var out := InCalls(table, AllBytes(cs), rooms, quote).out;
      Attribute(table, cls, out, quote) == (AllBytes(cs), |out|)
  {
    hide *;
    var s := AllBytes(cs);
    var r := InCalls(table, s, rooms, quote);
    EncodingInCalls(table, s, rooms, quote);
    PlentyForPieces(table, cs, quote);
    EncodeChars(table, cs, LONGEST * |s|, quote);
    WholeIs(table, s, quote);
    assert s[r.used..] == [];
    WholeIs(table, s[r.used..], quote);
    EncodeIs(table, s[r.used..], LONGEST * |s[r.used..]|, quote);
    NextOfNothing();
    assert r.out == AllPieces(table, cs, quote);
    ParseUndoesEncode(table, cls, cs, quote);
  }

  lemma {:induction false} PlentyForPieces(table: seq<Entity>, cs: seq<rune>, quote: nat)
    requires TableOk(table)
    ensures |AllPieces(table, cs, quote)| <= LONGEST * |AllBytes(cs)|
  {
    if cs != [] {
      PieceLength(table, cs[0], quote);
      PlentyForPieces(table, cs[1..], quote);
    }
    hide Piece, TableOk, Bytes;
  }
}
