/** Attribute values as they are written by hand: ampersands that begin no reference, numeric references, and
    where a value ends. */
module HtmlValues {
  import opened Seqs
  import opened Numerals
  import opened Utf8
  import opened HtmlEntities
  import opened HtmlAttributes
  import opened HtmlRoundTrip

  /** A value ends at a NUL and at its quote; one without a quote (stop 0) also at ">", space, tab and line end. */
  predicate Closes(c: rune, stop: rune) {
    c == 0 || c == stop || (stop == 0 && (c == 62 || c == 32 || c == 9 || c == 10 || c == 13))
  }

  lemma ClosesIs(c: rune, stop: rune)
    ensures Ends(c, stop) <==> Closes(c, stop)
  {
  }

  lemma {:induction false} AllBytesConcat(a: seq<rune>, b: seq<rune>)
    ensures AllBytes(a + b) == AllBytes(a) + AllBytes(b)
  {
    hide Bytes;
    if a == [] {
      assert a + b == b;
    } else {
      assert (a + b)[1..] == a[1..] + b;
      AllBytesConcat(a[1..], b);
    }
  }

  // ---------- ampersands that begin no reference ----------

  /** "&name;" stands in s, and the table has the name. */
  ghost predicate Refers(table: seq<Entity>, s: seq<rune>, i: nat, e: Entity) {
    i + |e.name| + 1 < |s| && s[i] == 38 && s[i + 1..i + 1 + |e.name|] == e.name && s[i + 1 + |e.name|] == 59 && e in table
  }

  /** No reference in s: no "&#" and no "&name;" of a name in the table. */
  ghost predicate NoReference(table: seq<Entity>, s: seq<rune>) {
    && (forall i :: 0 <= i < |s| - 1 && s[i] == 38 ==> s[i + 1] != 35)
    && (forall i: nat, e :: i < |s| ==> !Refers(table, s, i, e))
  }

  lemma NoReferenceTail(table: seq<Entity>, s: seq<rune>, n: nat)
    requires NoReference(table, s) && n <= |s|
    ensures NoReference(table, s[n..])
  {
    var t := s[n..];
    forall i: nat, e | i < |t| ensures !Refers(table, t, i, e) {
      if Refers(table, t, i, e) {
        assert s[n + i + 1..n + i + 1 + |e.name|] == t[i + 1..i + 1 + |e.name|];
        assert Refers(table, s, n + i, e);
      }
    }
  }

  lemma {:induction false} AsciiOnly(x: seq<rune>)
    requires forall k :: 0 <= k < |AllBytes(x)| ==> AllBytes(x)[k] < 0x80
    ensures AllBytes(x) == x
  {
    if x != [] {
      var b, rest := Bytes(x[0]), AllBytes(x[1..]);
      assert AllBytes(x) == b + rest;
      assert b[0] == AllBytes(x)[0];
      assert forall k :: 0 <= k < |rest| ==> rest[k] == AllBytes(x)[|b| + k];
      AsciiOnly(x[1..]);
    }
  }

  /** A name whose bytes are a row's name is that name. */
  lemma NameIs(table: seq<Entity>, name: seq<rune>)
    requires TableOk(table) && FindName(table, AllBytes(name)).Some?
    ensures FindName(table, AllBytes(name)).value in table && FindName(table, AllBytes(name)).value.name == name
  {
    var e := FindName(table, AllBytes(name)).value;
    var i :| 0 <= i < |table| && table[i] == e;
    assert Plain(table[i].name);
    AsciiOnly(name);
    hide FindName, AllBytes;
  }

  /** Without a reference at its beginning, the text is taken as it is: one character, or an ampersand and
      the name behind it. */
  lemma UnitOfText(table: seq<Entity>, cls: Classes, s: seq<rune>)
    requires TableOk(table) && s != [] && NoReference(table, s)
    ensures var u := Unit(table, cls, s); u.0 == AllBytes(s[..u.1])
  {
    if s[0] == 38 {
      assert At(s, 1) != HASH;
      hide FindName, AllBytes, Bytes, NameLength;
      LoneAmpersand();
      var k := NameLength(cls, s[1..]);
      var name := s[1..1 + k];
      AmpersandThen(name);
      assert s[..1] == [38];
      assert s[..1 + k] == [38] + name;
      if k > 0 && FindName(table, AllBytes(name)).Some? {
        NameIs(table, name);
        assert !Refers(table, s, 0, FindName(table, AllBytes(name)).value);
      }
    } else {
      assert s[..1] == [s[0]] && s[..1][1..] == [];
      hide Bytes;
    }
  }

  lemma LoneAmpersand()
    ensures AllBytes([38]) == [38]
  {
    assert [38 as rune][1..] == [];
  }

  lemma AmpersandThen(name: seq<rune>)
    ensures AllBytes([38] + name) == [38] + AllBytes(name)
  {
    LoneAmpersand();
    AllBytesConcat([38], name);
  }

  /** Text without references and without an end comes out as it is: every ampersand stays, and so does the
      name behind it, known or not. */
  lemma {:induction false} TextKept(table: seq<Entity>, cls: Classes, s: seq<rune>, stop: rune)
    requires TableOk(table) && NoReference(table, s) && forall i :: 0 <= i < |s| ==> !Closes(s[i], stop)
    ensures Attribute(table, cls, s, stop) == (AllBytes(s), |s|)
    decreases |s|
  {
    hide *;
    AttributeIs(table, cls, s, stop);
    if s == [] {
      EndsAtEnd(stop);
      NoBytes();
    } else {
      ClosesIs(s[0], stop);
      AtFirst(s);
      UnitOfText(table, cls, s);
      var n := Unit(table, cls, s).1;
      NoReferenceTail(table, s, n);
      TextKept(table, cls, s[n..], stop);
      AllBytesConcat(s[..n], s[n..]);
      assert s[..n] + s[n..] == s;
    }
  }

  lemma NoBytes()
    ensures AllBytes([]) == []
  {
  }

  // ---------- where a value ends ----------

  lemma {:induction false} DigitsOpen(s: seq<rune>, base: nat, val: nat, stop: rune)
    requires stop == 0 || stop == 34 || stop == 39
    ensures forall i :: 0 <= i < Digits(s, base, val).1 ==> !Closes(s[i], stop)
  {
    if s != [] && DigitOf(s[0], base).Some? {
      DigitsOpen(s[1..], base, val * base + DigitOf(s[0], base).value, stop);
      assert forall i :: 0 < i < |s| ==> s[i] == s[1..][i - 1];
    }
  }

  lemma CharRefOpen(s: seq<rune>, stop: rune)
    requires |s| >= 2 && s[0] == 38 && s[1] == 35 && (stop == 0 || stop == 34 || stop == 39)
    ensures forall i :: 0 <= i < CharRef(s).1 ==> !Closes(s[i], stop)
  {
    var hex := At(s, 2) == 120 || At(s, 2) == 88;
    var start := if hex then 3 else 2;
    DigitsOpen(s[start..], if hex then 16 else 10, 0, stop);
    var d := Digits(s[start..], if hex then 16 else 10, 0);
    assert forall i :: start <= i < |s| ==> s[i] == s[start..][i - start];
    hide Digits, IsChar;
  }

  lemma NameOpen(cls: Classes, c: rune, stop: rune)
    requires stop == 0 || stop == 34 || stop == 39
    ensures NameStart(cls, c) || NamePart(cls, c) ==> !Closes(c, stop)
  {
  }

  lemma EntityRefOpen(table: seq<Entity>, cls: Classes, s: seq<rune>, stop: rune)
    requires s != [] && s[0] == 38 && (stop == 0 || stop == 34 || stop == 39)
    ensures forall i :: 0 <= i < EntityRef(table, cls, s).1 ==> !Closes(s[i], stop)
  {
    var k := NameLength(cls, s[1..]);
    forall i | 0 <= i < |s| ensures NameStart(cls, s[i]) || NamePart(cls, s[i]) ==> !Closes(s[i], stop) { NameOpen(cls, s[i], stop); }
    if k > 0 {
      assert s[1..][0] == s[1];
      forall i | 2 <= i < 1 + k ensures NamePart(cls, s[i]) { assert s[1..][1..][i - 2] == s[i]; }
    }
    hide FindName, AllBytes, NameRun, NamePart, NameStart;
  }

  lemma UnitOpen(table: seq<Entity>, cls: Classes, s: seq<rune>, stop: rune)
    requires s != [] && !Closes(s[0], stop) && (stop == 0 || stop == 34 || stop == 39)
    ensures forall i :: 0 <= i < Unit(table, cls, s).1 ==> !Closes(s[i], stop)
  {
    if s[0] == 38 {
      if At(s, 1) == HASH { CharRefOpen(s, stop); } else { EntityRefOpen(table, cls, s, stop); }
    }
    hide CharRef, EntityRef, Closes, Bytes;
  }

  /** A value, quoted or not, is taken up to exactly the first character that closes it, or to the end of the
      input: no reference swallows such a character. */
  lemma {:induction false} ValueEnds(table: seq<Entity>, cls: Classes, s: seq<rune>, stop: rune)
    requires stop == 0 || stop == 34 || stop == 39
    ensures var n := Attribute(table, cls, s, stop).1;
      && (forall i :: 0 <= i < n ==> !Closes(s[i], stop))
      && (n < |s| ==> Closes(s[n], stop))
    decreases |s|
  {
    hide *;
    AttributeIs(table, cls, s, stop);
    AtFirst(s);
    if s != [] {
      ClosesIs(s[0], stop);
      if !Closes(s[0], stop) {
        UnitOpen(table, cls, s, stop);
        var n := Unit(table, cls, s).1;
        ValueEnds(table, cls, s[n..], stop);
        assert forall i :: n <= i < |s| ==> s[i] == s[n..][i - n];
      }
    }
  }

  // ---------- numeric references ----------

  /** The characters of XML 1.0. */
  predicate Allowed(c: nat) {
    c == 9 || c == 10 || c == 13 || 0x20 <= c <= 0xD7FF || 0xE000 <= c <= 0xFFFD || 0x1_0000 <= c <= 0x10_FFFF
  }

  lemma AllowedIs(c: nat)
    ensures IsChar(c) <==> Allowed(c)
  {
  }

  /** The digit stands for itself or, being a letter, for its capital. */
  predicate EitherCase(c: rune, digit: char) {
    c == digit as int || ('a' <= digit <= 'f' && c == digit as int - 32)
  }

  ghost predicate HexOf(digits: seq<rune>, n: nat) {
    |digits| == |Numeral(n, 16)| && forall i :: 0 <= i < |digits| ==> EitherCase(digits[i], Numeral(n, 16)[i])
  }

  lemma HexDigit(c: rune, d: nat, rest: seq<rune>, val: nat)
    requires d < 16 && EitherCase(c, Digit(d))
    ensures Digits([c] + rest, 16, val) == (Digits(rest, 16, val * 16 + d).0, Digits(rest, 16, val * 16 + d).1 + 1)
    ensures c != 59 && !Closes(c, 0)
  {
    CaseValue(c, d);
    var s := [c] + rest;
    assert s[0] == c && s[1..] == rest;
  }

  lemma CaseValue(c: rune, d: nat)
    requires d < 16 && EitherCase(c, Digit(d))
    ensures DigitOf(c, 16) == Some(d) && c != 59 && !Closes(c, 0)
  {
    if d < 10 { assert Digit(d) as int == 48 + d; } else { assert Digit(d) as int == 87 + d; }
    hide Digit;
  }

  lemma HexParts(digits: seq<rune>, n: nat)
    requires HexOf(digits, n)
    ensures digits != []
    ensures n < 16 ==> |digits| == 1 && EitherCase(digits[0], Digit(n))
    ensures n >= 16 ==>
      var front := digits[..|digits| - 1];
      && HexOf(front, n / 16) && EitherCase(digits[|digits| - 1], Digit(n % 16)) && digits == front + [digits[|digits| - 1]]
  {
    hide EitherCase, Digit;
    if n >= 16 {
      var t := Numeral(n, 16);
      assert t == Numeral(n / 16, 16) + [Digit(n % 16)];
      assert t[|t| - 1] == Digit(n % 16);
    }
  }

  lemma {:induction false} DigitsOfHex(digits: seq<rune>, n: nat, rest: seq<rune>)
    requires HexOf(digits, n)
    ensures Digits(digits + rest, 16, 0) == (Digits(rest, 16, n).0, Digits(rest, 16, n).1 + |digits|)
    decreases n
  {
    hide *;
    HexParts(digits, n);
    if n < 16 {
      HexDigit(digits[0], n, rest, 0);
      assert digits == [digits[0]];
    } else {
      var front, last := digits[..|digits| - 1], digits[|digits| - 1];
      DigitsOfHex(front, n / 16, [last] + rest);
      HexDigit(last, n % 16, rest, n / 16);
      assert n / 16 * 16 + n % 16 == n;
      assert digits + rest == front + ([last] + rest);
    }
  }

  /** A hexadecimal reference, "&#x" or "&#X" and digits of either case, gives its character, or a NUL when that
      is no character of XML. */
  lemma HexReference(table: seq<Entity>, cls: Classes, x: rune, digits: seq<rune>, c: rune, rest: seq<rune>, stop: rune)
    requires (x == 120 || x == 88) && HexOf(digits, c) && (stop == 0 || stop == 34 || stop == 39)
    ensures var s := [38, 35, x] + digits + [59] + rest;
      var more := Attribute(table, cls, rest, stop);
      Attribute(table, cls, s, stop) == (Bytes(if Allowed(c) then c else 0) + more.0, |digits| + 4 + more.1)
  {
    hide *;
    var s: seq<rune> := [38, 35, x] + digits + [59] + rest;
    AttributeIs(table, cls, s, stop);
    HexUnit(table, cls, x, digits, c, rest);
    AtFirst(s);
    OpenAmpersand(stop);
    assert s[|digits| + 4..] == rest;
  }

  lemma OpenAmpersand(stop: rune)
    requires stop == 0 || stop == 34 || stop == 39
    ensures !Ends(38, stop)
  {
  }

  lemma HexUnit(table: seq<Entity>, cls: Classes, x: rune, digits: seq<rune>, c: rune, rest: seq<rune>)
    requires (x == 120 || x == 88) && HexOf(digits, c)
    ensures var s: seq<rune> := [38, 35, x] + digits + [59] + rest;
      s != [] && Unit(table, cls, s) == (Bytes(if Allowed(c) then c else 0), |digits| + 4)
  {
    var s: seq<rune> := [38, 35, x] + digits + [59] + rest;
    var tail: seq<rune> := [59] + rest;
    assert s[3..] == digits + tail;
    DigitsOfHex(digits, c, tail);
    assert Digits(tail, 16, c) == (c, 0);
    assert s[0] == 38 && s[1] == 35 && s[2] == x && s[3 + |digits|] == 59;
    AllowedIs(c);
    hide HexOf, Digits, Bytes, IsChar, Allowed;
  }

  /** A decimal reference does the same. */
  lemma DecimalReference(table: seq<Entity>, cls: Classes, c: rune, rest: seq<rune>, stop: rune)
    requires stop == 0 || stop == 34 || stop == 39
    ensures var digits: seq<rune> := Ascii(Numeral(c, 10));
      var s := [38, 35] + digits + [59] + rest;
      var more := Attribute(table, cls, rest, stop);
      Attribute(table, cls, s, stop) == (Bytes(if Allowed(c) then c else 0) + more.0, |digits| + 3 + more.1)
  {
    hide *;
    var digits: seq<rune> := Ascii(Numeral(c, 10));
    var s: seq<rune> := [38, 35] + digits + [59] + rest;
    AttributeIs(table, cls, s, stop);
    NumericUnit(table, cls, c, rest);
    Marks();
    assert s == [AMP] + ([HASH] + digits) + [SEMICOLON] + rest;
    AllowedIs(c);
    AtFirst(s);
    OpenAmpersand(stop);
    assert s[|digits| + 3..] == rest;
  }

  lemma Marks()
    ensures AMP == 38 && HASH == 35 && SEMICOLON == 59
  {
  }

  /** And a named one. */
  lemma NamedReference(table: seq<Entity>, cls: Classes, e: Entity, rest: seq<rune>, stop: rune)
    requires TableOk(table) && e in table && (stop == 0 || stop == 34 || stop == 39)
    ensures var s: seq<rune> := [38] + e.name + [59] + rest;
      var more := Attribute(table, cls, rest, stop);
      Attribute(table, cls, s, stop) == (Bytes(e.value) + more.0, |e.name| + 2 + more.1)
  {
    hide *;
    var s: seq<rune> := [38] + e.name + [59] + rest;
    AttributeIs(table, cls, s, stop);
    NamedUnit(table, cls, e, rest);
    Marks();
    AtFirst(s);
    OpenAmpersand(stop);
    assert s[|e.name| + 2..] == rest;
  }
}
