/** The pieces that the IPv6 parser finds between two colons and behind the last: groups of hexadecimal
    digits, widths and embedded IPv4 addresses. */
module AddressGrammar {
  import opened Seqs
  import opened Numerals
  import opened AddressText
  import opened AddressParse
  import opened AddressRoundTrip

  // ---------- widths ----------

  lemma DigitOf(c: char)
    requires DecValue(c).Some?
    ensures c == Digit(DecValue(c).value)
  {
  }

  lemma NumeralDigit(n: nat, d: nat)
    requires d < 10
    ensures Numeral(d, 10) == [Digit(d)]
    ensures n > 0 ==> Numeral(n * 10 + d, 10) == Numeral(n, 10) + [Digit(d)]
  {
  }

  lemma BitsDigit(d: nat, rest: string, val: nat, n: nat)
    requires d < 10 && val <= 128 && (n == 0 || val != 0) && val * 10 + d <= 128
    ensures BitsFrom([Digit(d)] + rest, val, n) == BitsFrom(rest, val * 10 + d, n + 1)
  {
    DigitValue(d);
    assert ([Digit(d)] + rest)[1..] == rest;
    hide Digit;
  }

  lemma {:induction false} BitsNumeral(v: nat, rest: string)
    requires v <= 128
    ensures BitsFrom(Numeral(v, 10) + rest, 0, 0) == BitsFrom(rest, v, |Numeral(v, 10)|)
    decreases v
  {
    hide Numeral, BitsFrom, Digit;
    NumeralParts(v, 10, rest);
    if v < 10 {
      BitsDigit(v, rest, 0, 0);
    } else {
      BitsNumeral(v / 10, [Digit(v % 10)] + rest);
      BitsDigit(v % 10, rest, v / 10, |Numeral(v / 10, 10)|);
    }
  }

  /** Part p of a numeral has been read, with value val. */
  ghost predicate Sofar(p: string, val: nat, n: nat) {
    if n == 0 then p == "" && val == 0 else p == Numeral(val, 10)
  }

  lemma SofarNext(p: string, val: nat, n: nat, c: char)
    requires Sofar(p, val, n) && DecValue(c).Some? && (n == 0 || val != 0)
    ensures Sofar(p + [c], val * 10 + DecValue(c).value, n + 1)
  {
    DigitOf(c);
    NumeralDigit(val, DecValue(c).value);
    hide Numeral, Digit, DecValue;
  }

  lemma {:induction false} BitsWritten(s: string, p: string, val: nat, n: nat)
    requires val <= 128 && Sofar(p, val, n) && BitsFrom(s, val, n).Some?
    ensures p + s == Numeral(BitsFrom(s, val, n).value, 10)
    decreases |s|
  {
    hide Numeral, DecValue, Digit;
    if s == "" {
      assert p + s == p;
    } else {
      hide Sofar;
      SofarNext(p, val, n, s[0]);
      BitsWritten(s[1..], p + [s[0]], val * 10 + DecValue(s[0]).value, n + 1);
      assert (p + [s[0]]) + s[1..] == p + s;
    }
  }

  /** getbits accepts exactly the numerals of 0 to 128 without leading zeros, for their values. */
  lemma WidthText(s: string, v: nat)
    ensures BitsFrom(s, 0, 0) == Some(v) <==> v <= 128 && s == Numeral(v, 10)
  {
    if BitsFrom(s, 0, 0) == Some(v) {
      BitsWritten(s, "", 0, 0);
      assert "" + s == s;
    }
    if v <= 128 && s == Numeral(v, 10) {
      BitsNumeral(v, "");
      assert Numeral(v, 10) + "" == s;
    }
    hide Numeral;
  }

  // ---------- embedded IPv4 addresses ----------

  /** The strings with a period between neighbours. */
  function Dots(items: seq<string>): string
    requires items != []
  {
    if |items| == 1 then items[0] else items[0] + ("." + Dots(items[1..]))
  }

  /** An octet's text: its numeral, or nothing at all for zero. */
  ghost predicate Octet(item: string, b: nat) { item == Numeral(b, 10) || (item == "" && b == 0) }

  function WidthTail(width: Option<nat>): string {
    if width.Some? then "/" + Numeral(width.value, 10) else ""
  }

  /** s is the text of these octets with this width. The last octet's text may only be empty before a width. */
  ghost predicate QuadText(s: string, items: seq<string>, octets: seq<byte>, width: Option<nat>) {
    && |items| == |octets| > 0
    && (forall i :: 0 <= i < |items| ==> Octet(items[i], octets[i]))
    && s == Dots(items) + WidthTail(width)
    && (if width.Some? then width.value <= 128 else items[|items| - 1] != "")
  }

  lemma Regroup(a: string, b: string, c: string)
    ensures (a + ("." + b)) + c == a + ("." + (b + c))
  {
  }

  lemma QuadTextFirst(item: string, b: byte, rest: string, items: seq<string>, octets: seq<byte>, width: Option<nat>)
    requires Octet(item, b) && QuadText(rest, items, octets, width)
    ensures QuadText(item + ("." + rest), [item] + items, [b] + octets, width)
  {
    hide Octet, WidthTail;
    assert ([item] + items)[1..] == items;
    Regroup(item, Dots(items), WidthTail(width));
  }

  lemma QuadTextRest(s: string, items: seq<string>, octets: seq<byte>, width: Option<nat>)
    requires QuadText(s, items, octets, width) && |items| > 1
    ensures Octet(items[0], octets[0])
    ensures exists rest :: s == items[0] + ("." + rest) && QuadText(rest, items[1..], octets[1..], width)
  {
    hide Octet, WidthTail;
    Regroup(items[0], Dots(items[1..]), WidthTail(width));
    assert QuadText(Dots(items[1..]) + WidthTail(width), items[1..], octets[1..], width);
  }

  /** Reading one octet's text. */
  lemma ItemReads(item: string, b: byte, rest: string, out: seq<byte>)
    requires Octet(item, b) && |out| <= 4
    ensures V4From(item + rest, out, 0, 0) == V4From(rest, out, b, |item|)
  {
    if item == "" {
      assert item + rest == rest;
    } else {
      V4Number(b, rest, out);
    }
    hide Numeral, V4From;
  }

  lemma {:induction false} QuadReads(s: string, items: seq<string>, octets: seq<byte>, width: Option<nat>, out: seq<byte>)
    requires QuadText(s, items, octets, width) && |out| + |octets| <= 4
    ensures V4From(s, out, 0, 0) == Some(Quad(out + octets, width))
    decreases |items|
  {
    hide *;
    QuadTextParts(s, items, octets, width);
    if |items| == 1 {
      ItemReads(items[0], octets[0], WidthTail(width), out);
      QuadEnds(items[0], octets[0], width, out);
      assert octets == [octets[0]];
    } else {
      QuadTextRest(s, items, octets, width);
      var rest :| s == items[0] + ("." + rest) && QuadText(rest, items[1..], octets[1..], width);
      ItemReads(items[0], octets[0], "." + rest, out);
      DotRead(octets[0], |items[0]|, rest, out);
      QuadReads(rest, items[1..], octets[1..], width, out + [octets[0]]);
      assert (out + [octets[0]]) + octets[1..] == out + octets;
    }
  }

  lemma DotRead(val: byte, n: nat, rest: string, out: seq<byte>)
    requires |out| <= 3
    ensures V4From("." + rest, out, val, n) == V4From(rest, out + [val], 0, 0)
  {
    assert ("." + rest)[1..] == rest;
    hide BitsFrom;
  }

  lemma QuadEnds(item: string, val: byte, width: Option<nat>, out: seq<byte>)
    requires |out| <= 3 && (if width.Some? then width.value <= 128 else item != "")
    ensures V4From(WidthTail(width), out, val, |item|) == Some(Quad(out + [val], width))
  {
    hide Numeral, BitsFrom;
    if width.Some? {
      var tail := WidthTail(width);
      assert tail[1..] == Numeral(width.value, 10);
      WidthText(tail[1..], width.value);
    }
  }

  lemma SofarOctet(p: string, val: nat, n: nat)
    requires Sofar(p, val, n)
    ensures Octet(p, val) && (n > 0 ==> p != "")
  {
    hide Numeral;
  }

  lemma QuadTextLast(p: string, b: byte, width: Option<nat>)
    requires Octet(p, b) && (width.None? ==> p != "") && (width.Some? ==> width.value <= 128)
    ensures QuadText(p + WidthTail(width), [p], [b], width)
  {
    hide WidthTail, Octet;
  }

  /** Behind the part p of an octet's text, s goes on as a quad's text. */
  lemma {:induction false} QuadWritten(s: string, p: string, out: seq<byte>, val: byte, n: nat)
      returns (items: seq<string>, octets: seq<byte>)
    requires |out| <= 4 && Sofar(p, val, n) && V4From(s, out, val, n).Some?
    ensures var q := V4From(s, out, val, n).value; q.octets == out + octets && QuadText(p + s, items, octets, q.bits)
    decreases |s|
  {
    hide Numeral, DecValue, Octet, Sofar, QuadText;
    SofarOctet(p, val, n);
    if s == "" {
      items, octets := [p], [val];
      QuadTextLast(p, val, None);
    } else if DecValue(s[0]).Some? {
      SofarNext(p, val, n, s[0]);
      items, octets := QuadWritten(s[1..], p + [s[0]], out, val as nat * 10 + DecValue(s[0]).value, n + 1);
      assert (p + [s[0]]) + s[1..] == p + s;
    } else if s[0] == '/' {
      items, octets := [p], [val];
      var w := BitsFrom(s[1..], 0, 0).value;
      WidthText(s[1..], w);
      QuadTextLast(p, val, Some(w));
      assert s == "/" + s[1..];
    } else {
      SofarNone();
      items, octets := QuadWritten(s[1..], "", out + [val], 0, 0);
      assert "" + s[1..] == s[1..] && s == "." + s[1..];
      QuadTextFirst(p, val, s[1..], items, octets, V4From(s, out, val, n).value.bits);
      items, octets := [p] + items, [val] + octets;
      assert (out + [val]) + octets[1..] == out + octets;
    }
  }

  lemma SofarNone()
    ensures Sofar("", 0, 0)
  {
  }

  /** getv4 accepts exactly the texts of up to four octets, with a width or without, and reads those octets
      and that width. */
  lemma QuadMeaning(s: string, octets: seq<byte>, width: Option<nat>)
    ensures V4From(s, [], 0, 0) == Some(Quad(octets, width)) <==>
      |octets| <= 4 && exists items :: QuadText(s, items, octets, width)
  {
    hide *;
    if V4From(s, [], 0, 0) == Some(Quad(octets, width)) {
      SofarNone();
      var items, bs := QuadWritten(s, "", [], 0, 0);
      assert "" + s == s && [] + bs == bs;
    }
    if |octets| <= 4 && exists items :: QuadText(s, items, octets, width) {
      var items :| QuadText(s, items, octets, width);
      QuadTextParts(s, items, octets, width);
      QuadReads(s, items, octets, width, []);
      assert [] + octets == octets;
    }
  }

  lemma QuadTextParts(s: string, items: seq<string>, octets: seq<byte>, width: Option<nat>)
    requires QuadText(s, items, octets, width)
    ensures |items| == |octets| > 0 && Octet(items[0], octets[0])
    ensures if width.Some? then width.value <= 128 else items[|items| - 1] != ""
    ensures |items| == 1 ==> s == items[0] + WidthTail(width)
  {
    hide Octet, WidthTail;
  }
}
