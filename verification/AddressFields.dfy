/** What inet_net_pton_ipv6 makes of a whole text, from the fields between its colons. */
module AddressFields {
  import opened Seqs
  import opened Numerals
  import opened AddressText
  import opened AddressParse
  import opened AddressRoundTrip
  import opened AddressGrammar

  // ---------- groups of hexadecimal digits ----------

  ghost predicate HexText(g: string) { forall i :: 0 <= i < |g| ==> HexValue(g[i]).Some? }

  /** Up to four digits, of either case, perhaps none. */
  ghost predicate HexGroup(g: string) { |g| <= 4 && HexText(g) }

  /** The number that the digits denote. */
  ghost function HexNumber(g: string): nat
    requires HexText(g)
  {
    if g == "" then 0 else HexNumber(g[..|g| - 1]) * 16 + HexValue(g[|g| - 1]).value
  }

  /** The state at the beginning of a field. */
  function Fresh(out: seq<byte>, colon: Option<nat>): Scanner { Scanner(out, colon, false, 0, 0) }

  ghost function AfterHex(st: Scanner, g: string): Scanner
    requires HexText(g)
  {
    st.(saw := g != "", val := HexNumber(g), digits := |g|)
  }

  lemma OneDigit(c: char, rest: string, tok: string, st: Scanner)
    requires ScannerOk(st) && HexValue(c).Some?
    ensures Scan([c] + rest, tok, st) ==
      if st.digits + 1 > 4 then BadText
      else Scan(rest, tok, st.(saw := true, val := st.val * 16 + HexValue(c).value, digits := st.digits + 1))
  {
    assert ([c] + rest)[1..] == rest;
  }

  lemma HexFront(g: string)
    requires g != "" && HexText(g)
    ensures HexText(g[..|g| - 1]) && HexValue(g[|g| - 1]).Some? && g == g[..|g| - 1] + [g[|g| - 1]]
  {
    hide HexValue, HexNumber;
  }

  lemma HexParts(g: string)
    requires g != "" && HexText(g)
    ensures HexText(g[..|g| - 1]) && HexValue(g[|g| - 1]).Some? && g == g[..|g| - 1] + [g[|g| - 1]]
    ensures HexNumber(g) == HexNumber(g[..|g| - 1]) * 16 + HexValue(g[|g| - 1]).value
  {
    HexFront(g);
    hide HexValue, HexText;
  }

  lemma AfterNothing(out: seq<byte>, colon: Option<nat>)
    ensures HexText("") && AfterHex(Fresh(out, colon), "") == Fresh(out, colon)
  {
  }

  lemma AfterHexIs(st: Scanner, g: string)
    requires HexText(g) && ScannerOk(st)
    ensures AfterHex(st, g) == st.(saw := g != "", val := HexNumber(g), digits := |g|) && ScannerOk(AfterHex(st, g))
  {
    hide HexText, HexNumber;
  }

  /** Digits are read one after another; the fifth is too many. */
  lemma {:induction false} HexReads(g: string, rest: string, tok: string, out: seq<byte>, colon: Option<nat>)
    requires HexText(g) && ScannerOk(Fresh(out, colon))
    ensures ScannerOk(AfterHex(Fresh(out, colon), g))
    ensures Scan(g + rest, tok, Fresh(out, colon)) ==
      if |g| <= 4 then Scan(rest, tok, AfterHex(Fresh(out, colon), g)) else BadText
    decreases |g|
  {
    hide *;
    AfterHexIs(Fresh(out, colon), g);
    if g == "" {
      AfterNothing(out, colon);
      assert g + rest == rest;
    } else {
      HexParts(g);
      var front, last := g[..|g| - 1], g[|g| - 1];
      assert front + ([last] + rest) == g + rest;
      HexReads(front, [last] + rest, tok, out, colon);
      AfterHexIs(Fresh(out, colon), front);
      if |g| <= 5 {
        OneDigit(last, rest, tok, AfterHex(Fresh(out, colon), front));
        FreshIs(out, colon);
      }
    }
  }

  lemma FreshIs(out: seq<byte>, colon: Option<nat>)
    ensures Fresh(out, colon) == Scanner(out, colon, false, 0, 0)
  {
  }

  // ---------- nothing that has a colon in it is a width or a quad ----------

  lemma {:induction false} ColonNoWidth(s: string, val: nat, n: nat)
    requires ':' in s && val <= 128
    ensures BitsFrom(s, val, n).None?
    decreases |s|
  {
    if DecValue(s[0]).Some? && val * 10 + DecValue(s[0]).value <= 128 {
      ColonNoWidth(s[1..], val * 10 + DecValue(s[0]).value, n + 1);
    }
  }

  lemma {:induction false} ColonNoQuad(s: string, out: seq<byte>, val: byte, n: nat)
    requires ':' in s && |out| <= 4
    ensures V4From(s, out, val, n).None?
    decreases |s|
  {
    if DecValue(s[0]).Some? {
      if val as nat * 10 + DecValue(s[0]).value <= 255 { ColonNoQuad(s[1..], out, val as nat * 10 + DecValue(s[0]).value, n + 1); }
    } else if s[0] == '/' {
      ColonNoWidth(s[1..], 0, 0);
    } else if s[0] == '.' && |out| <= 3 {
      ColonNoQuad(s[1..], out + [val], 0, 0);
    }
  }

  // ---------- one field ----------

  /** The position of the first character that is no hexadecimal digit. */
  function HexRun(s: string): (n: nat)
    ensures n <= |s| && (forall i :: 0 <= i < n ==> HexValue(s[i]).Some?) && (n < |s| ==> HexValue(s[n]).None?)
  {
    if s == "" || HexValue(s[0]).None? then 0 else 1 + HexRun(s[1..])
  }

  /** Digits and then something that is no digit: what the scan does next. */
  lemma RunThen(s: string, out: seq<byte>, colon: Option<nat>)
    requires ScannerOk(Fresh(out, colon))
    ensures var n := HexRun(s);
      && HexText(s[..n]) && ScannerOk(AfterHex(Fresh(out, colon), s[..n]))
      && Scan(s, s, Fresh(out, colon)) ==
           if n <= 4 then Scan(s[n..], s, AfterHex(Fresh(out, colon), s[..n])) else BadText
  {
    var n := HexRun(s);
    assert forall i :: 0 <= i < n ==> s[..n][i] == s[i];
    assert HexText(s[..n]);
    hide *;
    HexReads(s[..n], s[n..], s, out, colon);
    assert s[..n] + s[n..] == s;
  }

  /** The scan at a character that is no digit. */
  lemma AtOther(c: char, t: string, tok: string, st: Scanner)
    requires ScannerOk(st) && HexValue(c).None?
    ensures Scan([c] + t, tok, st) ==
      if c == ':' then
        if !st.saw then if st.colon.Some? then BadText else Scan(t, t, st.(colon := Some(|st.out|)))
        else if t == "" then BadText
        else if |st.out| + 2 > ADDRESS_BYTES then NinthGroup
        else Scan(t, t, Fresh(st.out + Pair(st.val), st.colon))
      else if c == '.' && |st.out| + 4 <= ADDRESS_BYTES && V4From(tok, [], 0, 0).Some? then
        var q := V4From(tok, [], 0, 0).value;
        Scanned(st.out + q.octets + ZeroBytes(4 - |q.octets|), st.colon, false, st.val, q.bits, true)
      else if c == '/' && BitsFrom(t, 0, 0).Some? then Scanned(st.out, st.colon, st.saw, st.val, BitsFrom(t, 0, 0), false)
      else BadText
  {
    assert ([c] + t)[1..] == t;
    hide V4From, BitsFrom, HexValue, Pair;
  }

  /** A field with the colon that ends it: up to four digits make a group, nothing at all makes the gap, and
      anything else makes the text unreadable. */
  lemma FieldRead(f: string, t: string, out: seq<byte>, colon: Option<nat>)
    requires ScannerOk(Fresh(out, colon)) && ':' !in f
    ensures var s := f + (":" + t);
      Scan(s, s, Fresh(out, colon)) ==
        if !HexGroup(f) then BadText
        else if f == "" then if colon.Some? then BadText else Scan(t, t, Fresh(out, Some(|out|)))
        else if t == "" then BadText
        else if |out| + 2 > ADDRESS_BYTES then NinthGroup
        else Scan(t, t, Fresh(out + Pair(HexNumber(f)), colon))
  {
    var s := f + (":" + t);
    var n := HexRun(s);
    RunThen(s, out, colon);
    assert s[|f|] == ':';
    assert n <= |f|;
    var c := s[n];
    assert s[n..] == [c] + s[n + 1..];
    if n == |f| {
      assert s[..n] == f && s[n + 1..] == t;
    } else {
      assert f[n] == s[n] && c != ':';
      assert !HexGroup(f);
      assert s[n + 1..][|f| - n - 1] == ':';
      ColonNoQuad(s, [], 0, 0);
      ColonNoWidth(s[n + 1..], 0, 0);
    }
    hide *;
    AfterHexIs(Fresh(out, colon), s[..n]);
    FreshIs(out, colon);
    if n <= 4 { AtOther(c, s[n + 1..], s, AfterHex(Fresh(out, colon), s[..n])); }
    HexGroupIs(f);
    FreshIs(out, Some(|out|));
    if n == |f| && f == "" { HexNothing(); }
  }

  lemma HexGroupIs(f: string)
    ensures HexGroup(f) <==> |f| <= 4 && HexText(f)
  {
  }

  lemma HexNothing()
    ensures HexText("") && HexNumber("") == 0
  {
  }
}
