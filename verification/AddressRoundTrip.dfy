/** Parsing undoes printing: every IPv6 address is read back from its text. */
module AddressRoundTrip {
  import opened Seqs
  import opened Numerals
  import opened AddressText
  import opened AddressParse

  // ---------- the shift ----------

  /** out with its bytes from position keep on moved up against end, in the 16-byte array. */
  function Spread(out: seq<byte>, keep: nat, end: nat): (r: seq<byte>)
    requires keep <= |out| <= end <= ADDRESS_BYTES
    ensures |r| == ADDRESS_BYTES
  {
    out[..keep] + ZeroBytes(end - |out|) + out[keep..] + ZeroBytes(ADDRESS_BYTES - end)
  }

  lemma {:induction false} ShiftTurns(out: seq<byte>, colon: nat, end: nat, i: nat)
    requires colon <= |out| < end <= ADDRESS_BYTES && 1 <= i <= |out| - colon + 1
    ensures ShiftFrom(Spread(out, |out| + 1 - i, end), colon, |out| - colon, end, i) == Spread(out, colon, end)
    decreases |out| - i + 1
  {
    if i <= |out| - colon {
      var tmp := Spread(out, |out| + 1 - i, end);
      var next := tmp[end - i := tmp[|out| - i]][|out| - i := 0];
      assert next == Spread(out, |out| - i, end);
      ShiftTurns(out, colon, end, i + 1);
    }
  }

  /** With room below end, the shift in place moves the bytes after "::" up and fills the gap with zeros. */
  lemma ShiftMeaning(out: seq<byte>, colon: nat, end: nat)
    requires colon <= |out| < end <= ADDRESS_BYTES
    ensures ShiftFrom(out + ZeroBytes(ADDRESS_BYTES - |out|), colon, |out| - colon, end, 1) == Spread(out, colon, end)
  {
    assert out + ZeroBytes(ADDRESS_BYTES - |out|) == Spread(out, |out|, end);
    ShiftTurns(out, colon, end, 1);
  }

  // ---------- numerals ----------

  lemma ScanDigit(d: nat, rest: string, tok: string, st: Scanner)
    requires ScannerOk(st) && d < 16 && st.digits < 4
    ensures Scan([Digit(d)] + rest, tok, st) == Scan(rest, tok, st.(saw := true, val := st.val * 16 + d, digits := st.digits + 1))
  {
    DigitValue(d);
    assert ([Digit(d)] + rest)[1..] == rest;
    hide Digit;
  }

  /** A numeral's last digit comes after the numeral of the quotient. */
  lemma NumeralParts(n: nat, base: nat, rest: string)
    requires 2 <= base <= 16
    ensures n < base ==> Numeral(n, base) + rest == [Digit(n)] + rest && |Numeral(n, base)| == 1
    ensures n >= base ==>
      && Numeral(n, base) + rest == Numeral(n / base, base) + ([Digit(n % base)] + rest)
      && |Numeral(n, base)| == |Numeral(n / base, base)| + 1
  {
    hide Digit;
  }

  lemma {:induction false} HexScan(w: nat, rest: string, tok: string, st: Scanner)
    requires ScannerOk(st) && st.val == 0 && st.digits == 0 && |Numeral(w, 16)| <= 4
    ensures Scan(Numeral(w, 16) + rest, tok, st) == Scan(rest, tok, st.(saw := true, val := w, digits := |Numeral(w, 16)|))
  {
    hide Numeral, Scan, Digit;
    NumeralParts(w, 16, rest);
    if w < 16 {
      ScanDigit(w, rest, tok, st);
    } else {
      var more := [Digit(w % 16)] + rest;
      HexScan(w / 16, more, tok, st);
      ScanDigit(w % 16, rest, tok, st.(saw := true, val := w / 16, digits := |Numeral(w / 16, 16)|));
    }
  }

  /** The value that the hexadecimal reader makes of a decimal numeral. */
  function Misread(a: nat): nat {
    if a < 10 then a else Misread(a / 10) * 16 + a % 10
  }

  lemma {:induction false} DecScan(a: nat, rest: string, tok: string, st: Scanner)
    requires ScannerOk(st) && st.val == 0 && st.digits == 0 && |Numeral(a, 10)| <= 4
    ensures Scan(Numeral(a, 10) + rest, tok, st) ==
      Scan(rest, tok, st.(saw := true, val := Misread(a), digits := |Numeral(a, 10)|))
  {
    hide Numeral, Scan, Digit;
    NumeralParts(a, 10, rest);
    if a < 10 {
      ScanDigit(a, rest, tok, st);
    } else {
      var more := [Digit(a % 10)] + rest;
      DecScan(a / 10, more, tok, st);
      ScanDigit(a % 10, rest, tok, st.(saw := true, val := Misread(a / 10), digits := |Numeral(a / 10, 10)|));
    }
  }

  lemma V4Digit(d: nat, rest: string, out: seq<byte>, val: byte, n: nat)
    requires |out| <= 4 && d < 10 && (n == 0 || val != 0) && val as nat * 10 + d < 256
    ensures V4From([Digit(d)] + rest, out, val, n) == V4From(rest, out, val as nat * 10 + d, n + 1)
  {
    DigitValue(d);
    assert ([Digit(d)] + rest)[1..] == rest;
    hide Digit;
  }

  lemma {:induction false} V4Number(a: byte, rest: string, out: seq<byte>)
    requires |out| <= 4
    ensures V4From(Numeral(a, 10) + rest, out, 0, 0) == V4From(rest, out, a, |Numeral(a, 10)|)
    decreases a as nat
  {
    hide Numeral, V4From, Digit;
    NumeralParts(a, 10, rest);
    if a < 10 {
      V4Digit(a, rest, out, 0, 0);
    } else {
      var more := [Digit(a % 10)] + rest;
      V4Number(a / 10, more, out);
      V4Digit(a % 10, rest, out, a / 10, |Numeral(a / 10, 10)|);
    }
  }

  lemma V4Dot(a: byte, rest: string, out: seq<byte>)
    requires |out| <= 3
    ensures V4From(Numeral(a, 10) + ("." + rest), out, 0, 0) == V4From(rest, out + [a], 0, 0)
  {
    V4Number(a, "." + rest, out);
    assert ("." + rest)[1..] == rest;
    hide Numeral;
  }

  /** getv4 reads back any four octets that "%u.%u.%u.%u" printed. */
  lemma QuadRoundTrip(b: seq<byte>)
    requires |b| == 4
    ensures V4From(Dotted(b), [], 0, 0) == Some(Quad(b, None))
  {
    hide *;
    DottedSplit(b);
    OctetLists(b);
    var d := Numeral(b[3], 10) + [];
    var c := Numeral(b[2], 10) + ("." + d);
    var e := Numeral(b[1], 10) + ("." + c);
    V4Dot(b[0], e, []);
    V4Dot(b[1], c, [b[0]]);
    V4Dot(b[2], d, [b[0], b[1]]);
    V4Number(b[3], [], [b[0], b[1], b[2]]);
    QuadEnd(b[3], [b[0], b[1], b[2]]);
  }

  lemma OctetLists(b: seq<byte>)
    requires |b| == 4
    ensures [] + [b[0]] == [b[0]] && [b[0]] + [b[1]] == [b[0], b[1]] && [b[0], b[1]] + [b[2]] == [b[0], b[1], b[2]]
    ensures [b[0], b[1], b[2]] + [b[3]] == b
  {
  }

  lemma DottedSplit(b: seq<byte>)
    requires |b| == 4
    ensures Dotted(b) ==
      Numeral(b[0], 10) + ("." + (Numeral(b[1], 10) + ("." + (Numeral(b[2], 10) + ("." + (Numeral(b[3], 10) + []))))))
  {
    hide Numeral;
  }

  lemma QuadEnd(a: byte, out: seq<byte>)
    requires |out| == 3
    ensures V4From([], out, a, |Numeral(a, 10)|) == Some(Quad(out + [a], None))
  {
    hide Numeral;
  }

  // ---------- the text of an address ----------

  ghost predicate Fits(best: Option<Run>) {
    best.Some? ==> best.value.len >= 2 && best.value.base + best.value.len <= WORDS
  }

  /** The bytes of the groups before group j that are not in the run. */
  function Kept(b: seq<byte>, best: Option<Run>, j: nat): (r: seq<byte>)
    requires |b| == ADDRESS_BYTES && j <= WORDS && (best.Some? ==> best.value.base + best.value.len <= WORDS)
    ensures |r| <= 2 * j
  {
    if best.None? || j <= best.value.base then b[..2 * j]
    else if j <= best.value.base + best.value.len then b[..2 * best.value.base]
    else b[..2 * best.value.base] + b[2 * (best.value.base + best.value.len)..2 * j]
  }

  lemma KeptNext(b: seq<byte>, best: Option<Run>, j: nat)
    requires |b| == ADDRESS_BYTES && Fits(best) && j < WORDS && !InRun(best, j)
    ensures Kept(b, best, j + 1) == Kept(b, best, j) + Pair(WordsOf(b)[j])
  {
    assert Pair(WordsOf(b)[j]) == b[2 * j..2 * j + 2];
  }

  /** Where "::" was met, once it has been. */
  function ColonAt(best: Option<Run>, i: nat): Option<nat> {
    if best.Some? && best.value.base < i then Some(2 * best.value.base) else None
  }

  /** The parser's state before the text of groups i, i + 1, ... */
  function StateAt(b: seq<byte>, best: Option<Run>, i: nat): (st: Scanner)
    requires |b| == ADDRESS_BYTES && i <= WORDS && (best.Some? ==> best.value.base + best.value.len <= WORDS)
    ensures ScannerOk(st)
  {
    if i == 0 then Scanner([], None, false, 0, 0)
    else if InRun(best, i - 1) then Scanner(Kept(b, best, best.value.base), None, false, 0, 0)
    else Scanner(Kept(b, best, i - 1), ColonAt(best, i), true, WordsOf(b)[i - 1], |Numeral(WordsOf(b)[i - 1], 16)|)
  }

  /** The parser has read the whole text of the address. */
  ghost predicate ReadBack(b: seq<byte>, best: Option<Run>, r: Scanned)
    requires |b| == ADDRESS_BYTES && Fits(best)
  {
    && r.Scanned? && r.bits == None && r.colon == ColonAt(best, WORDS)
    && (if r.saw then r.out + Pair(r.val) else r.out) == Kept(b, best, WORDS)
  }

  /** After the colon before group i. */
  function GroupState(b: seq<byte>, best: Option<Run>, i: nat): (st: Scanner)
    requires |b| == ADDRESS_BYTES && i <= WORDS && (best.Some? ==> best.value.base + best.value.len <= WORDS)
    ensures ScannerOk(st)
  {
    Scanner(Kept(b, best, i), ColonAt(best, i), false, 0, 0)
  }

  lemma ColonRead(b: seq<byte>, best: Option<Run>, i: nat, rest: string, tok: string)
    requires |b| == ADDRESS_BYTES && Fits(best) && 0 < i < WORDS && rest != []
    requires !InRun(best, i)
    ensures Scan(":" + rest, tok, StateAt(b, best, i)) == Scan(rest, rest, GroupState(b, best, i))
  {
    hide *;
    ColonStep(b, best, i);
    AtColon(rest, tok, StateAt(b, best, i));
  }

  /** The scan at a colon. */
  lemma AtColon(rest: string, tok: string, st: Scanner)
    requires ScannerOk(st) && rest != []
    ensures Scan(":" + rest, tok, st) ==
      if !st.saw then if st.colon.Some? then BadText else Scan(rest, rest, st.(colon := Some(|st.out|)))
      else if |st.out| + 2 > ADDRESS_BYTES then NinthGroup
      else Scan(rest, rest, Scanner(st.out + Pair(st.val), st.colon, false, 0, 0))
  {
    assert (":" + rest)[1..] == rest;
    hide Pair;
  }

  lemma ColonStep(b: seq<byte>, best: Option<Run>, i: nat)
    requires |b| == ADDRESS_BYTES && Fits(best) && 0 < i < WORDS && !InRun(best, i)
    ensures best.Some? ==> best.value.base + best.value.len <= WORDS
    ensures var st, r := StateAt(b, best, i), GroupState(b, best, i);
      if st.saw then |st.out| + 2 <= ADDRESS_BYTES && r == Scanner(st.out + Pair(st.val), st.colon, false, 0, 0)
      else st.colon.None? && r == st.(colon := Some(|st.out|))
  {
    hide Numeral, Pair, WordsOf, Kept;
    if InRun(best, i - 1) { KeptOver(b, best, i); } else { KeptNext(b, best, i - 1); }
  }

  /** The first group behind the run finds what was kept before it. */
  lemma KeptOver(b: seq<byte>, best: Option<Run>, i: nat)
    requires |b| == ADDRESS_BYTES && Fits(best) && 0 < i < WORDS && InRun(best, i - 1) && !InRun(best, i)
    ensures best.Some? && i == best.value.base + best.value.len && best.value.base + best.value.len <= WORDS
    ensures |Kept(b, best, best.value.base)| == 2 * best.value.base && Kept(b, best, i) == Kept(b, best, best.value.base)
  {
  }

  lemma GroupRead(b: seq<byte>, best: Option<Run>, i: nat, rest: string, tok: string)
    requires |b| == ADDRESS_BYTES && Fits(best) && i < WORDS && !InRun(best, i)
    ensures Scan(Numeral(WordsOf(b)[i], 16) + rest, tok, GroupState(b, best, i)) == Scan(rest, tok, StateAt(b, best, i + 1))
  {
    HexLength(WordsOf(b)[i]);
    HexScan(WordsOf(b)[i], rest, tok, GroupState(b, best, i));
    hide Scan, Numeral, WordsOf, Kept;
  }

  lemma RunOpens(b: seq<byte>, best: Option<Run>, i: nat, rest: string, tok: string)
    requires |b| == ADDRESS_BYTES && Fits(best) && 0 < i < WORDS && best.Some? && i == best.value.base && rest != []
    ensures Scan(":" + rest, tok, StateAt(b, best, i)) == Scan(rest, rest, StateAt(b, best, i + 1))
  {
    assert (":" + rest)[1..] == rest;
    KeptNext(b, best, i - 1);
    hide Numeral, Pair, WordsOf;
  }

  lemma EmbeddedRead(b: seq<byte>, best: Option<Run>, tok: string)
    requires |b| == ADDRESS_BYTES && Fits(best) && !InRun(best, 6) && Embedded(WordsOf(b), best)
    ensures ReadBack(b, best, Scan(Dotted(b[12..]), Dotted(b[12..]), GroupState(b, best, 6)))
  {
    var q := b[12..];
    var text := Dotted(q);
    var rest := "." + Numeral(q[1], 10) + "." + Numeral(q[2], 10) + "." + Numeral(q[3], 10);
    assert text == Numeral(q[0], 10) + rest;
    DecLength(q[0]);
    DecScan(q[0], rest, text, GroupState(b, best, 6));
    QuadRoundTrip(q);
    KeptNext(b, best, 6);
    KeptNext(b, best, 7);
    assert Kept(b, best, 6) + q == Kept(b, best, 8);
    hide Numeral, Dotted, Misread, V4From, WordsOf;
  }

  lemma NonEmpty(b: seq<byte>, best: Option<Run>, i: nat)
    requires |b| == ADDRESS_BYTES && Fits(best) && 0 < i <= WORDS && InRun(best, i - 1)
    ensures TextFrom(b, best, i) != [] && TextFrom(b, best, i)[0] == ':'
    decreases WORDS - i
  {
    if i < WORDS && InRun(best, i) { NonEmpty(b, best, i + 1); }
    hide Numeral, Dotted, WordsOf, Embedded;
  }

  lemma TextEnd(b: seq<byte>, best: Option<Run>, tok: string)
    requires |b| == ADDRESS_BYTES && Fits(best)
    ensures ReadBack(b, best, Scan(TextFrom(b, best, WORDS), tok, StateAt(b, best, WORDS)))
  {
    if InRun(best, 7) {
      assert (":" + [])[1..] == [];
      assert Kept(b, best, best.value.base) == Kept(b, best, WORDS);
    } else {
      KeptNext(b, best, 7);
    }
    hide WordsOf, Numeral;
  }

  /** From group i on, the parser reads back what the printer wrote. */
  lemma {:induction false} TextRead(b: seq<byte>, best: Option<Run>, i: nat, tok: string)
    requires |b| == ADDRESS_BYTES && Fits(best) && i <= WORDS
    requires i == 0 ==> best.None? || best.value.base > 0
    ensures ReadBack(b, best, Scan(TextFrom(b, best, i), tok, StateAt(b, best, i)))
    decreases WORDS - i
  {
    hide *;
    if i == WORDS {
      TextEnd(b, best, tok);
    } else if InRun(best, i) {
      TextIs(b, best, i);
      if i == best.value.base {
        NonEmpty(b, best, i + 1);
        RunOpens(b, best, i, TextFrom(b, best, i + 1), tok);
        TextRead(b, best, i + 1, TextFrom(b, best, i + 1));
      } else {
        SameRun(b, best, i);
        TextRead(b, best, i + 1, tok);
      }
    } else {
      TextIs(b, best, i);
      PieceIs(b, best, i);
      var piece := PieceFrom(b, best, i);
      if i == 6 && Embedded(WordsOf(b), best) {
        ColonRead(b, best, i, piece, tok);
        EmbeddedRead(b, best, piece);
      } else {
        var t := if i == 0 then tok else piece;
        if i > 0 { ColonRead(b, best, i, piece, tok); } else { FirstState(b, best); }
        GroupRead(b, best, i, TextFrom(b, best, i + 1), t);
        TextRead(b, best, i + 1, t);
      }
    }
  }

  lemma FirstState(b: seq<byte>, best: Option<Run>)
    requires |b| == ADDRESS_BYTES && Fits(best)
    ensures StateAt(b, best, 0) == GroupState(b, best, 0)
  {
  }

  lemma SameRun(b: seq<byte>, best: Option<Run>, i: nat)
    requires |b| == ADDRESS_BYTES && Fits(best) && i < WORDS && InRun(best, i) && i != best.value.base
    ensures StateAt(b, best, i) == StateAt(b, best, i + 1)
  {
  }

  lemma PieceIs(b: seq<byte>, best: Option<Run>, i: nat)
    requires |b| == ADDRESS_BYTES && i < WORDS
    ensures |WordsOf(b)| == WORDS && |b[12..]| == 4
    ensures PieceFrom(b, best, i) ==
      if i == 6 && Embedded(WordsOf(b), best) then Dotted(b[12..]) else Numeral(WordsOf(b)[i], 16) + TextFrom(b, best, i + 1)
  {
    hide Numeral, WordsOf, TextFrom, Embedded, Dotted;
  }

  /** Group i, without the colon before it, and all that follows. */
  function PieceFrom(b: seq<byte>, best: Option<Run>, i: nat): string
    requires |b| == ADDRESS_BYTES && i < WORDS
  {
    if i == 6 && Embedded(WordsOf(b), best) then Dotted(b[12..])
    else Numeral(WordsOf(b)[i], 16) + TextFrom(b, best, i + 1)
  }

  lemma TextIs(b: seq<byte>, best: Option<Run>, i: nat)
    requires |b| == ADDRESS_BYTES && Fits(best) && i < WORDS
    ensures WORDS == 8 && |WordsOf(b)| == WORDS && |b[12..]| == 4
    ensures InRun(best, i) ==> best.Some?
    ensures InRun(best, i) ==>
      TextFrom(b, best, i) == if i == best.value.base then ":" + TextFrom(b, best, i + 1) else TextFrom(b, best, i + 1)
    ensures PieceFrom(b, best, i) != []
    ensures !InRun(best, i) ==>
      TextFrom(b, best, i) == if i == 0 then PieceFrom(b, best, i) else ":" + PieceFrom(b, best, i)
  {
    if i == 6 && Embedded(WordsOf(b), best) && !InRun(best, 6) { assert Dotted(b[12..]) + "" == Dotted(b[12..]); }
    hide Numeral, WordsOf;
  }

  lemma {:induction false} NumeralHead(n: nat)
    ensures HexValue(Numeral(n, 16)[0]).Some?
  {
    if n < 16 {
      DigitValue(n);
    } else {
      NumeralHead(n / 16);
    }
  }

  /** The text begins with a colon only when the address begins with the shortened run. */
  lemma TextStart(b: seq<byte>, best: Option<Run>)
    requires |b| == ADDRESS_BYTES && Fits(best)
    ensures var t := TextFrom(b, best, 0);
      if best.Some? && best.value.base == 0 then
        && |t| > 1 && t[0] == ':' && t[1] == ':' && t[1..] == TextFrom(b, best, 1)
        && StateAt(b, best, 1) == Scanner([], None, false, 0, 0)
      else |t| > 0 && t[0] != ':'
  {
    if best.Some? && best.value.base == 0 { NonEmpty(b, best, 1); }
    NumeralHead(WordsOf(b)[0]);
    hide Numeral, WordsOf, Dotted;
  }

  lemma RunIsZero(b: seq<byte>, best: Option<Run>)
    requires |b| == ADDRESS_BYTES && IsBest(WordsOf(b), best)
    ensures Fits(best)
    ensures best.Some? ==>
      b[2 * best.value.base..2 * (best.value.base + best.value.len)] == ZeroBytes(2 * best.value.len)
  {
    if best.Some? {
      var lo, hi := best.value.base, best.value.base + best.value.len;
      forall k | 2 * lo <= k < 2 * hi
        ensures b[k] == 0
      {
        assert WordsOf(b)[k / 2] == 0;
      }
    }
  }

  lemma GapFilled(b: seq<byte>, best: Option<Run>)
    requires |b| == ADDRESS_BYTES && Fits(best) && best.Some?
    requires b[2 * best.value.base..2 * (best.value.base + best.value.len)] == ZeroBytes(2 * best.value.len)
    ensures var out := Kept(b, best, WORDS);
      2 * best.value.base <= |out| < ADDRESS_BYTES && Spread(out, 2 * best.value.base, ADDRESS_BYTES) == b
  {
    var lo, hi := 2 * best.value.base, 2 * (best.value.base + best.value.len);
    var out := Kept(b, best, WORDS);
    assert hi <= ADDRESS_BYTES;
    assert out == b[..lo] + b[hi..ADDRESS_BYTES] by { if hi == ADDRESS_BYTES { assert b[hi..ADDRESS_BYTES] == []; } }
    assert out[..lo] == b[..lo] && out[lo..] == b[hi..];
    assert ZeroBytes(ADDRESS_BYTES - |out|) == b[lo..hi];
    assert b == b[..lo] + b[lo..hi] + b[hi..] + ZeroBytes(0);
  }

  /** The end of the parser, for a text without a width. */
  lemma FinishWhole(r: Scanned, out: seq<byte>, size: nat)
    requires ScannedOk(r) && r.Scanned? && r.bits == None && size >= ADDRESS_BYTES && |out| <= ADDRESS_BYTES
    requires out == if r.saw then r.out + Pair(r.val) else r.out
    ensures r.colon.None? && |out| == ADDRESS_BYTES ==> Finish(r, size) == Bits(128, out)
    ensures r.colon.Some? ==> r.colon.value <= |out|
    ensures r.colon.Some? && |out| < ADDRESS_BYTES ==>
      Finish(r, size) ==
        Bits(128, ShiftFrom(out + ZeroBytes(ADDRESS_BYTES - |out|), r.colon.value, |out| - r.colon.value, ADDRESS_BYTES, 1))
  {
    hide ShiftFrom, Pair;
  }

  lemma ReadFinish(b: seq<byte>, best: Option<Run>, r: Scanned, size: nat)
    requires |b| == ADDRESS_BYTES && IsBest(WordsOf(b), best) && Fits(best)
    requires ReadBack(b, best, r) && ScannedOk(r) && size >= ADDRESS_BYTES
    ensures Finish(r, size) == Bits(128, b)
  {
    hide *;
    RunIsZero(b, best);
    ReadBackIs(b, best, r);
    var out := Kept(b, best, WORDS);
    if best.Some? {
      GapFilled(b, best);
      FinishWhole(r, out, size);
      ShiftMeaning(out, 2 * best.value.base, ADDRESS_BYTES);
    } else {
      FinishWhole(r, out, size);
    }
  }

  lemma ReadBackIs(b: seq<byte>, best: Option<Run>, r: Scanned)
    requires |b| == ADDRESS_BYTES && Fits(best) && ReadBack(b, best, r)
    ensures best.Some? ==> best.value.base + best.value.len <= WORDS
    ensures r.Scanned? && r.bits == None && (if r.saw then r.out + Pair(r.val) else r.out) == Kept(b, best, WORDS)
    ensures |Kept(b, best, WORDS)| <= ADDRESS_BYTES
    ensures best.Some? ==> r.colon == Some(2 * best.value.base)
    ensures best.None? ==> r.colon == None && Kept(b, best, WORDS) == b
  {
    hide Pair;
  }

  /** Whatever inet_ntop6 prints, inet_net_pton_ipv6 reads back as the same 16 bytes and 128 bits. */
  lemma RoundTrip6(b: seq<byte>, t: string, size: nat)
    requires |b| == ADDRESS_BYTES && Prints(b, t) && size >= ADDRESS_BYTES
    ensures Pton6(t, size) == Bits(128, b)
  {
    var best :| IsBest(WordsOf(b), best) && t == TextFrom(b, best, 0);
    RunIsZero(b, best);
    TextStart(b, best);
    if best.Some? && best.value.base == 0 {
      TextRead(b, best, 1, t[1..]);
      ReadFinish(b, best, Scan(t[1..], t[1..], Scanner([], None, false, 0, 0)), size);
    } else {
      TextRead(b, best, 0, t);
      ReadFinish(b, best, Scan(t, t, Scanner([], None, false, 0, 0)), size);
    }
    hide *;
  }

  /** Two addresses never share a text. */
  lemma TextInjective(a: seq<byte>, b: seq<byte>, t: string)
    requires |a| == ADDRESS_BYTES && |b| == ADDRESS_BYTES && Prints(a, t) && Prints(b, t)
    ensures a == b
  {
    RoundTrip6(a, t, ADDRESS_BYTES);
    RoundTrip6(b, t, ADDRESS_BYTES);
    hide *;
  }

  // ---------- where the code and its comment part ----------

  /** Hexadecimal groups, each with a colon behind it. */
  function Groups(ws: seq<nat>): string {
    if ws == [] then "" else Numeral(ws[0], 16) + (":" + Groups(ws[1..]))
  }

  lemma GroupColon(w: nat, rest: string, tok: string, out: seq<byte>)
    requires w < 65536 && |out| <= ADDRESS_BYTES && rest != []
    ensures Scan(Numeral(w, 16) + (":" + rest), tok, Scanner(out, None, false, 0, 0)) ==
      if |out| + 2 > ADDRESS_BYTES then NinthGroup else Scan(rest, rest, Scanner(out + Pair(w), None, false, 0, 0))
  {
    HexLength(w);
    HexScan(w, ":" + rest, tok, Scanner(out, None, false, 0, 0));
    assert (":" + rest)[1..] == rest;
    hide Numeral, Pair;
  }

  lemma {:induction false} ManyGroups(ws: seq<nat>, rest: string, tok: string, out: seq<byte>)
    requires (forall i :: 0 <= i < |ws| ==> ws[i] < 65536) && |out| <= ADDRESS_BYTES && rest != []
    requires |out| + 2 * |ws| > ADDRESS_BYTES
    ensures Scan(Groups(ws) + rest, tok, Scanner(out, None, false, 0, 0)) == NinthGroup
    decreases |ws|
  {
    var more := Groups(ws[1..]) + rest;
    assert Groups(ws) + rest == Numeral(ws[0], 16) + (":" + more);
    GroupColon(ws[0], more, tok, out);
    if |out| + 2 <= ADDRESS_BYTES { ManyGroups(ws[1..], rest, more, out + Pair(ws[0])); }
    hide Scan, Numeral, Pair;
  }

  /** The comment above ares_inet_net_pton promises -1 on any failure; a text that goes on after nine
      groups gets 0, with nothing written. */
  lemma NineGroups(ws: seq<nat>, rest: string, size: nat)
    requires (forall i :: 0 <= i < |ws| ==> ws[i] < 65536) && |ws| >= 9 && rest != []
    ensures Pton6(Groups(ws) + rest, size) == NothingWritten
  {
    var t := Groups(ws) + rest;
    ManyGroups(ws, rest, t, []);
    NumeralHead(ws[0]);
    assert t[0] == Numeral(ws[0], 16)[0];
    hide Scan, Numeral, Groups;
  }
}
