/** Addresses as text: the printers of inet_ntop.c. */
module AddressText {
  import opened Seqs
  import opened Numerals

  const ADDRESS_BYTES: nat := 16
  const WORDS: nat := 8

  function Dotted(b: seq<byte>): string
    requires |b| == 4
  {
    Numeral(b[0], 10) + "." + Numeral(b[1], 10) + "." + Numeral(b[2], 10) + "." + Numeral(b[3], 10)
  }

  /** The 16-bit groups of an address. */
  function WordsOf(b: seq<byte>): (w: seq<nat>)
    requires |b| == ADDRESS_BYTES
    ensures |w| == WORDS && forall i :: 0 <= i < WORDS ==> w[i] < 65536
  {
    seq(WORDS, i requires 0 <= i < WORDS => b[2 * i] as nat * 256 + b[2 * i + 1])
  }

  /** A run of zero groups. */
  datatype Run = Run(base: nat, len: nat)

  predicate Zeros(words: seq<nat>, r: Run) {
    r.base + r.len <= |words| && forall i :: r.base <= i < r.base + r.len ==> words[i] == 0
  }

  /** The run that is shortened to "::": the first of the longest, if two groups or more. */
  ghost predicate IsBest(words: seq<nat>, best: Option<Run>) {
    match best
    case None => forall r: Run {:trigger Zeros(words, r)} :: Zeros(words, r) ==> r.len < 2
    case Some(b) =>
      && Zeros(words, b) && b.len >= 2
      && forall r: Run {:trigger Zeros(words, r)} :: Zeros(words, r) ==> r.len < b.len || (r.len == b.len && b.base <= r.base)
  }

  lemma BestUnique(words: seq<nat>, a: Option<Run>, b: Option<Run>)
    requires IsBest(words, a) && IsBest(words, b)
    ensures a == b
  {
    if a.Some? { assert Zeros(words, a.value); }
    if b.Some? { assert Zeros(words, b.value); }
  }

  predicate InRun(best: Option<Run>, i: nat) {
    best.Some? && best.value.base <= i < best.value.base + best.value.len
  }

  /** Printed as an IPv4 address in its last four bytes. */
  predicate Embedded(words: seq<nat>, best: Option<Run>)
    requires |words| == WORDS
  {
    && best.Some? && best.value.base == 0
    && (best.value.len == 6 || (best.value.len == 7 && words[7] != 1) || (best.value.len == 5 && words[5] == 0xffff))
  }

  function Closing(best: Option<Run>): string {
    if best.Some? && best.value.base + best.value.len == WORDS then ":" else ""
  }

  /** What is printed from group i on. */
  function TextFrom(b: seq<byte>, best: Option<Run>, i: nat): string
    requires |b| == ADDRESS_BYTES && i <= WORDS
    decreases WORDS - i
  {
    var words := WordsOf(b);
    if i == WORDS then Closing(best)
    else if InRun(best, i) then (if i == best.value.base then ":" else "") + TextFrom(b, best, i + 1)
    else
      (if i != 0 then ":" else "") +
      if i == 6 && Embedded(words, best) then Dotted(b[12..]) + Closing(best)
      else Numeral(words[i], 16) + TextFrom(b, best, i + 1)
  }

  /** t is the text of address b. */
  ghost predicate Prints(b: seq<byte>, t: string)
    requires |b| == ADDRESS_BYTES
  {
    exists best :: IsBest(WordsOf(b), best) && t == TextFrom(b, best, 0)
  }

  /** An address has only one text. */
  lemma PrintsUnique(b: seq<byte>, t: string, u: string)
    requires |b| == ADDRESS_BYTES && Prints(b, t) && Prints(b, u)
    ensures t == u
  {
    var x :| IsBest(WordsOf(b), x) && t == TextFrom(b, x, 0);
    var y :| IsBest(WordsOf(b), y) && u == TextFrom(b, y, 0);
    BestUnique(WordsOf(b), x, y);
  }

  /** inet_ntop4; None stands for ENOSPC. */
  method Ntop4(src: seq<byte>, size: nat) returns (r: Option<string>)
    requires |src| == 4
    ensures r == if |Dotted(src)| < size then Some(Dotted(src)) else None
  {
    var tmp := Numeral(src[0], 10) + "." + Numeral(src[1], 10) + "." + Numeral(src[2], 10) + "." + Numeral(src[3], 10);
    if |tmp| >= size {
      return None;
    }
    return Some(tmp);
  }

  /** The first loop of inet_ntop6. */
  method GatherWords(src: seq<byte>) returns (words: seq<nat>)
    requires |src| == ADDRESS_BYTES
    ensures words == WordsOf(src)
  {
    var w := new nat[WORDS](_ => 0);
    var i := 0;
    while i < ADDRESS_BYTES
      invariant 0 <= i <= ADDRESS_BYTES
      invariant forall k :: 0 <= k < WORDS ==>
        w[k] == if 2 * k + 1 < i then src[2 * k] as nat * 256 + src[2 * k + 1]
                else if 2 * k < i then src[2 * k] as nat * 256 else 0
    {
      if i % 2 == 0 {
        w[i / 2] := w[i / 2] + src[i] as nat * 256;
      } else {
        w[i / 2] := w[i / 2] + src[i];
      }
      i := i + 1;
    }
    words := w[..];
  }

  /** Some(r) is the longest zero run found among the first i groups. */
  ghost predicate BestIn(words: seq<nat>, best: Option<Run>, i: nat) {
    && (best.Some? ==> Zeros(words, best.value) && best.value.base + best.value.len <= i && best.value.len > 0)
    && forall r: Run {:trigger Zeros(words, r)} :: Zeros(words, r) && r.base + r.len <= i && r.len > 0 ==>
         best.Some? && (r.len < best.value.len || (r.len == best.value.len && best.value.base <= r.base))
  }

  /** The second loop: cur is the run in progress. */
  method FindBest(words: seq<nat>) returns (best: Option<Run>)
    ensures IsBest(words, best)
  {
    best := None;
    var cur: Option<Run> := None;
    var i := 0;
    while i < |words|
      invariant 0 <= i <= |words|
      invariant cur.Some? ==> Zeros(words, cur.value) && cur.value.base + cur.value.len == i && cur.value.len > 0
      invariant cur.Some? && cur.value.base > 0 ==> words[cur.value.base - 1] != 0
      invariant cur.None? && i > 0 ==> words[i - 1] != 0
      invariant BestIn(words, best, if cur.Some? then cur.value.base else i)
    {
      if words[i] == 0 {
        if cur.None? {
          cur := Some(Run(i, 1));
        } else {
          cur := Some(Run(cur.value.base, cur.value.len + 1));
        }
      } else {
        if cur.Some? {
          CloseRun(words, best, cur.value, i);
          if best.None? || cur.value.len > best.value.len {
            best := cur;
          }
          cur := None;
        }
        SkipWord(words, best, i);
      }
      i := i + 1;
    }
    if cur.Some? {
      CloseRun(words, best, cur.value, i);
      if best.None? || cur.value.len > best.value.len {
        best := cur;
      }
    }
    BestShown(words, best);
    if best.Some? && best.value.len < 2 {
      best := None;
    }
  }

  lemma InsideRun(words: seq<nat>, r: Run, i: int)
    requires Zeros(words, r)
    requires 0 <= i < |words| ==> words[i] != 0
    ensures 0 <= i < |words| ==> !(r.base <= i < r.base + r.len)
  {
  }

  /** A run that ends at i is compared with the best one before it. */
  lemma CloseRun(words: seq<nat>, best: Option<Run>, cur: Run, i: nat)
    requires Zeros(words, cur) && cur.base + cur.len == i && cur.len > 0 && i <= |words|
    requires cur.base > 0 ==> words[cur.base - 1] != 0
    requires BestIn(words, best, cur.base)
    ensures BestIn(words, if best.None? || cur.len > best.value.len then Some(cur) else best, i)
  {
    var now := if best.None? || cur.len > best.value.len then Some(cur) else best;
    forall r: Run | Zeros(words, r) && r.base + r.len <= i && r.len > 0
      ensures now.Some? && (r.len < now.value.len || (r.len == now.value.len && now.value.base <= r.base))
    {
      if r.base + r.len > cur.base {
        assert cur.base <= r.base by { InsideRun(words, r, cur.base - 1); }
      }
    }
  }

  lemma SkipWord(words: seq<nat>, best: Option<Run>, i: nat)
    requires i < |words| && words[i] != 0 && BestIn(words, best, i)
    ensures BestIn(words, best, i + 1)
  {
    forall r: Run | Zeros(words, r) && r.base + r.len <= i + 1 && r.len > 0
      ensures r.base + r.len <= i
    {
      InsideRun(words, r, i);
    }
  }

  lemma BestShown(words: seq<nat>, best: Option<Run>)
    requires BestIn(words, best, |words|)
    ensures IsBest(words, if best.Some? && best.value.len < 2 then None else best)
  {
  }

  /** Group 6 is printed as a group whenever seven groups are shortened: that test of the source never
      decides anything. */
  lemma SevenZeros(best: Option<Run>, words: seq<nat>)
    requires |words| == WORDS && !InRun(best, 6) && Embedded(words, best)
    ensures best.value.len == 6 || (best.value.len == 5 && words[5] == 0xffff)
  {
  }

  ghost function LengthBound(best: Option<Run>, i: nat): int {
    if best.Some? && best.value.base == 0 && best.value.len >= 5 then
      (if i == 0 then 22 else if i <= 5 then 21 else if i == 6 then 16 else 5 * (8 - i) + 1)
    else 5 * (8 - i) + 1
  }

  /** No text overflows the 46-byte buffer it is built in. */
  lemma {:induction false} TextLength(b: seq<byte>, best: Option<Run>, i: nat)
    requires |b| == ADDRESS_BYTES && i <= WORDS && (best.Some? ==> best.value.base + best.value.len <= WORDS)
    ensures |TextFrom(b, best, i)| <= LengthBound(best, i) <= 45
    decreases WORDS - i
  {
    if i < WORDS {
      TextLength(b, best, i + 1);
      var words := WordsOf(b);
      HexLength(words[i]);
      DottedLength(b[12..]);
      hide WordsOf, Dotted, Numeral;
    }
  }

  lemma DottedLength(b: seq<byte>)
    requires |b| == 4
    ensures |Dotted(b)| <= 15
  {
    DecLength(b[0]);
    DecLength(b[1]);
    DecLength(b[2]);
    DecLength(b[3]);
    hide Numeral;
  }

  lemma TextTurn(b: seq<byte>, best: Option<Run>, i: nat, text: string)
    requires |b| == ADDRESS_BYTES && i < WORDS
    ensures InRun(best, i) ==> best.Some?
    ensures InRun(best, i) ==>
      text + TextFrom(b, best, i) == (if i == best.value.base then text + ":" else text) + TextFrom(b, best, i + 1)
    ensures !InRun(best, i) ==>
      var pre := if i != 0 then text + ":" else text;
      text + TextFrom(b, best, i) ==
        if i == 6 && Embedded(WordsOf(b), best) then (pre + Dotted(b[12..])) + Closing(best)
        else (pre + Numeral(WordsOf(b)[i], 16)) + TextFrom(b, best, i + 1)
  {
    TextNext(b, best, i);
    hide *;
    var more := TextFrom(b, best, i + 1);
    if InRun(best, i) {
      Regroup(text, ":", "", more);
    } else {
      Regroup(text, ":", Numeral(WordsOf(b)[i], 16), more);
      Regroup(text, ":", Dotted(b[12..]), Closing(best));
    }
  }

  lemma Regroup(a: string, b: string, c: string, d: string)
    ensures a + (b + (c + d)) == ((a + b) + c) + d && a + (c + d) == (a + c) + d
    ensures a + (b + d) == (a + b) + d && "" + d == d && "" + (c + d) == c + d
  {
  }

  lemma TextNext(b: seq<byte>, best: Option<Run>, i: nat)
    requires |b| == ADDRESS_BYTES && i < WORDS
    ensures WORDS == 8 && |WordsOf(b)| == WORDS && |b[12..]| == 4 && (InRun(best, i) ==> best.Some?)
    ensures TextFrom(b, best, i) ==
      if InRun(best, i) then (if i == best.value.base then ":" else "") + TextFrom(b, best, i + 1)
      else
        (if i != 0 then ":" else "") +
        if i == 6 && Embedded(WordsOf(b), best) then Dotted(b[12..]) + Closing(best)
        else Numeral(WordsOf(b)[i], 16) + TextFrom(b, best, i + 1)
  {
    hide WordsOf, Dotted, Numeral, Embedded, Closing;
  }

  /** The third loop of inet_ntop6 has reached group i, or stopped at the IPv4 part. */
  ghost predicate PrintedTo(b: seq<byte>, best: Option<Run>, i: nat, going: bool, text: string)
    requires |b| == ADDRESS_BYTES
  {
    i <= WORDS && TextFrom(b, best, 0) == text + if going then TextFrom(b, best, i) else Closing(best)
  }

  lemma PrintedTurn(b: seq<byte>, best: Option<Run>, i: nat, text: string)
    requires |b| == ADDRESS_BYTES && IsBest(WordsOf(b), best) && PrintedTo(b, best, i, true, text) && i < WORDS
    ensures InRun(best, i) ==> best.Some? && PrintedTo(b, best, i + 1, true, if i == best.value.base then text + ":" else text)
    ensures !InRun(best, i) ==>
      var pre := if i != 0 then text + ":" else text;
      && i < |WordsOf(b)| && |WordsOf(b)| == WORDS && |b[12..]| == 4
      && if i == 6 && Embedded(WordsOf(b), best) then
           PrintedTo(b, best, i, false, pre + Dotted(b[12..])) && |pre| + |Dotted(b[12..])| < 46
         else PrintedTo(b, best, i + 1, true, pre + Numeral(WordsOf(b)[i], 16))
  {
    TextTurn(b, best, i, text);
    BestInside(WordsOf(b), best);
    TextLength(b, best, 0);
    hide WordsOf, Dotted, Numeral, Embedded, Closing, TextFrom, IsBest, InRun;
  }

  lemma BestInside(words: seq<nat>, best: Option<Run>)
    requires IsBest(words, best)
    ensures best.Some? ==> best.value.base + best.value.len <= |words| && best.value.len >= 2 && Zeros(words, best.value)
  {
  }

  lemma PrintedStart(b: seq<byte>, best: Option<Run>)
    requires |b| == ADDRESS_BYTES
    ensures PrintedTo(b, best, 0, true, "")
  {
    hide TextFrom;
  }

  lemma PrintedEnd(b: seq<byte>, best: Option<Run>, i: nat, going: bool, text: string)
    requires |b| == ADDRESS_BYTES && IsBest(WordsOf(b), best) && PrintedTo(b, best, i, going, text) && (going ==> i >= WORDS)
    ensures Prints(b, text + Closing(best))
  {
    hide WordsOf, IsBest, Closing;
    if going { assert TextFrom(b, best, WORDS) == Closing(best); }
  }

  lemma Size(b: seq<byte>)
    requires |b| == ADDRESS_BYTES
    ensures |b| == 16
  {
  }

  /** inet_ntop6; None stands for ENOSPC. */
  method Ntop6(src: seq<byte>, size: nat) returns (r: Option<string>)
    requires |src| == ADDRESS_BYTES
    ensures exists t :: Prints(src, t) && r == if |t| + 1 <= size then Some(t) else None
  {
    hide *;
    assert 12 + 4 == |src| by { Size(src); }
    var words := GatherWords(src);
    var best := FindBest(words);
    var text := "";
    var i: nat := 0;
    var going := true;
    PrintedStart(src, best);
    while i < WORDS && going
      invariant PrintedTo(src, best, i, going, text)
      decreases going, WORDS - i
    {
      PrintedTurn(src, best, i, text);
      if InRun(best, i) {
        if i == best.value.base {
          text := text + ":";
        }
        i := i + 1;
      } else {
        if i != 0 {
          text := text + ":";
        }
        if i == 6 && Embedded(words, best) {
          var quad := Ntop4(src[12..], 46 - |text|);
          if quad.None? {
            assert false;
          }
          text := text + quad.value;
          going := false;
        } else {
          text := text + Numeral(words[i], 16);
          i := i + 1;
        }
      }
    }
    PrintedEnd(src, best, i, going, text);
    text := text + Closing(best);
    if |text| + 1 > size {
      return None;
    }
    return Some(text);
  }

  // ---------- what a text looks like ----------

  /** Digits, lower-case letters a to f, colons, and periods where allowed. */
  predicate Plain(s: string, periods: bool) {
    forall k :: 0 <= k < |s| ==> '0' <= s[k] <= '9' || 'a' <= s[k] <= 'f' || s[k] == ':' || (periods && s[k] == '.')
  }

  lemma {:induction false} NumeralPlain(n: nat, base: nat)
    requires base == 10 || base == 16
    ensures Plain(Numeral(n, base), false)
    ensures |Numeral(n, base)| > 1 ==> Numeral(n, base)[0] != '0'
    ensures n > 0 ==> Numeral(n, base)[0] != '0'
  {
    DigitPlain(n % base);
    if n >= base { NumeralPlain(n / base, base); }
    hide Digit;
  }

  lemma DigitPlain(d: nat)
    requires d < 16
    ensures ('0' <= Digit(d) <= '9' || 'a' <= Digit(d) <= 'f') && (d > 0 ==> Digit(d) != '0')
  {
  }

  lemma DottedPlain(b: seq<byte>)
    requires |b| == 4
    ensures Plain(Dotted(b), true) && '.' in Dotted(b)
  {
    NumeralPlain(b[0], 10);
    NumeralPlain(b[1], 10);
    NumeralPlain(b[2], 10);
    NumeralPlain(b[3], 10);
    assert Dotted(b)[|Numeral(b[0], 10)|] == '.';
    hide Numeral;
  }

  lemma PlainConcat(s: string, t: string, u: string, p: bool)
    requires Plain(s, p) && Plain(t, p) && Plain(u, p)
    ensures Plain(s + t + u, p) && Plain(s + (t + u), p) && Plain(s + u, p)
  {
  }

  lemma PlainMore(s: string)
    requires Plain(s, false)
    ensures Plain(s, true) && '.' !in s
  {
  }

  /** Printed from group i on, the text has periods if and only if the IPv4 part comes. */
  lemma {:induction false} TextPlain(b: seq<byte>, best: Option<Run>, i: nat)
    requires |b| == ADDRESS_BYTES && i <= WORDS
    ensures var p := i <= 6 && !InRun(best, 6) && Embedded(WordsOf(b), best);
      Plain(TextFrom(b, best, i), p) && (p ==> '.' in TextFrom(b, best, i))
    decreases WORDS - i
  {
    hide *;
    var p := i <= 6 && !InRun(best, 6) && Embedded(WordsOf(b), best);
    TextEnd(b, best);
    if i < WORDS {
      TextNext(b, best, i);
      TextPlain(b, best, i + 1);
      ColonPlain();
      var more := TextFrom(b, best, i + 1);
      if InRun(best, i) {
        if p { LaterPlain(b, best, i); }
        if i == best.value.base { PlainConcat(":", "", more, p); } else { PlainConcat("", "", more, p); }
      } else if i == 6 && Embedded(WordsOf(b), best) {
        Size(b);
        DottedPlain(b[12..]);
        PlainMore(Closing(best));
        PlainConcat(":", Dotted(b[12..]), Closing(best), p);
      } else {
        var n := Numeral(WordsOf(b)[i], 16);
        NumeralPlain(WordsOf(b)[i], 16);
        PlainMore(n);
        PlainMore(":");
        PlainMore("");
        if i == 0 { PlainConcat("", n, more, p); } else { PlainConcat(":", n, more, p); }
      }
    }
  }

  lemma LaterPlain(b: seq<byte>, best: Option<Run>, i: nat)
    requires InRun(best, i) && i <= 6 && !InRun(best, 6)
    ensures i + 1 <= 6
  {
  }

  lemma ColonPlain()
    ensures Plain(":", false) && Plain("", false) && Plain(":", true) && Plain("", true)
  {
  }

  lemma TextEnd(b: seq<byte>, best: Option<Run>)
    requires |b| == ADDRESS_BYTES
    ensures WORDS == 8 && |WordsOf(b)| == WORDS && TextFrom(b, best, WORDS) == Closing(best) && Plain(Closing(best), false)
  {
    hide WordsOf;
  }

  /** The address is IPv4-compatible but not one of the first 65536, or IPv4-mapped. */
  predicate HoldsIPv4(b: seq<byte>)
    requires |b| == 16
  {
    && (forall k :: 0 <= k < 10 ==> b[k] == 0)
    && ((b[10] == 0 && b[11] == 0 && (b[12] != 0 || b[13] != 0)) || (b[10] == 255 && b[11] == 255))
  }

  lemma WordsZero(b: seq<byte>)
    requires |b| == 16
    ensures |WordsOf(b)| == 8 && forall k :: 0 <= k < 8 ==> (WordsOf(b)[k] == 0 <==> b[2 * k] == 0 && b[2 * k + 1] == 0)
    ensures WordsOf(b)[5] == 0xffff <==> b[10] == 255 && b[11] == 255
  {
  }

  lemma FirstFive(b: seq<byte>)
    requires |b| == 16
    ensures (forall k :: 0 <= k < 10 ==> b[k] == 0) <==> forall k :: 0 <= k < 5 ==> b[2 * k] == 0 && b[2 * k + 1] == 0
  {
    if forall k :: 0 <= k < 5 ==> b[2 * k] == 0 && b[2 * k + 1] == 0 {
      forall k | 0 <= k < 10 ensures b[k] == 0 { assert b[2 * (k / 2)] == 0 && b[2 * (k / 2) + 1] == 0; }
    }
  }

  /** Five or six zero groups at the beginning are the longest run if no zero follows. */
  lemma LeadingBest(words: seq<nat>, n: nat)
    requires |words| == 8 && 5 <= n <= 6 && (forall k :: 0 <= k < n ==> words[k] == 0) && words[n] != 0
    ensures IsBest(words, Some(Run(0, n)))
  {
    forall r: Run | Zeros(words, r) ensures r.len < n || (r.len == n && 0 <= r.base) { InsideRun(words, r, n); }
  }

  lemma ZerosFrom(words: seq<nat>, n: nat)
    ensures Zeros(words, Run(0, n)) <==> n <= |words| && forall k :: 0 <= k < n ==> words[k] == 0
  {
  }

  lemma EmbeddedIff(b: seq<byte>, best: Option<Run>)
    requires |b| == 16 && IsBest(WordsOf(b), best)
    ensures !InRun(best, 6) && Embedded(WordsOf(b), best) <==> HoldsIPv4(b)
  {
    var w := WordsOf(b);
    WordsZero(b);
    FirstFive(b);
    hide WordsOf;
    if HoldsIPv4(b) {
      var n := if w[5] == 0 then 6 else 5;
      LeadingBest(w, n);
      BestUnique(w, best, Some(Run(0, n)));
    } else if !InRun(best, 6) && Embedded(w, best) {
      assert Zeros(w, best.value);
      assert w[0] == 0 && w[1] == 0 && w[2] == 0 && w[3] == 0 && w[4] == 0;
      ZerosFrom(w, 7);
    }
  }

  /** A text has nothing but digits, lower-case letters a to f and colons, and periods for exactly the addresses
      that hold an IPv4 address. */
  lemma TextLooks(b: seq<byte>, t: string)
    requires |b| == 16 && Prints(b, t)
    ensures Plain(t, true) && ('.' in t <==> HoldsIPv4(b))
  {
    var best :| IsBest(WordsOf(b), best) && t == TextFrom(b, best, 0);
    TextPlain(b, best, 0);
    EmbeddedIff(b, best);
    if Plain(t, false) { PlainMore(t); }
    hide WordsOf, TextFrom, IsBest, Embedded, InRun, HoldsIPv4;
  }
}
