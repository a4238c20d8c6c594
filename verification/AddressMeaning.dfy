/** What inet_net_pton_ipv6 answers to every text: the groups before its last colon, the group or the
    embedded address and the width behind it, and where they go in the 16 bytes. */
module AddressMeaning {
  import opened Seqs
  import opened Numerals
  import opened AddressText
  import opened AddressParse
  import opened AddressRoundTrip
  import opened AddressGrammar
  import opened AddressFields

  // ---------- the groups before the last colon ----------

  /** The fields, each with a colon behind it. */
  function Colons(gs: seq<string>): string {
    if gs == [] then "" else gs[0] + (":" + Colons(gs[1..]))
  }

  /** The fields that are not empty. */
  function GroupCount(gs: seq<string>): (n: nat)
    ensures n <= |gs|
  {
    if gs == [] then 0 else (if gs[0] != "" then 1 else 0) + GroupCount(gs[1..])
  }

  ghost predicate HexGroups(gs: seq<string>) { forall i :: 0 <= i < |gs| ==> HexGroup(gs[i]) }

  ghost function GroupPair(g: string): (r: seq<byte>)
    requires HexText(g)
    ensures |r| == if g == "" then 0 else 2
  {
    if g == "" then [] else Pair(HexNumber(g))
  }

  /** The bytes of the groups, two each. */
  ghost function GroupBytes(gs: seq<string>): (r: seq<byte>)
    requires HexGroups(gs)
    ensures |r| == 2 * GroupCount(gs)
  {
    if gs == [] then [] else GroupPair(gs[0]) + GroupBytes(gs[1..])
  }

  /** The bytes of the groups before the empty field, which stands for "::". */
  function GapAt(gs: seq<string>): (r: Option<nat>)
    ensures r.Some? ==> r.value <= 2 * GroupCount(gs)
    ensures r.Some? <==> "" in gs
  {
    if gs == [] then None
    else if gs[0] == "" then Some(0)
    else
      match GapAt(gs[1..])
      case None => None
      case Some(k) => Some(k + 2)
  }

  /** One field is empty at most, counting the gap that has already been met. */
  ghost predicate OneGap(gs: seq<string>, colon: Option<nat>) {
    |gs| + (if colon.Some? then 1 else 0) <= GroupCount(gs) + 1
  }

  lemma FirstField(gs: seq<string>, rest: string)
    requires gs != [] && HexGroups(gs)
    ensures HexGroup(gs[0]) && ':' !in gs[0] && HexGroups(gs[1..])
    ensures Colons(gs) + rest == gs[0] + (":" + (Colons(gs[1..]) + rest))
    ensures GroupCount(gs) == (if gs[0] != "" then 1 else 0) + GroupCount(gs[1..])
  {
    hide HexValue;
    assert HexGroup(gs[0]);
    assert HexValue(':').None? by { ColonNoDigit(); }
  }

  lemma ColonNoDigit()
    ensures HexValue(':').None?
  {
  }

  lemma NoFields(rest: string)
    ensures Colons([]) + rest == rest && GroupCount([]) == 0 && HexGroups([]) && GroupBytes([]) == []
  {
  }

  /** The text up to the first colon. */
  lemma {:induction false} SplitField(s: string) returns (f: string, t: string)
    requires ':' in s
    ensures s == f + (":" + t) && ':' !in f
    decreases |s|
  {
    if s[0] == ':' {
      f, t := "", s[1..];
    } else {
      f, t := SplitField(s[1..]);
      assert s == [s[0]] + s[1..];
      f := [s[0]] + f;
    }
  }

  // ---------- nine groups ----------

  /** Fields that fill the array and one group over. */
  ghost predicate Overlong(gs: seq<string>, out: seq<byte>, colon: Option<nat>) {
    && gs != [] && gs[|gs| - 1] != "" && HexGroups(gs) && OneGap(gs, colon)
    && |out| + 2 * GroupCount(gs) == ADDRESS_BYTES + 2
  }

  lemma {:induction false} LastCounts(gs: seq<string>)
    requires gs != [] && gs[|gs| - 1] != ""
    ensures GroupCount(gs) >= 1
  {
    if |gs| > 1 { LastCounts(gs[1..]); }
  }

  /** After its first field, an overlong list either is over or goes on as one. */
  lemma OverlongNext(gs: seq<string>, out: seq<byte>, colon: Option<nat>)
    requires ScannerOk(Fresh(out, colon)) && Overlong(gs, out, colon)
    ensures HexGroup(gs[0]) && HexText(gs[0])
    ensures gs[0] == "" ==> colon.None? && Overlong(gs[1..], out, Some(|out|))
    ensures gs[0] != "" && |out| < ADDRESS_BYTES ==>
      |out| + 2 <= ADDRESS_BYTES && Overlong(gs[1..], out + Pair(HexNumber(gs[0])), colon)
  {
    LastCounts(gs);
    FirstField(gs, "");
    HexGroupIs(gs[0]);
    hide HexGroup, HexText, HexNumber, Pair, Colons;
    assert |gs| == 1 ==> gs[1..] == [];
    assert GroupCount([]) == 0;
    assert |gs| > 1 ==> gs[1..][|gs| - 2] == gs[|gs| - 1];
  }

  lemma {:induction false} OverlongScan(gs: seq<string>, rest: string, out: seq<byte>, colon: Option<nat>)
    requires ScannerOk(Fresh(out, colon)) && Overlong(gs, out, colon) && rest != ""
    ensures var s := Colons(gs) + rest; Scan(s, s, Fresh(out, colon)) == NinthGroup
    decreases |gs|
  {
    OverlongParts(gs, out, colon);
    hide *;
    FirstField(gs, rest);
    OverlongNext(gs, out, colon);
    var t := Colons(gs[1..]) + rest;
    FieldRead(gs[0], t, out, colon);
    if gs[0] == "" {
      FreshOk(out, Some(|out|));
      OverlongScan(gs[1..], rest, out, Some(|out|));
    } else if |out| < ADDRESS_BYTES {
      FreshMore(out, colon);
      OverlongScan(gs[1..], rest, out + Pair(HexNumber(gs[0])), colon);
    } else {
      FreshOk(out, colon);
      ArraySize();
    }
  }

  lemma ArraySize()
    ensures ADDRESS_BYTES == 16
  {
  }

  lemma OverlongParts(gs: seq<string>, out: seq<byte>, colon: Option<nat>)
    requires Overlong(gs, out, colon)
    ensures gs != [] && HexGroups(gs) && gs[|gs| - 1] != ""
  {
  }

  lemma FreshOk(out: seq<byte>, colon: Option<nat>)
    ensures ScannerOk(Fresh(out, colon)) <==> |out| <= ADDRESS_BYTES && (colon.Some? ==> colon.value <= |out|)
  {
  }

  lemma FreshMore(out: seq<byte>, colon: Option<nat>)
    requires ScannerOk(Fresh(out, colon)) && |out| + 2 <= ADDRESS_BYTES
    ensures forall w: nat :: ScannerOk(Fresh(out + Pair(w), colon))
  {
    hide Pair;
  }

  /** Without a colon there is no ninth group. */
  lemma LastNotNinth(s: string, out: seq<byte>, colon: Option<nat>)
    requires ScannerOk(Fresh(out, colon)) && ':' !in s
    ensures Scan(s, s, Fresh(out, colon)) != NinthGroup
  {
    var n := HexRun(s);
    RunThen(s, out, colon);
    if n < |s| {
      assert s[n..] == [s[n]] + s[n + 1..];
      if n <= 4 { AtOther(s[n], s[n + 1..], s, AfterHex(Fresh(out, colon), s[..n])); }
    } else {
      assert s[n..] == "";
    }
    hide V4From, BitsFrom, HexRun, HexText, AfterHex, Fresh;
  }

  /** Putting a field before an overlong list. */
  lemma OverlongMore(f: string, gs: seq<string>, out: seq<byte>, colon: Option<nat>)
    requires HexGroup(f) && HexText(f) && HexGroups(gs)
    ensures ([f] + gs)[1..] == gs && HexGroups([f] + gs)
    ensures forall rest: string :: Colons([f] + gs) + rest == f + (":" + (Colons(gs) + rest))
    ensures f == "" && colon.None? && Overlong(gs, out, Some(|out|)) ==> Overlong([f] + gs, out, colon)
    ensures f != "" && |out| + 2 <= ADDRESS_BYTES && Overlong(gs, out + Pair(HexNumber(f)), colon) ==>
      Overlong([f] + gs, out, colon)
    ensures f != "" && gs == [] && |out| == ADDRESS_BYTES ==> Overlong([f] + gs, out, colon)
  {
    assert ([f] + gs)[1..] == gs;
    hide HexGroup, HexText, HexNumber, Pair;
    assert GroupCount([f] + gs) == (if f != "" then 1 else 0) + GroupCount(gs);
    assert gs == [] ==> GroupCount(gs) == 0;
    assert gs != [] ==> ([f] + gs)[|gs|] == gs[|gs| - 1];
  }

  lemma {:induction false} NinthMeans(s: string, out: seq<byte>, colon: Option<nat>) returns (gs: seq<string>, rest: string)
    requires ScannerOk(Fresh(out, colon)) && |out| % 2 == 0 && Scan(s, s, Fresh(out, colon)) == NinthGroup
    ensures s == Colons(gs) + rest && rest != "" && Overlong(gs, out, colon)
    decreases |s|
  {
    hide *;
    if ':' !in s { LastNotNinth(s, out, colon); }
    var f, t := SplitField(s);
    FieldRead(f, t, out, colon);
    HexGroupIs(f);
    ArraySize();
    FreshOk(out, colon);
    if f == "" {
      FreshOk(out, Some(|out|));
      gs, rest := NinthMeans(t, out, Some(|out|));
      OverlongParts(gs, out, Some(|out|));
      OverlongMore(f, gs, out, colon);
    } else if |out| + 2 <= ADDRESS_BYTES {
      FreshMore(out, colon);
      gs, rest := NinthMeans(t, out + Pair(HexNumber(f)), colon);
      OverlongParts(gs, out + Pair(HexNumber(f)), colon);
      OverlongMore(f, gs, out, colon);
    } else {
      gs, rest := [], t;
      NoFields(rest);
      OverlongMore(f, gs, out, colon);
    }
    gs := [f] + gs;
  }

  /** What is scanned: the text, without the first colon of two it begins with. */
  function Body(src: string): Option<string> {
    if |src| > 0 && src[0] == ':' then if |src| > 1 && src[1] == ':' then Some(src[1..]) else None else Some(src)
  }

  lemma PtonIs(src: string, size: nat)
    ensures ScannerOk(Fresh([], None))
    ensures Pton6(src, size) == match Body(src)
      case None => NotAddress
      case Some(b) => Finish(Scan(b, b, Fresh([], None)), size)
  {
    hide Finish, Scan;
  }

  /** b begins with exactly nine groups of one to four digits of either case, and at most one gap among them,
      each with a colon behind it; the ninth group is the last of these fields, and the text goes on. */
  ghost predicate NineThenMore(b: string, gs: seq<string>, rest: string) {
    && b == Colons(gs) + rest && rest != ""
    && HexGroups(gs) && GroupCount(gs) == 9 && |gs| <= 10 && gs[|gs| - 1] != ""
  }

  lemma NineIs(b: string, gs: seq<string>, rest: string)
    ensures NineThenMore(b, gs, rest) <==> b == Colons(gs) + rest && rest != "" && Overlong(gs, [], None)
  {
    hide HexGroups, Colons;
  }

  lemma FinishKinds(r: Scanned, size: nat)
    requires ScannedOk(r)
    ensures Finish(r, size) == NothingWritten <==> r == NinthGroup
    ensures r == BadText ==> Finish(r, size) == NotAddress
  {
    hide ShiftFrom, Pair;
  }

  /** The comment above ares_inet_net_pton promises -1 on any failure. Failure is answered with 0 instead, and
      nothing is written, exactly for the texts that begin with nine groups and go on. */
  lemma NothingWrittenIff(src: string, size: nat)
    ensures Pton6(src, size) == NothingWritten <==>
      Body(src).Some? && exists gs, rest :: NineThenMore(Body(src).value, gs, rest)
  {
    hide *;
    PtonIs(src, size);
    if Body(src).Some? {
      var b := Body(src).value;
      FinishKinds(Scan(b, b, Fresh([], None)), size);
      if Scan(b, b, Fresh([], None)) == NinthGroup {
        var gs, rest := NinthMeans(b, [], None);
        NineIs(b, gs, rest);
      }
      if exists gs, rest :: NineThenMore(b, gs, rest) {
        var gs, rest :| NineThenMore(b, gs, rest);
        NineIs(b, gs, rest);
        OverlongScan(gs, rest, [], None);
      }
    }
  }

  // ---------- what stands behind the last colon ----------

  /** The bytes it gives, the width, and whether it is an embedded IPv4 address. */
  datatype Tail = Tail(bytes: seq<byte>, width: Option<nat>, quad: bool)

  ghost predicate PlainTail(f: string, t: Tail) {
    HexGroup(f) && t == Tail(GroupPair(f), None, false)
  }

  ghost predicate WidthTailIs(f: string, h: string, w: nat, t: Tail) {
    HexGroup(h) && w <= 128 && f == h + ("/" + Numeral(w, 10)) && t == Tail(GroupPair(h), Some(w), false)
  }

  ghost predicate QuadTail(f: string, items: seq<string>, octets: seq<byte>, w: Option<nat>, t: Tail) {
    2 <= |octets| <= 4 && QuadText(f, items, octets, w) && t == Tail(octets + ZeroBytes(4 - |octets|), w, true)
  }

  /** A group, perhaps empty; or a group and a width; or two to four octets, with a width or without. */
  ghost predicate TailText(f: string, t: Tail) {
    || PlainTail(f, t)
    || (exists h, w :: WidthTailIs(f, h, w, t))
    || (exists items, octets, w :: QuadTail(f, items, octets, w, t))
  }

  /** The scan has taken t in behind out, or an embedded address found no room. */
  ghost predicate Took(r: Scanned, out: seq<byte>, colon: Option<nat>, t: Tail) {
    if t.quad && |out| + 4 > ADDRESS_BYTES then r == BadText
    else
      && r.Scanned? && r.colon == colon && r.bits == t.width && r.ipv4 == t.quad
      && (if r.saw then r.out + Pair(r.val) else r.out) == out + t.bytes
  }

  lemma {:induction false} NumeralDigits(n: nat)
    ensures forall i :: 0 <= i < |Numeral(n, 10)| ==> DecValue(Numeral(n, 10)[i]).Some? && HexValue(Numeral(n, 10)[i]).Some?
  {
    DigitValue(n % 10);
    if n >= 10 { NumeralDigits(n / 10); }
    hide Digit, DecValue, HexValue;
  }

  lemma OctetIsHex(item: string, b: byte)
    requires Octet(item, b)
    ensures HexGroup(item) && HexText(item) && '.' !in item && '/' !in item
  {
    NumeralDigits(b);
    DecLength(b);
    assert DecValue('.').None? && DecValue('/').None?;
    hide Numeral, HexValue, DecValue;
  }

  lemma PlainRead(f: string, out: seq<byte>, colon: Option<nat>, t: Tail)
    requires ScannerOk(Fresh(out, colon)) && PlainTail(f, t)
    ensures Took(Scan(f, f, Fresh(out, colon)), out, colon, t)
  {
    HexGroupIs(f);
    HexReads(f, "", f, out, colon);
    assert f + "" == f;
    AfterHexIs(Fresh(out, colon), f);
    assert out + [] == out;
    hide HexGroup, HexText, HexNumber, Pair;
  }

  lemma WidthRead(f: string, h: string, w: nat, out: seq<byte>, colon: Option<nat>, t: Tail)
    requires ScannerOk(Fresh(out, colon)) && WidthTailIs(f, h, w, t)
    ensures Took(Scan(f, f, Fresh(out, colon)), out, colon, t)
  {
    HexGroupIs(h);
    HexReads(h, "/" + Numeral(w, 10), f, out, colon);
    AfterHexIs(Fresh(out, colon), h);
    assert HexValue('/').None?;
    AtOther('/', Numeral(w, 10), f, AfterHex(Fresh(out, colon), h));
    WidthText(Numeral(w, 10), w);
    assert out + [] == out;
    hide HexGroup, HexText, HexNumber, Pair, Numeral, BitsFrom, Scan, V4From;
  }

  lemma QuadRead(f: string, items: seq<string>, octets: seq<byte>, w: Option<nat>, out: seq<byte>, colon: Option<nat>, t: Tail)
    requires ScannerOk(Fresh(out, colon)) && QuadTail(f, items, octets, w, t)
    ensures Took(Scan(f, f, Fresh(out, colon)), out, colon, t)
  {
    hide *;
    QuadTailIs(f, items, octets, w, t);
    QuadTextParts(f, items, octets, w);
    QuadTextRest(f, items, octets, w);
    var rest :| f == items[0] + ("." + rest) && QuadText(rest, items[1..], octets[1..], w);
    OctetIsHex(items[0], octets[0]);
    HexGroupIs(items[0]);
    HexReads(items[0], "." + rest, f, out, colon);
    DotNoDigit();
    FreshOk(out, colon);
    AfterHexIs(Fresh(out, colon), items[0]);
    FreshIs(out, colon);
    AtOther('.', rest, f, AfterHex(Fresh(out, colon), items[0]));
    QuadMeaning(f, octets, w);
    QuadTook(Scan(f, f, Fresh(out, colon)), out, colon, octets, t);
  }

  lemma QuadTook(r: Scanned, out: seq<byte>, colon: Option<nat>, octets: seq<byte>, t: Tail)
    requires |octets| <= 4 && t.quad && t.bytes == octets + ZeroBytes(4 - |octets|)
    requires if |out| + 4 <= ADDRESS_BYTES then
        r.Scanned? && r.out == out + octets + ZeroBytes(4 - |octets|) && r.colon == colon && !r.saw && r.bits == t.width && r.ipv4
      else r == BadText
    ensures Took(r, out, colon, t)
  {
    hide Pair;
  }

  lemma DotNoDigit()
    ensures HexValue('.').None? && HexValue('/').None?
  {
  }

  lemma QuadTailIs(f: string, items: seq<string>, octets: seq<byte>, w: Option<nat>, t: Tail)
    requires QuadTail(f, items, octets, w, t)
    ensures 2 <= |octets| <= 4 && QuadText(f, items, octets, w) && |items| == |octets|
    ensures t == Tail(octets + ZeroBytes(4 - |octets|), w, true)
  {
    QuadTextParts(f, items, octets, w);
    hide QuadText, Octet;
  }

  /** Every text of a tail is read as that tail. */
  lemma TailRead(f: string, out: seq<byte>, colon: Option<nat>, t: Tail)
    requires ScannerOk(Fresh(out, colon)) && TailText(f, t)
    ensures Took(Scan(f, f, Fresh(out, colon)), out, colon, t)
  {
    hide PlainTail, WidthTailIs, QuadTail, Took, Scan, Fresh, ScannerOk;
    if PlainTail(f, t) {
      PlainRead(f, out, colon, t);
    } else if exists h, w :: WidthTailIs(f, h, w, t) {
      var h, w :| WidthTailIs(f, h, w, t);
      WidthRead(f, h, w, out, colon, t);
    } else {
      var items, octets, w :| QuadTail(f, items, octets, w, t);
      QuadRead(f, items, octets, w, out, colon, t);
    }
  }

  /** A single octet has no period in its text. */
  lemma PeriodMeansTwo(f: string, items: seq<string>, octets: seq<byte>, w: Option<nat>)
    requires QuadText(f, items, octets, w) && '.' in f
    ensures |octets| >= 2
  {
    hide *;
    QuadTextParts(f, items, octets, w);
    if |octets| == 1 {
      OctetIsHex(items[0], octets[0]);
      NoPeriod(w);
    }
  }

  lemma NoPeriod(w: Option<nat>)
    ensures '.' !in WidthTail(w)
  {
    if w.Some? { NumeralDigits(w.value); }
    assert DecValue('.').None?;
    hide Numeral, DecValue;
  }

  /** Whatever the scan accepts behind the last colon is the text of a tail. */
  lemma TailMeant(f: string, out: seq<byte>, colon: Option<nat>) returns (t: Tail)
    requires ScannerOk(Fresh(out, colon)) && ':' !in f && Scan(f, f, Fresh(out, colon)).Scanned?
    ensures TailText(f, t)
  {
    var n := HexRun(f);
    RunThen(f, out, colon);
    if n == |f| {
      assert f[..n] == f;
      HexGroupIs(f);
      t := Tail(GroupPair(f), None, false);
      assert PlainTail(f, t);
    } else {
      var c, s := f[n], f[n + 1..];
      var h := f[..n];
      assert f[n..] == [c] + s;
      assert c in f;
      t := OtherMeant(f, h, c, s, out, colon);
    }
    hide *;
  }

  lemma OtherMeant(f: string, h: string, c: char, s: string, out: seq<byte>, colon: Option<nat>) returns (t: Tail)
    requires ScannerOk(Fresh(out, colon)) && f == h + ([c] + s) && HexValue(c).None? && c != ':' && HexText(h) && |h| <= 4
    requires ScannerOk(AfterHex(Fresh(out, colon), h)) && Scan([c] + s, f, AfterHex(Fresh(out, colon), h)).Scanned?
    ensures TailText(f, t)
  {
    AtOther(c, s, f, AfterHex(Fresh(out, colon), h));
    HexGroupIs(h);
    hide Scan, Fresh, HexText, HexGroup, AfterHex, ScannerOk, HexValue, QuadText, V4From, BitsFrom, PlainTail;
    if c == '/' {
      var w := BitsFrom(s, 0, 0).value;
      WidthText(s, w);
      t := Tail(GroupPair(h), Some(w), false);
      assert WidthTailIs(f, h, w, t);
    } else {
      var q := V4From(f, [], 0, 0).value;
      QuadMeaning(f, q.octets, q.bits);
      var items :| QuadText(f, items, q.octets, q.bits);
      assert f[|h|] == '.';
      PeriodMeansTwo(f, items, q.octets, q.bits);
      t := Tail(q.octets + ZeroBytes(4 - |q.octets|), q.bits, true);
      assert QuadTail(f, items, q.octets, q.bits, t);
    }
  }
}
