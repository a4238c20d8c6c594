/** The answer of inet_net_pton_ipv6 to every text, and where it departs from what is promised. */
module AddressOutcome {
  import opened Seqs
  import opened Numerals
  import opened AddressText
  import opened AddressParse
  import opened AddressRoundTrip
  import opened AddressGrammar
  import opened AddressFields
  import opened AddressMeaning

  // ---------- reading the groups ----------

  /** Groups that the scan takes in behind out, before the text f. */
  ghost predicate GroupsFit(gs: seq<string>, f: string, out: seq<byte>, colon: Option<nat>) {
    && HexGroups(gs) && OneGap(gs, colon) && |out| + 2 * GroupCount(gs) <= ADDRESS_BYTES
    && (f == "" && gs != [] ==> gs[|gs| - 1] == "")
  }

  /** Where "::" stands once the groups have been read. */
  function GapAfter(gs: seq<string>, out: seq<byte>, colon: Option<nat>): Option<nat> {
    if colon.Some? then colon
    else
      match GapAt(gs)
      case None => None
      case Some(k) => Some(|out| + k)
  }

  lemma FitsParts(gs: seq<string>, f: string, out: seq<byte>, colon: Option<nat>)
    requires GroupsFit(gs, f, out, colon)
    ensures HexGroups(gs) && |GroupBytes(gs)| == 2 * GroupCount(gs) && |out| + |GroupBytes(gs)| <= ADDRESS_BYTES
    ensures ScannerOk(Fresh(out, colon)) ==> ScannerOk(Fresh(out + GroupBytes(gs), GapAfter(gs, out, colon)))
  {
    hide HexGroups, OneGap;
  }

  lemma FitsIs(gs: seq<string>, f: string, out: seq<byte>, colon: Option<nat>)
    ensures GroupsFit(gs, f, out, colon) <==>
      && HexGroups(gs) && |gs| + (if colon.Some? then 1 else 0) <= GroupCount(gs) + 1
      && |out| + 2 * GroupCount(gs) <= ADDRESS_BYTES && (f == "" && gs != [] ==> gs[|gs| - 1] == "")
  {
    hide HexGroups;
  }

  lemma BytesNext(gs: seq<string>)
    requires gs != [] && HexGroups(gs)
    ensures HexText(gs[0]) && HexGroups(gs[1..])
    ensures GroupBytes(gs) == (if gs[0] == "" then [] else Pair(HexNumber(gs[0]))) + GroupBytes(gs[1..])
  {
    FirstField(gs, "");
    HexGroupIs(gs[0]);
    hide HexGroup, HexText, HexNumber, Pair;
  }

  lemma GapNext(gs: seq<string>, out: seq<byte>, colon: Option<nat>)
    requires gs != []
    ensures gs[0] == "" && colon.None? ==> GapAfter(gs, out, colon) == Some(|out|) == GapAfter(gs[1..], out, Some(|out|))
    ensures gs[0] != "" ==>
      forall more: seq<byte> :: |more| == |out| + 2 ==> GapAfter(gs[1..], more, colon) == GapAfter(gs, out, colon)
  {
  }

  lemma RestNotEmpty(gs: seq<string>, f: string)
    ensures gs != [] || f != "" ==> Colons(gs) + f != ""
  {
  }

  /** Taking one field off. */
  lemma FitsNext(gs: seq<string>, f: string, out: seq<byte>, colon: Option<nat>)
    requires gs != [] && GroupsFit(gs, f, out, colon)
    ensures HexText(gs[0]) && HexGroups(gs) && HexGroups(gs[1..])
    ensures gs[0] == "" ==>
      && colon.None? && GroupsFit(gs[1..], f, out, Some(|out|))
      && out + GroupBytes(gs[1..]) == out + GroupBytes(gs)
      && GapAfter(gs[1..], out, Some(|out|)) == GapAfter(gs, out, colon)
    ensures gs[0] != "" ==>
      var more := out + Pair(HexNumber(gs[0]));
      && |out| + 2 <= ADDRESS_BYTES && Colons(gs[1..]) + f != ""
      && GroupsFit(gs[1..], f, more, colon)
      && more + GroupBytes(gs[1..]) == out + GroupBytes(gs)
      && GapAfter(gs[1..], more, colon) == GapAfter(gs, out, colon)
  {
    hide *;
    FitsIs(gs, f, out, colon);
    FirstField(gs, f);
    BytesNext(gs);
    GapNext(gs, out, colon);
    var rest := gs[1..];
    assert rest != [] ==> rest[|rest| - 1] == gs[|gs| - 1];
    FitsIs(rest, f, out, Some(|out|));
    if gs[0] == "" {
      assert [] + GroupBytes(rest) == GroupBytes(rest);
    } else {
      var pair := Pair(HexNumber(gs[0]));
      FitsIs(rest, f, out + pair, colon);
      assert (out + pair) + GroupBytes(rest) == out + (pair + GroupBytes(rest));
      RestNotEmpty(rest, f);
    }
  }

  lemma {:induction false} GroupsRead(gs: seq<string>, f: string, out: seq<byte>, colon: Option<nat>)
    requires ScannerOk(Fresh(out, colon)) && GroupsFit(gs, f, out, colon)
    ensures HexGroups(gs) && ScannerOk(Fresh(out + GroupBytes(gs), GapAfter(gs, out, colon)))
    ensures var s := Colons(gs) + f;
      Scan(s, s, Fresh(out, colon)) == Scan(f, f, Fresh(out + GroupBytes(gs), GapAfter(gs, out, colon)))
    decreases |gs|
  {
    hide *;
    FitsParts(gs, f, out, colon);
    if gs == [] {
      NoFields(f);
      NoGap(out, colon);
      assert out + [] == out;
    } else {
      FirstField(gs, f);
      FitsNext(gs, f, out, colon);
      FreshOk(out, colon);
      ArraySize();
      var t := Colons(gs[1..]) + f;
      FieldRead(gs[0], t, out, colon);
      if gs[0] == "" {
        FreshOk(out, Some(|out|));
        GroupsRead(gs[1..], f, out, Some(|out|));
      } else {
        FreshMore(out, colon);
        GroupsRead(gs[1..], f, out + Pair(HexNumber(gs[0])), colon);
      }
    }
  }

  lemma NoGap(out: seq<byte>, colon: Option<nat>)
    ensures GapAfter([], out, colon) == colon
  {
  }

  /** Putting a field before groups that fit. */
  lemma FitsMore(g: string, gs: seq<string>, f: string, out: seq<byte>, colon: Option<nat>)
    requires HexGroup(g) && HexText(g)
    ensures Colons([g] + gs) + f == g + (":" + (Colons(gs) + f))
    ensures g == "" && colon.None? && GroupsFit(gs, f, out, Some(|out|)) ==> GroupsFit([g] + gs, f, out, colon)
    ensures g != "" && Colons(gs) + f != "" && GroupsFit(gs, f, out + Pair(HexNumber(g)), colon) ==>
      GroupsFit([g] + gs, f, out, colon)
  {
    assert ([g] + gs)[1..] == gs;
    assert GroupCount([g] + gs) == (if g != "" then 1 else 0) + GroupCount(gs);
    assert gs != [] ==> ([g] + gs)[|gs|] == gs[|gs| - 1];
    hide HexGroup, HexText, HexNumber, Pair;
    assert gs == [] ==> Colons(gs) == "";
  }

  /** Whatever the scan accepts is groups that fit, and a last part without a colon. */
  lemma {:induction false} GroupsMeant(s: string, out: seq<byte>, colon: Option<nat>) returns (gs: seq<string>, f: string)
    requires ScannerOk(Fresh(out, colon)) && Scan(s, s, Fresh(out, colon)).Scanned?
    ensures s == Colons(gs) + f && ':' !in f && GroupsFit(gs, f, out, colon)
    decreases |s|
  {
    hide *;
    FreshOk(out, colon);
    ArraySize();
    if ':' !in s {
      gs, f := [], s;
      NoFields(f);
      NothingFits(f, out, colon);
    } else {
      var g, t := SplitField(s);
      FieldRead(g, t, out, colon);
      HexGroupIs(g);
      if g == "" {
        FreshOk(out, Some(|out|));
        gs, f := GroupsMeant(t, out, Some(|out|));
      } else {
        FreshMore(out, colon);
        gs, f := GroupsMeant(t, out + Pair(HexNumber(g)), colon);
      }
      FitsMore(g, gs, f, out, colon);
      gs := [g] + gs;
    }
  }

  lemma NothingFits(f: string, out: seq<byte>, colon: Option<nat>)
    requires |out| <= ADDRESS_BYTES
    ensures GroupsFit([], f, out, colon)
  {
  }

  // ---------- the outcome ----------

  /** The answer when all bytes of the text are these, with "::" after the first gap of them: without "::"
      they must reach just to the end of the prefix; with it they must not, and those behind it are moved
      up against that end. */
  function Placed(all: seq<byte>, gap: Option<nat>, t: Tail, size: nat): Outcome
    requires (t.width.Some? ==> t.width.value <= 128) && (gap.Some? ==> gap.value <= |all|)
  {
    var bits := if t.width.Some? then t.width.value else 128;
    var end := PrefixEnd(t.width, t.quad);
    if |all| > ADDRESS_BYTES then NotAddress
    else if gap.None? then
      if |all| != end then NotAddress
      else if (bits + 7) / 8 > size then TooSmall
      else Bits(bits, (all + ZeroBytes(ADDRESS_BYTES - |all|))[..(bits + 7) / 8])
    else if |all| == end then NotAddress
    else if |all| - gap.value > end then OutOfArray
    else if (bits + 7) / 8 > size then TooSmall
    else if |all| < end then Bits(bits, Spread(all, gap.value, end)[..(bits + 7) / 8])
    else Bits(bits, ShiftFrom(all + ZeroBytes(ADDRESS_BYTES - |all|), gap.value, |all| - gap.value, end, 1)[..(bits + 7) / 8])
  }

  lemma TailSize(f: string, t: Tail)
    requires TailText(f, t)
    ensures (t.quad ==> |t.bytes| == 4) && (!t.quad ==> |t.bytes| <= 2) && (t.width.Some? ==> t.width.value <= 128)
  {
    hide HexGroup, QuadText, Numeral, Octet, HexNumber, Pair;
    if exists items, octets, w :: QuadTail(f, items, octets, w, t) {
      var items, octets, w :| QuadTail(f, items, octets, w, t);
      QuadTextParts(f, items, octets, w);
    }
  }

  /** What follows the loop, once all bytes are there. */
  lemma FinishAll(r: Scanned, all: seq<byte>, size: nat)
    requires ScannedOk(r) && r.Scanned? && all == if r.saw then r.out + Pair(r.val) else r.out
    ensures (r.colon.Some? ==> r.colon.value <= |all|) && (r.bits.Some? ==> r.bits.value <= 128)
    ensures Finish(r, size) == if |all| > ADDRESS_BYTES then NotAddress else Settle(all, r.colon, r.bits, r.ipv4, size)
  {
    hide Settle, Pair;
  }

  lemma SettleIs(all: seq<byte>, gap: Option<nat>, t: Tail, size: nat)
    requires (t.width.Some? ==> t.width.value <= 128) && (gap.Some? ==> gap.value <= |all|) && |all| <= ADDRESS_BYTES
    ensures Settle(all, gap, t.width, t.quad, size) == Placed(all, gap, t, size)
  {
    var end := PrefixEnd(t.width, t.quad);
    if gap.Some? && |all| < end { ShiftMeaning(all, gap.value, end); }
    hide ShiftFrom, Spread, ZeroBytes, PrefixEnd;
  }

  lemma FinishTook(r: Scanned, out: seq<byte>, gap: Option<nat>, t: Tail, size: nat)
    requires ScannedOk(r) && Took(r, out, gap, t) && ScannerOk(Fresh(out, gap))
    requires (t.quad ==> |t.bytes| == 4) && (!t.quad ==> |t.bytes| <= 2) && (t.width.Some? ==> t.width.value <= 128)
    ensures (gap.Some? ==> gap.value <= |out + t.bytes|) && Finish(r, size) == Placed(out + t.bytes, gap, t, size)
  {
    hide *;
    TookIs(r, out, gap, t);
    ArraySize();
    FreshOk(out, gap);
    var all := out + t.bytes;
    PlacedTooLong(all, gap, t, size);
    if t.quad && |out| + 4 > ADDRESS_BYTES {
      FinishKinds(r, size);
    } else {
      FinishAll(r, all, size);
      if |all| <= ADDRESS_BYTES { SettleIs(all, gap, t, size); }
    }
  }

  lemma PlacedTooLong(all: seq<byte>, gap: Option<nat>, t: Tail, size: nat)
    requires (t.width.Some? ==> t.width.value <= 128) && (gap.Some? ==> gap.value <= |all|)
    ensures |all| > ADDRESS_BYTES ==> Placed(all, gap, t, size) == NotAddress
  {
    hide ShiftFrom, Spread, ZeroBytes, PrefixEnd;
  }

  lemma TookIs(r: Scanned, out: seq<byte>, colon: Option<nat>, t: Tail)
    requires Took(r, out, colon, t)
    ensures if t.quad && |out| + 4 > ADDRESS_BYTES then r == BadText
            else
              && r.Scanned? && r.colon == colon && r.bits == t.width && r.ipv4 == t.quad
              && (if r.saw then r.out + Pair(r.val) else r.out) == out + t.bytes
  {
    hide Pair;
  }

  /** b is the text of these groups, and behind the last colon of this tail. */
  ghost predicate Reads(b: string, gs: seq<string>, f: string, t: Tail) {
    b == Colons(gs) + f && GroupsFit(gs, f, [], None) && TailText(f, t)
  }

  ghost predicate Readable(b: string) { exists gs, f, t :: Reads(b, gs, f, t) }

  lemma NoBytes(gs: seq<string>)
    requires HexGroups(gs)
    ensures [] + GroupBytes(gs) == GroupBytes(gs) && GapAfter(gs, [], None) == GapAt(gs)
  {
    hide HexGroups;
  }

  lemma ReadsParts(b: string, gs: seq<string>, f: string, t: Tail)
    requires Reads(b, gs, f, t)
    ensures b == Colons(gs) + f && GroupsFit(gs, f, [], None) && HexGroups(gs) && TailText(f, t)
    ensures (t.width.Some? ==> t.width.value <= 128) && (GapAt(gs).Some? ==> GapAt(gs).value <= |GroupBytes(gs) + t.bytes|)
  {
    TailSize(f, t);
    hide HexGroups, TailText, Colons;
  }

  /** A text that consists of groups and a tail is answered according to their bytes. */
  lemma Denoted(src: string, gs: seq<string>, f: string, t: Tail, size: nat)
    requires Body(src).Some? && Reads(Body(src).value, gs, f, t)
    ensures HexGroups(gs) && (t.width.Some? ==> t.width.value <= 128)
    ensures GapAt(gs).Some? ==> GapAt(gs).value <= |GroupBytes(gs) + t.bytes|
    ensures Pton6(src, size) == Placed(GroupBytes(gs) + t.bytes, GapAt(gs), t, size)
  {
    hide *;
    var b := Body(src).value;
    PtonIs(src, size);
    ReadsParts(b, gs, f, t);
    GroupsRead(gs, f, [], None);
    NoBytes(gs);
    var out := GroupBytes(gs);
    TailRead(f, out, GapAt(gs), t);
    TailSize(f, t);
    FinishTook(Scan(f, f, Fresh(out, GapAt(gs))), out, GapAt(gs), t, size);
  }

  /** Any other text is no address, unless it begins with nine groups. */
  lemma NotDenoted(src: string, size: nat)
    requires Body(src).None? || !Readable(Body(src).value)
    ensures Pton6(src, size) == NotAddress || Pton6(src, size) == NothingWritten
  {
    hide *;
    PtonIs(src, size);
    if Body(src).Some? {
      var b := Body(src).value;
      var r := Scan(b, b, Fresh([], None));
      FinishKinds(r, size);
      if r.Scanned? {
        var gs, f := GroupsMeant(b, [], None);
        GroupsRead(gs, f, [], None);
        var t := TailMeant(f, [] + GroupBytes(gs), GapAfter(gs, [], None));
        ReadsIs(b, gs, f, t);
      }
    }
  }

  lemma ReadsIs(b: string, gs: seq<string>, f: string, t: Tail)
    requires b == Colons(gs) + f && GroupsFit(gs, f, [], None) && TailText(f, t)
    ensures Readable(b)
  {
    hide Colons, GroupsFit, TailText;
    assert Reads(b, gs, f, t);
  }

  /** r is the answer to a text with this reading. */
  ghost predicate AnswerIs(b: string, gs: seq<string>, f: string, t: Tail, size: nat, r: Outcome) {
    && Reads(b, gs, f, t) && HexGroups(gs) && (t.width.Some? ==> t.width.value <= 128)
    && (GapAt(gs).Some? ==> GapAt(gs).value <= |GroupBytes(gs) + t.bytes|)
    && r == Placed(GroupBytes(gs) + t.bytes, GapAt(gs), t, size)
  }

  /** The answer to every text: what its bytes say when it reads as groups and a tail; 0 with nothing written
      when it begins with nine groups; and no address otherwise. */
  lemma PtonMeaning(src: string, size: nat)
    ensures var r := Pton6(src, size);
      if Body(src).Some? && Readable(Body(src).value) then
        && (exists gs, f, t :: AnswerIs(Body(src).value, gs, f, t, size, r))
        && (forall gs, f, t :: Reads(Body(src).value, gs, f, t) ==> AnswerIs(Body(src).value, gs, f, t, size, r))
      else if Body(src).Some? && exists gs, rest :: NineThenMore(Body(src).value, gs, rest) then r == NothingWritten
      else r == NotAddress
  {
    hide *;
    NothingWrittenIff(src, size);
    if Body(src).Some? && Readable(Body(src).value) {
      var gs0, f0, t0 := SomeReading(Body(src).value);
      forall gs, f, t | Reads(Body(src).value, gs, f, t)
        ensures AnswerIs(Body(src).value, gs, f, t, size, Pton6(src, size))
      {
        Denoted(src, gs, f, t, size);
        AnswerHolds(Body(src).value, gs, f, t, size, Pton6(src, size));
      }
    } else {
      NotDenoted(src, size);
    }
  }

  lemma AnswerHolds(b: string, gs: seq<string>, f: string, t: Tail, size: nat, r: Outcome)
    requires Reads(b, gs, f, t) && HexGroups(gs) && (t.width.Some? ==> t.width.value <= 128)
    requires GapAt(gs).Some? ==> GapAt(gs).value <= |GroupBytes(gs) + t.bytes|
    requires r == Placed(GroupBytes(gs) + t.bytes, GapAt(gs), t, size)
    ensures AnswerIs(b, gs, f, t, size, r)
  {
    hide Reads, HexGroups, GapAt, GroupBytes, Placed;
  }

  // ---------- the shift that leaves the array ----------

  /** After "::" there are more bytes than the prefix has, and all bytes together are not just its size. */
  ghost predicate Overrun(gs: seq<string>, t: Tail) {
    && HexGroups(gs) && (t.width.Some? ==> t.width.value <= 128)
    && var all := GroupBytes(gs) + t.bytes;
    && GapAt(gs).Some? && |all| <= ADDRESS_BYTES && |all| != PrefixEnd(t.width, t.quad)
    && |all| - GapAt(gs).value > PrefixEnd(t.width, t.quad)
  }

  lemma PlacedOverrun(gs: seq<string>, t: Tail, size: nat)
    requires HexGroups(gs) && (t.width.Some? ==> t.width.value <= 128)
    requires GapAt(gs).Some? ==> GapAt(gs).value <= |GroupBytes(gs) + t.bytes|
    ensures Placed(GroupBytes(gs) + t.bytes, GapAt(gs), t, size) == OutOfArray <==> Overrun(gs, t)
    ensures Overrun(gs, t) ==> t.width.Some? && !t.quad && PrefixEnd(t.width, t.quad) == 2 * Widest(2, (t.width.value + 15) / 16)
  {
    hide ShiftFrom, Spread, ZeroBytes, GroupBytes, GapAt, HexGroups;
  }

  /** The shift runs below the array exactly for a text of groups with "::" and a width, whose bytes after
      "::" are more than the width has room for, and whose bytes altogether are not exactly that many. */
  lemma OutOfArrayIff(src: string, size: nat)
    ensures Pton6(src, size) == OutOfArray <==>
      Body(src).Some? && exists gs, f, t :: Reads(Body(src).value, gs, f, t) && Overrun(gs, t)
  {
    hide *;
    if Body(src).None? || !Readable(Body(src).value) {
      NotDenoted(src, size);
      if Body(src).Some? { NotReadable(Body(src).value); }
    } else {
      var gs, f, t := SomeReading(Body(src).value);
      Denoted(src, gs, f, t, size);
      PlacedOverrun(gs, t, size);
      forall gs2, f2, t2 | Reads(Body(src).value, gs2, f2, t2) && Overrun(gs2, t2)
        ensures Pton6(src, size) == OutOfArray
      {
        Denoted(src, gs2, f2, t2, size);
        PlacedOverrun(gs2, t2, size);
      }
    }
  }

  lemma NotReadable(b: string)
    requires !Readable(b)
    ensures forall gs, f, t :: !Reads(b, gs, f, t)
  {
    hide Reads;
  }

  lemma SomeReading(b: string) returns (gs: seq<string>, f: string, t: Tail)
    requires Readable(b)
    ensures Reads(b, gs, f, t)
  {
    hide Reads;
    gs, f, t :| Reads(b, gs, f, t);
  }

  lemma WidthHasSlash(f: string, t: Tail)
    requires TailText(f, t) && t.width.Some?
    ensures '/' in f
  {
    hide HexGroup, Octet, Numeral, Dots, PlainTail;
    if exists h, w :: WidthTailIs(f, h, w, t) {
      var h, w :| WidthTailIs(f, h, w, t);
      assert f[|h|] == '/';
    } else if exists items, octets, w :: QuadTail(f, items, octets, w, t) {
      var items, octets, w :| QuadTail(f, items, octets, w, t);
      assert f[|Dots(items)|] == '/';
    } else {
      assert PlainTail(f, t);
      PlainHasNoWidth(f, t);
    }
  }

  lemma PlainHasNoWidth(f: string, t: Tail)
    ensures PlainTail(f, t) ==> t.width.None?
  {
    hide HexGroup;
  }

  /** A text without a slash never gets there. */
  lemma NoSlashStaysInside(src: string, size: nat)
    requires '/' !in src
    ensures Pton6(src, size) != OutOfArray
  {
    hide *;
    OutOfArrayIff(src, size);
    if Pton6(src, size) == OutOfArray {
      var b := Body(src).value;
      var gs, f, t :| Reads(b, gs, f, t) && Overrun(gs, t);
      Denoted(src, gs, f, t, size);
      PlacedOverrun(gs, t, size);
      ReadsParts(b, gs, f, t);
      WidthHasSlash(f, t);
      BodyInside(src);
    }
  }

  lemma BodyInside(src: string)
    ensures Body(src).Some? ==> forall c :: c in Body(src).value ==> c in src
  {
  }

  // ---------- both at given texts ----------

  lemma DigitGroup(g: string, v: nat)
    requires |g| == 1 && HexValue(g[0]) == Some(v)
    ensures HexGroup(g) && HexText(g) && HexNumber(g) == v && ':' !in g
  {
    assert HexNumber(g[..0]) == 0;
    ColonNoDigit();
  }

  /** A field put before others. */
  lemma FieldBefore(g: string, gs: seq<string>)
    requires HexGroup(g) && HexGroups(gs)
    ensures HexGroups([g] + gs) && Colons([g] + gs) == g + (":" + Colons(gs))
    ensures GroupCount([g] + gs) == (if g != "" then 1 else 0) + GroupCount(gs)
    ensures g == "" ==> GapAt([g] + gs) == Some(0)
  {
    assert ([g] + gs)[1..] == gs;
    hide HexGroup;
  }

  lemma GapGroups()
    ensures var gs := ["", "1", "2"];
      Colons(gs) == ":1:2:" && GroupsFit(gs, "3/16", [], None) && GroupCount(gs) == 2 && GapAt(gs) == Some(0)
  {
    DigitGroup("1", 1);
    DigitGroup("2", 2);
    assert HexGroup("");
    hide *;
    NoFields("");
    var none: seq<string> := [];
    FieldBefore("2", none);
    FieldBefore("1", ["2"] + none);
    FieldBefore("", ["1"] + (["2"] + none));
    assert [""] + (["1"] + (["2"] + none)) == ["", "1", "2"];
    assert Colons(none) == "" by { assert Colons(none) + "" == Colons(none); }
    FitsIs(["", "1", "2"], "3/16", [], None);
    ArraySize();
  }

  lemma ThreeOfSixteen()
    ensures HexText("3") && TailText("3/16", Tail(GroupPair("3"), Some(16), false))
  {
    DigitGroup("3", 3);
    NumeralDigit(1, 6);
    NumeralDigit(0, 1);
    assert Digit(1) == '1' && Digit(6) == '6';
    assert "3/16" == "3" + ("/" + Numeral(16, 10));
    assert WidthTailIs("3/16", "3", 16, Tail(GroupPair("3"), Some(16), false));
    hide WidthTailIs, PlainTail, QuadTail;
  }

  /** The width leaves four bytes, and three groups stand behind the "::". */
  lemma ShiftLeavesArray()
    ensures Pton6("::1:2:3/16", 16) == OutOfArray
  {
    hide *;
    var gs, src := ["", "1", "2"], "::1:2:3/16";
    ThreeOfSixteen();
    GapGroups();
    FitsParts(gs, "3/16", [], None);
    OverrunExample(gs, Tail(GroupPair("3"), Some(16), false));
    assert src[1..] == ":1:2:" + "3/16";
    BodyOf(src);
    ReadsAre(src[1..], gs, "3/16", Tail(GroupPair("3"), Some(16), false));
    OutOfArrayIff(src, 16);
  }

  lemma ReadsAre(b: string, gs: seq<string>, f: string, t: Tail)
    requires b == Colons(gs) + f && GroupsFit(gs, f, [], None) && TailText(f, t)
    ensures Reads(b, gs, f, t)
  {
    hide Colons, GroupsFit, TailText;
  }

  lemma OverrunExample(gs: seq<string>, t: Tail)
    requires HexGroups(gs) && GroupCount(gs) == 2 && GapAt(gs) == Some(0) && |t.bytes| == 2 && t.width == Some(16) && !t.quad
    ensures Overrun(gs, t)
  {
    hide HexGroups, GapAt, GroupBytes;
  }

  lemma BodyOf(src: string)
    ensures |src| > 1 && src[0] == ':' && src[1] == ':' ==> Body(src) == Some(src[1..])
    ensures |src| > 0 && src[0] != ':' ==> Body(src) == Some(src)
  {
  }
}
