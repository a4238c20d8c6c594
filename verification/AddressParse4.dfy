/** inet_net_pton_ipv4: dotted decimal, a hex string, a width after a slash or taken from the class. */
module AddressParse4 {
  import opened Seqs
  import opened Numerals
  import opened AddressText
  import opened AddressParse
  import opened AddressRoundTrip

  /** How many digits s begins with. */
  function Run10(s: string): (k: nat)
    ensures k <= |s|
    ensures forall i :: 0 <= i < k ==> DecValue(s[i]).Some?
    ensures k < |s| ==> DecValue(s[k]).None?
  {
    if s == [] || DecValue(s[0]).None? then 0 else 1 + Run10(s[1..])
  }

  function Run16(s: string): (k: nat)
    ensures k <= |s|
    ensures forall i :: 0 <= i < k ==> HexValue(s[i]).Some?
    ensures k < |s| ==> HexValue(s[k]).None?
  {
    if s == [] || HexValue(s[0]).None? then 0 else 1 + Run16(s[1..])
  }

  /** The number that a string of decimal digits denotes, leading zeros or not. */
  function NumberOf(s: string): nat
    requires forall i :: 0 <= i < |s| ==> DecValue(s[i]).Some?
  {
    if s == [] then 0 else NumberOf(s[..|s| - 1]) * 10 + DecValue(s[|s| - 1]).value
  }

  lemma {:induction false} NumberGrows(s: string, k: nat)
    requires k <= |s| && forall i :: 0 <= i < |s| ==> DecValue(s[i]).Some?
    ensures NumberOf(s[..k]) <= NumberOf(s)
  {
    if k == |s| {
      assert s[..k] == s;
    } else {
      NumberGrows(s[..|s| - 1], k);
      assert s[..|s| - 1][..k] == s[..k];
    }
  }

  lemma {:induction false} RunIs(s: string, k: nat)
    requires k <= |s| && (forall i :: 0 <= i < k ==> DecValue(s[i]).Some?) && (k < |s| ==> DecValue(s[k]).None?)
    ensures Run10(s) == k
  {
    if k > 0 { RunIs(s[1..], k - 1); }
  }

  lemma {:induction false} HexRunIs(s: string, k: nat)
    requires k <= |s| && (forall i :: 0 <= i < k ==> HexValue(s[i]).Some?) && (k < |s| ==> HexValue(s[k]).None?)
    ensures Run16(s) == k
  {
    if k > 0 { HexRunIs(s[1..], k - 1); }
  }

  /** Two nybbles a byte, a last odd one in the upper half. */
  function Nybbles(s: string): (r: seq<byte>)
    requires forall i :: 0 <= i < |s| ==> HexValue(s[i]).Some?
    ensures |r| == (|s| + 1) / 2
  {
    if s == [] then []
    else if |s| % 2 == 1 then Nybbles(s[..|s| - 1]) + [HexValue(s[|s| - 1]).value * 16]
    else Nybbles(s[..|s| - 2]) + [HexValue(s[|s| - 2]).value * 16 + HexValue(s[|s| - 1]).value]
  }

  /** What the address part leaves: the bytes written and the text behind it. */
  datatype Head = Head(out: seq<byte>, rest: string) | Bad(why: Outcome)

  function HexHead(s: string, size: nat): Head {
    var bytes := Nybbles(s[..Run16(s)]);
    if size == 0 || |bytes| > size then Bad(TooSmall) else Head(bytes, s[Run16(s)..])
  }

  function Octets(s: string, out: seq<byte>, size: nat): Head
    requires s != [] && DecValue(s[0]).Some?
    decreases |s|
  {
    var k := Run10(s);
    var v := NumberOf(s[..k]);
    var rest := s[k..];
    if v > 255 then Bad(NotAddress)
    else if |out| >= size then Bad(TooSmall)
    else if rest == [] || rest[0] == '/' then Head(out + [v], rest)
    else if rest[0] != '.' || |rest| == 1 || DecValue(rest[1]).None? then Bad(NotAddress)
    else Octets(rest[1..], out + [v], size)
  }

  /** The width that the class of the first byte implies. */
  function ClassBits(out: seq<byte>): nat
    requires out != []
  {
    var b := if out[0] >= 240 then 32 else if out[0] >= 224 then 8 else if out[0] >= 192 then 24
             else if out[0] >= 128 then 16 else 8;
    var w := Widest(b, 8 * |out|);
    if w == 8 && out[0] == 224 then 4 else w
  }

  /** Zero bytes are added up to the width. */
  function Extended(bits: nat, out: seq<byte>, size: nat): Outcome {
    var needed := (bits + 7) / 8;
    if needed <= |out| then Bits(bits, out)
    else if needed > size then TooSmall
    else Bits(bits, out + ZeroBytes(needed - |out|))
  }

  predicate HasWidth(out: seq<byte>, rest: string) {
    |rest| > 1 && rest[0] == '/' && DecValue(rest[1]).Some? && out != []
  }

  function Tail(out: seq<byte>, rest: string, size: nat): Outcome {
    if HasWidth(out, rest) then
      var k := Run10(rest[1..]);
      var v := NumberOf(rest[1..][..k]);
      if v > 32 || 1 + k != |rest| then NotAddress else Extended(v, out, size)
    else if rest != [] || out == [] then NotAddress
    else Extended(ClassBits(out), out, size)
  }

  predicate IsHex(s: string) {
    |s| > 2 && s[0] == '0' && (s[1] == 'x' || s[1] == 'X') && HexValue(s[2]).Some?
  }

  function Pton4(s: string, size: nat): Outcome {
    var h := if IsHex(s) then HexHead(s[2..], size)
             else if s != [] && DecValue(s[0]).Some? then Octets(s, [], size)
             else Bad(NotAddress);
    match h
    case Bad(why) => why
    case Head(out, rest) => Tail(out, rest, size)
  }

  // ---------- the parser ----------

  /** One run of decimal digits from at on; stops early above the limit. */
  method EatNumber(src: string, at: nat, limit: nat) returns (ok: bool, val: nat, next: nat)
    requires at < |src| && DecValue(src[at]).Some?
    ensures var s := src[at..];
      var v := NumberOf(s[..Run10(s)]);
      (ok <==> v <= limit) && (ok ==> val == v && next == at + Run10(s))
  {
    ghost var s := src[at..];
    val := 0;
    next := at;
    ok := true;
    var more := true;
    while more
      invariant at <= next <= |src| && (more ==> next < |src| && DecValue(src[next]).Some?)
      invariant forall i :: 0 <= i < next - at ==> DecValue(s[i]).Some?
      invariant val == NumberOf(s[..next - at]) && val <= limit
      invariant !more ==> next > at && (next < |src| ==> DecValue(src[next]).None?)
      decreases |src| - next, more
    {
      assert s[..next - at + 1][..next - at] == s[..next - at];
      val := val * 10 + DecValue(src[next]).value;
      next := next + 1;
      assert val == NumberOf(s[..next - at]);
      if val > limit {
        NumberAbove(s, next - at, limit);
        return false, val, next;
      }
      more := next < |src| && DecValue(src[next]).Some?;
    }
    RunIs(s, next - at);
  }

  lemma NumberAbove(s: string, k: nat, limit: nat)
    requires k <= |s| && (forall i :: 0 <= i < k ==> DecValue(s[i]).Some?)
    requires NumberOf(s[..k]) > limit
    ensures NumberOf(s[..Run10(s)]) > limit
  {
    RunAtLeast(s, k);
    NumberGrows(s[..Run10(s)], k);
    assert s[..Run10(s)][..k] == s[..k];
  }

  lemma {:induction false} RunAtLeast(s: string, k: nat)
    requires k <= |s| && forall i :: 0 <= i < k ==> DecValue(s[i]).Some?
    ensures Run10(s) >= k
  {
    if k > 0 { RunAtLeast(s[1..], k - 1); }
  }

  /** k hex digits of s have been read, the last of them waiting in tmp when dirty. */
  ghost predicate HexAt(s: string, k: nat, out: seq<byte>, dirty: bool, tmp: nat, size: nat) {
    && k <= |s| && |out| <= size && size > 0 && (forall i :: 0 <= i < k ==> HexValue(s[i]).Some?)
    && dirty == (k % 2 == 1) && (dirty ==> HexValue(s[k - 1]) == Some(tmp))
    && out == Nybbles(s[..if dirty then k - 1 else k])
  }

  lemma HexStart(s: string, size: nat)
    ensures size == 0 ==> HexHead(s, size) == Bad(TooSmall)
    ensures size > 0 ==> HexAt(s, 0, [], false, 0, size)
  {
    hide HexValue, Run16;
  }

  lemma HexTurn(s: string, k: nat, out: seq<byte>, dirty: bool, tmp: nat, size: nat)
    requires HexAt(s, k, out, dirty, tmp, size) && k < |s| && HexValue(s[k]).Some?
    ensures var n := HexValue(s[k]).value;
      if dirty then
        if |out| == size then HexHead(s, size) == Bad(TooSmall)
        else tmp * 16 + n < 256 && HexAt(s, k + 1, out + [tmp * 16 + n], false, tmp, size)
      else HexAt(s, k + 1, out, true, n, size)
  {
    if dirty {
      assert s[..k + 1][..k - 1] == s[..k - 1];
      if |out| == size { TooManyNybbles(s, k + 1, size); }
    }
    hide HexValue, Run16, HexHead;
  }

  lemma HexEnd(s: string, k: nat, out: seq<byte>, dirty: bool, tmp: nat, size: nat)
    requires HexAt(s, k, out, dirty, tmp, size) && (k < |s| ==> HexValue(s[k]).None?)
    ensures if dirty then
              if |out| == size then HexHead(s, size) == Bad(TooSmall)
              else tmp * 16 < 256 && HexHead(s, size) == Head(out + [tmp * 16], s[k..])
            else HexHead(s, size) == Head(out, s[k..])
  {
    HexRunIs(s, k);
    if dirty { assert s[..k][..k - 1] == s[..k - 1]; }
    hide HexValue, Run16;
  }

  /** The hex string behind "0x": a byte for every two digits. */
  method EatHex(src: string, at: nat, size: nat) returns (r: Head)
    requires at < |src| && HexValue(src[at]).Some?
    ensures r == HexHead(src[at..], size)
  {
    hide *;
    ghost var s := src[at..];
    HexStart(s, size);
    if size == 0 {
      return Bad(TooSmall);
    }
    var out: seq<byte> := [];
    var dirty, tmp: nat := false, 0;
    var next := at;
    while next < |src| && HexValue(src[next]).Some?
      invariant at <= next <= |src| && HexAt(s, next - at, out, dirty, tmp, size)
    {
      HexTurn(s, next - at, out, dirty, tmp, size);
      var n := HexValue(src[next]).value;
      next := next + 1;
      if dirty {
        if |out| == size {
          return Bad(TooSmall);
        }
        out := out + [tmp * 16 + n];
        dirty := false;
      } else {
        tmp := n;
        dirty := true;
      }
    }
    HexEnd(s, next - at, out, dirty, tmp, size);
    assert s[next - at..] == src[next..];
    if dirty {
      if |out| == size {
        return Bad(TooSmall);
      }
      out := out + [tmp * 16];
    }
    return Head(out, src[next..]);
  }

  lemma TooManyNybbles(s: string, k: nat, size: nat)
    requires k <= |s| && (forall i :: 0 <= i < k ==> HexValue(s[i]).Some?) && k / 2 > size
    ensures HexHead(s, size) == Bad(TooSmall)
  {
    HexRunAtLeast(s, k);
  }

  lemma {:induction false} HexRunAtLeast(s: string, k: nat)
    requires k <= |s| && forall i :: 0 <= i < k ==> HexValue(s[i]).Some?
    ensures Run16(s) >= k
  {
    if k > 0 { HexRunAtLeast(s[1..], k - 1); }
  }

  /** The octets before position at are in out. */
  ghost predicate OctetsAt(src: string, at: nat, out: seq<byte>, size: nat) {
    && at < |src| && DecValue(src[at]).Some? && DecValue(src[0]).Some?
    && Octets(src, [], size) == Octets(src[at..], out, size)
  }

  lemma OctetsStart(src: string, size: nat)
    requires src != [] && DecValue(src[0]).Some?
    ensures OctetsAt(src, 0, [], size)
  {
    assert src[0..] == src;
    hide DecValue, Octets;
  }

  lemma OctetsTurn(src: string, at: nat, out: seq<byte>, size: nat)
    requires OctetsAt(src, at, out, size)
    ensures at < |src| && DecValue(src[at]).Some? && DecValue(src[0]).Some?
    ensures var k := Run10(src[at..]);
      var v := NumberOf(src[at..][..k]);
      var next := at + k;
      var whole := Octets(src, [], size);
      if v > 255 then whole == Bad(NotAddress)
      else if |out| >= size then whole == Bad(TooSmall)
      else if next == |src| || src[next] == '/' then whole == Head(out + [v], src[next..])
      else if src[next] != '.' || next + 1 == |src| || DecValue(src[next + 1]).None? then whole == Bad(NotAddress)
      else OctetsAt(src, next + 1, out + [v], size)
  {
    OctetsIs(src[at..], out, size);
    hide DecValue, NumberOf, Run10, Octets;
    var k := Run10(src[at..]);
    assert src[at..][k..] == src[at + k..];
    if at + k < |src| { assert src[at + k..][1..] == src[at + k + 1..]; }
  }

  lemma OctetsIs(s: string, out: seq<byte>, size: nat)
    requires s != [] && DecValue(s[0]).Some?
    ensures var k := Run10(s);
      var v := NumberOf(s[..k]);
      var rest := s[k..];
      && (v > 255 ==> Octets(s, out, size) == Bad(NotAddress))
      && (v <= 255 && |out| >= size ==> Octets(s, out, size) == Bad(TooSmall))
      && (v <= 255 && |out| < size && (rest == [] || rest[0] == '/') ==> Octets(s, out, size) == Head(out + [v], rest))
      && (v <= 255 && |out| < size && rest != [] && rest[0] != '/' && (rest[0] != '.' || |rest| == 1 || DecValue(rest[1]).None?) ==>
            Octets(s, out, size) == Bad(NotAddress))
      && (v <= 255 && |out| < size && |rest| > 1 && rest[0] == '.' && DecValue(rest[1]).Some? ==>
            rest[1..] != [] && DecValue(rest[1..][0]).Some? && Octets(s, out, size) == Octets(rest[1..], out + [v], size))
  {
    hide DecValue, NumberOf, Run10;
  }

  /** The dotted decimal loop. */
  method EatOctets(src: string, size: nat) returns (r: Head)
    requires src != [] && DecValue(src[0]).Some?
    ensures r == Octets(src, [], size)
  {
    hide *;
    var out: seq<byte> := [];
    var at: nat := 0;
    OctetsStart(src, size);
    while true
      invariant OctetsAt(src, at, out, size)
      decreases |src| - at
    {
      OctetsTurn(src, at, out, size);
      var ok, val, next := EatNumber(src, at, 255);
      if !ok {
        return Bad(NotAddress);
      }
      if |out| >= size {
        return Bad(TooSmall);
      }
      out := out + [val];
      if next == |src| || src[next] == '/' {
        return Head(out, src[next..]);
      }
      if src[next] != '.' || next + 1 == |src| || DecValue(src[next + 1]).None? {
        return Bad(NotAddress);
      }
      at := next + 1;
    }
  }

  /** The width, given or implied, and the bytes it needs. */
  method EatWidth(out0: seq<byte>, rest: string, size: nat) returns (r: Outcome)
    ensures r == Tail(out0, rest, size)
  {
    var out := out0;
    var bits := 0;
    if HasWidth(out, rest) {
      var ok, val, next := EatNumber(rest, 1, 32);
      if !ok || next != |rest| {
        return NotAddress;
      }
      bits := val;
    } else if rest != [] || out == [] {
      return NotAddress;
    } else {
      bits := ClassBits(out);
    }
    while bits > 8 * |out|
      invariant |out0| <= |out| <= Widest(|out0|, (bits + 7) / 8) && (|out| > |out0| ==> |out| <= size)
      invariant out == out0 + ZeroBytes(|out| - |out0|)
    {
      if |out| >= size {
        return TooSmall;
      }
      out := out + [0];
    }
    return Bits(bits, out);
  }

  method InetNetPton4(src: string, size: nat) returns (r: Outcome)
    ensures r == Pton4(src, size)
  {
    var h: Head;
    if IsHex(src) {
      h := EatHex(src, 2, size);
    } else if src != [] && DecValue(src[0]).Some? {
      h := EatOctets(src, size);
    } else {
      return NotAddress;
    }
    if h.Bad? {
      return h.why;
    }
    r := EatWidth(h.out, h.rest, size);
  }

  // ---------- round trips ----------

  lemma {:induction false} NumeralRead(n: nat)
    ensures forall i :: 0 <= i < |Numeral(n, 10)| ==> DecValue(Numeral(n, 10)[i]).Some?
    ensures NumberOf(Numeral(n, 10)) == n
  {
    DigitValue(n % 10);
    if n >= 10 {
      NumeralRead(n / 10);
      var s := Numeral(n, 10);
      assert s[..|s| - 1] == Numeral(n / 10, 10);
    }
    hide Digit;
  }

  lemma NumeralRun(n: nat, rest: string)
    requires rest != [] ==> DecValue(rest[0]).None?
    ensures var s := Numeral(n, 10) + rest;
      var k := Run10(s);
      k == |Numeral(n, 10)| && s[..k] == Numeral(n, 10) && s[k..] == rest && NumberOf(s[..k]) == n && DecValue(s[0]).Some?
  {
    NumeralRead(n);
    RunIs(Numeral(n, 10) + rest, |Numeral(n, 10)|);
    hide Numeral, NumberOf, Run10;
  }

  lemma OctetRead(n: byte, t: string, out: seq<byte>, size: nat)
    requires |out| < size && t != [] && DecValue(t[0]).Some?
    ensures var s := Numeral(n, 10) + ("." + t);
      s != [] && DecValue(s[0]).Some? && Octets(s, out, size) == Octets(t, out + [n], size)
  {
    NumeralRun(n, "." + t);
    assert ("." + t)[1..] == t;
    hide Numeral, NumberOf, Run10;
  }

  lemma LastOctet(n: byte, rest: string, out: seq<byte>, size: nat)
    requires |out| < size && (rest != [] ==> rest[0] == '/')
    ensures var s := Numeral(n, 10) + rest;
      s != [] && DecValue(s[0]).Some? && Octets(s, out, size) == Head(out + [n], rest)
  {
    NumeralRun(n, rest);
    hide Numeral, NumberOf, Run10;
  }

  lemma NotHex(n: nat, t: string)
    ensures !IsHex(Numeral(n, 10) + ("." + t))
  {
    NumeralRead(n);
    var m := Numeral(n, 10);
    var s := m + ("." + t);
    if |m| > 1 { assert s[1] == m[1]; } else { assert s[1] == '.'; }
    hide Numeral, NumberOf;
  }

  lemma DottedParts(b: seq<byte>, rest: string)
    requires |b| == 4
    ensures Dotted(b) + rest ==
      Numeral(b[0], 10) + ("." + (Numeral(b[1], 10) + ("." + (Numeral(b[2], 10) + ("." + (Numeral(b[3], 10) + rest))))))
  {
    hide Numeral;
  }

  lemma DottedRead(b: seq<byte>, rest: string, size: nat)
    requires |b| == 4 && size >= 4 && (rest != [] ==> rest[0] == '/')
    ensures var s := Dotted(b) + rest;
      s != [] && DecValue(s[0]).Some? && !IsHex(s) && Octets(s, [], size) == Head(b, rest)
  {
    hide *;
    var s3 := Numeral(b[3], 10) + rest;
    var s2 := Numeral(b[2], 10) + ("." + s3);
    var s1 := Numeral(b[1], 10) + ("." + s2);
    DottedParts(b, rest);
    LastOctet(b[3], rest, [b[0], b[1], b[2]], size);
    OctetRead(b[2], s3, [b[0], b[1]], size);
    OctetRead(b[1], s2, [b[0]], size);
    OctetRead(b[0], s1, [], size);
    NotHex(b[0], s1);
    var none: seq<byte> := [];
    assert none + [b[0]] == [b[0]];
    assert [b[0]] + [b[1]] == [b[0], b[1]];
    assert [b[0], b[1]] + [b[2]] == [b[0], b[1], b[2]];
    assert [b[0], b[1], b[2]] + [b[3]] == b;
  }

  /** Whatever inet_ntop4 prints is read back as the same 4 bytes and 32 bits, for every class. */
  lemma RoundTrip4(b: seq<byte>, size: nat)
    requires |b| == 4 && size >= 4
    ensures Pton4(Dotted(b), size) == Bits(32, b)
  {
    hide *;
    DottedRead(b, "", size);
    assert Dotted(b) + "" == Dotted(b);
    PtonDotted(Dotted(b), b, "", size);
    PlainTail(b, size);
    ClassWidth(b);
    ExtendedIs(ClassBits(b), b, size);
  }

  /** With a width behind it, the same bytes and that width. */
  lemma RoundTripWidth4(b: seq<byte>, width: nat, size: nat)
    requires |b| == 4 && size >= 4 && width <= 32
    ensures Pton4(Dotted(b) + ("/" + Numeral(width, 10)), size) == Bits(width, b)
  {
    hide *;
    var rest := "/" + Numeral(width, 10);
    DottedRead(b, rest, size);
    PtonDotted(Dotted(b) + rest, b, rest, size);
    TailWidth(b, width, size);
  }

  lemma PtonDotted(s: string, b: seq<byte>, rest: string, size: nat)
    requires s != [] && DecValue(s[0]).Some? && !IsHex(s) && Octets(s, [], size) == Head(b, rest)
    ensures Pton4(s, size) == Tail(b, rest, size)
  {
    hide Octets, IsHex, Tail, DecValue;
  }

  lemma TailWidth(b: seq<byte>, width: nat, size: nat)
    requires |b| == 4 && width <= 32
    ensures Tail(b, "/" + Numeral(width, 10), size) == Bits(width, b)
  {
    var w := Numeral(width, 10);
    NumeralRun(width, []);
    assert w + [] == w && ("/" + w)[1..] == w;
    hide Numeral, NumberOf, Run10;
  }

  // ---------- texts without a width ----------

  /** The octets in decimal, with periods between them. */
  function OctetText(b: seq<byte>): (s: string)
    requires b != []
    ensures s != []
  {
    if |b| == 1 then Numeral(b[0], 10) else Numeral(b[0], 10) + ("." + OctetText(b[1..]))
  }

  lemma FirstOctetDigit(b: seq<byte>)
    requires b != []
    ensures DecValue(OctetText(b)[0]).Some? && !IsHex(OctetText(b))
  {
    NumeralRead(b[0]);
    if |b| > 1 { NotHex(b[0], OctetText(b[1..])); } else { NotHexAlone(b[0]); }
    hide Numeral, NumberOf;
  }

  lemma NotHexAlone(n: nat)
    ensures !IsHex(Numeral(n, 10))
  {
    NumeralRead(n);
    hide Numeral, NumberOf;
  }

  lemma OctetParts(b: seq<byte>)
    requires b != []
    ensures |b| == 1 ==> OctetText(b) == Numeral(b[0], 10) && b == [b[0]]
    ensures |b| > 1 ==> OctetText(b) == Numeral(b[0], 10) + ("." + OctetText(b[1..])) && b == [b[0]] + b[1..]
  {
    hide Numeral;
  }

  lemma {:induction false} OctetTextRead(b: seq<byte>, out: seq<byte>, size: nat)
    requires b != [] && |out| + |b| <= size
    ensures var s := OctetText(b); DecValue(s[0]).Some? && Octets(s, out, size) == Head(out + b, "")
    decreases |b|
  {
    hide *;
    OctetParts(b);
    if |b| == 1 {
      LastOctet(b[0], "", out, size);
      assert Numeral(b[0], 10) + "" == Numeral(b[0], 10);
    } else {
      OctetTextRead(b[1..], out + [b[0]], size);
      OctetRead(b[0], OctetText(b[1..]), out, size);
      assert (out + [b[0]]) + b[1..] == out + b;
    }
  }

  /** The bytes with zero bytes behind them up to this width, if there is room for that many. */
  function Padded(b: seq<byte>, width: nat, size: nat): Outcome {
    if width <= 8 * |b| then Bits(width, b)
    else if (width + 7) / 8 > size then TooSmall
    else Bits(width, b + ZeroBytes((width + 7) / 8 - |b|))
  }

  /** Octets without a width get that of their class: 8 bits for a first octet below 128 and for multicast, 16
      below 192, 24 below 224, all 32 from 240 on; more when more octets are given; and 4 for 224 alone. */
  lemma ImpliedWidth(b: seq<byte>, size: nat)
    requires 1 <= |b| <= size
    ensures var r := Pton4(OctetText(b), size);
      && (b[0] < 128 ==> r == Bits(8 * |b|, b))
      && (128 <= b[0] < 192 ==> r == if |b| < 2 then Padded(b, 16, size) else Bits(8 * |b|, b))
      && (192 <= b[0] < 224 ==> r == if |b| < 3 then Padded(b, 24, size) else Bits(8 * |b|, b))
      && (224 <= b[0] < 240 ==> r == if b == [224] then Bits(4, b) else Bits(8 * |b|, b))
      && (240 <= b[0] ==> r == if |b| < 4 then Padded(b, 32, size) else Bits(8 * |b|, b))
  {
    hide *;
    PlainText(b, size);
    PlainTail(b, size);
    ClassWidth(b);
    ExtendedIs(ClassBits(b), b, size);
  }

  lemma PlainText(b: seq<byte>, size: nat)
    requires 1 <= |b| <= size
    ensures Pton4(OctetText(b), size) == Tail(b, "", size)
  {
    hide *;
    OctetTextRead(b, [], size);
    FirstOctetDigit(b);
    assert [] + b == b;
    PtonDotted(OctetText(b), b, "", size);
  }

  lemma PlainTail(b: seq<byte>, size: nat)
    requires b != []
    ensures Tail(b, "", size) == Extended(ClassBits(b), b, size)
  {
    hide Extended, ClassBits;
  }

  lemma ClassWidth(b: seq<byte>)
    requires b != []
    ensures b[0] < 128 ==> ClassBits(b) == 8 * |b|
    ensures 128 <= b[0] < 192 ==> ClassBits(b) == if |b| < 2 then 16 else 8 * |b|
    ensures 192 <= b[0] < 224 ==> ClassBits(b) == if |b| < 3 then 24 else 8 * |b|
    ensures 224 <= b[0] < 240 ==> ClassBits(b) == if b == [224] then 4 else 8 * |b|
    ensures 240 <= b[0] ==> ClassBits(b) == if |b| < 4 then 32 else 8 * |b|
  {
    assert |b| == 1 && b[0] == 224 ==> b == [224];
  }

  lemma ExtendedIs(bits: nat, b: seq<byte>, size: nat)
    requires |b| <= size
    ensures Extended(bits, b, size) == Padded(b, bits, size)
    ensures bits <= 8 * |b| ==> Extended(bits, b, size) == Bits(bits, b)
  {
  }

  /** Two hexadecimal digits for each byte. */
  function Pairs(b: seq<byte>): (s: string)
    ensures |s| == 2 * |b|
  {
    if b == [] then [] else Pairs(b[..|b| - 1]) + [Digit(b[|b| - 1] / 16), Digit(b[|b| - 1] % 16)]
  }

  lemma PairRead(p: string, n: byte)
    requires |p| % 2 == 0 && forall i :: 0 <= i < |p| ==> HexValue(p[i]).Some?
    ensures var s := p + [Digit(n / 16), Digit(n % 16)];
      (forall i :: 0 <= i < |s| ==> HexValue(s[i]).Some?) && Nybbles(s) == Nybbles(p) + [n]
  {
    hide *;
    DigitValue(n / 16);
    DigitValue(n % 16);
    assert n / 16 * 16 + n % 16 == n;
    PairAppended(p, Digit(n / 16), Digit(n % 16));
  }

  lemma PairAppended(p: string, a: char, b: char)
    requires |p| % 2 == 0 && forall i :: 0 <= i < |p| ==> HexValue(p[i]).Some?
    requires HexValue(a).Some? && HexValue(b).Some?
    ensures var s := p + [a, b];
      && (forall i :: 0 <= i < |s| ==> HexValue(s[i]).Some?)
      && Nybbles(s) == Nybbles(p) + [HexValue(a).value * 16 + HexValue(b).value]
  {
    hide HexValue;
    var s := p + [a, b];
    assert s[..|s| - 2] == p && s[|s| - 2] == a && s[|s| - 1] == b;
    assert |s| == |p| + 2;
  }

  lemma {:induction false} PairsRead(b: seq<byte>)
    ensures forall i :: 0 <= i < |Pairs(b)| ==> HexValue(Pairs(b)[i]).Some?
    ensures Nybbles(Pairs(b)) == b
  {
    hide Digit, HexValue;
    if b == [] {
      assert Nybbles([]) == [];
    } else {
      var front, last := b[..|b| - 1], b[|b| - 1];
      PairsRead(front);
      PairRead(Pairs(front), last);
      assert b == front + [last];
    }
  }

  /** "0x" and the bytes in hexadecimal mean what the octets in decimal mean. */
  lemma HexAsDecimal(b: seq<byte>, size: nat)
    requires 1 <= |b| <= size
    ensures Pton4("0x" + Pairs(b), size) == Pton4(OctetText(b), size)
  {
    hide *;
    PlainText(b, size);
    PairsHead(b, size);
    PtonHex(Pairs(b), b, size);
  }

  lemma PairsHead(b: seq<byte>, size: nat)
    requires 1 <= |b| <= size
    ensures Pairs(b) != [] && HexValue(Pairs(b)[0]).Some? && HexHead(Pairs(b), size) == Head(b, "")
  {
    hide *;
    var p := Pairs(b);
    PairsRead(b);
    HexRunIs(p, |p|);
    assert p[..|p|] == p && p[|p|..] == [];
    HexHeadIs(p, size);
  }

  lemma HexHeadIs(s: string, size: nat)
    requires size > 0 && Run16(s) == |s| && |Nybbles(s[..|s|])| <= size
    ensures HexHead(s, size) == Head(Nybbles(s[..|s|]), s[|s|..])
  {
    hide Nybbles, Run16, HexValue;
  }

  lemma PtonHex(p: string, b: seq<byte>, size: nat)
    requires p != [] && HexValue(p[0]).Some? && HexHead(p, size) == Head(b, "")
    ensures Pton4("0x" + p, size) == Tail(b, "", size)
  {
    var s := "0x" + p;
    assert s[0] == '0' && s[1] == 'x' && s[2] == p[0] && s[2..] == p;
    hide HexValue, HexHead, Octets, Tail, DecValue;
  }

  /** A last digit by itself is the upper half of a byte. */
  lemma OddHex(b: seq<byte>, d: nat, size: nat)
    requires d < 16 && |b| + 1 <= size
    ensures Pton4("0x" + (Pairs(b) + [Digit(d)]), size) == Pton4(OctetText(b + [16 * d]), size)
  {
    hide *;
    var more: seq<byte> := b + [16 * d];
    PlainText(more, size);
    OddHead(b, d, size);
    PtonHex(Pairs(b) + [Digit(d)], more, size);
  }

  lemma OddHead(b: seq<byte>, d: nat, size: nat)
    requires d < 16 && |b| + 1 <= size
    ensures var p := Pairs(b) + [Digit(d)]; HexValue(p[0]).Some? && HexHead(p, size) == Head(b + [16 * d], "")
  {
    hide *;
    var p := Pairs(b) + [Digit(d)];
    OddRead(b, d);
    HexRunIs(p, |p|);
    assert p[..|p|] == p && p[|p|..] == [];
    HexHeadIs(p, size);
  }

  lemma OddRead(b: seq<byte>, d: nat)
    requires d < 16
    ensures var p := Pairs(b) + [Digit(d)];
      (forall i :: 0 <= i < |p| ==> HexValue(p[i]).Some?) && Nybbles(p) == b + [16 * d]
  {
    hide Digit, HexValue;
    PairsRead(b);
    DigitValue(d);
    var p := Pairs(b) + [Digit(d)];
    assert p[..|p| - 1] == Pairs(b) && |p| % 2 == 1;
  }
}
