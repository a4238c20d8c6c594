/** The IPv6 parser of inet_net_pton.c in place: loops over the text, and writes into the 16-byte array. */
module AddressParser {
  import opened Seqs
  import opened Numerals
  import opened AddressText
  import opened AddressParse
  import opened AddressGrammar

  // ---------- getbits ----------

  lemma WidthTexts(s: string)
    ensures forall v: nat :: BitsFrom(s, 0, 0) == Some(v) <==> v <= 128 && s == Numeral(v, 10)
  {
    hide *;
    forall v: nat ensures BitsFrom(s, 0, 0) == Some(v) <==> v <= 128 && s == Numeral(v, 10) { WidthText(s, v); }
  }

  /** The number that the text is the numeral of, if it is one of 0 to 128. */
  method GetBits(src: string) returns (r: Option<nat>)
    ensures r == BitsFrom(src, 0, 0)
    ensures forall v: nat :: r == Some(v) <==> v <= 128 && src == Numeral(v, 10)
  {
    hide Numeral;
    WidthTexts(src);
    var val, n, i := 0, 0, 0;
    while i < |src|
      invariant 0 <= i <= |src| && val <= 128
      invariant BitsFrom(src, 0, 0) == BitsFrom(src[i..], val, n)
    {
      var d := DecValue(src[i]);
      assert src[i..][1..] == src[i + 1..];
      if d.None? {
        return None;
      }
      if n != 0 && val == 0 {
        return None;
      }
      n := n + 1;
      val := val * 10 + d.value;
      if val > 128 {
        return None;
      }
      i := i + 1;
    }
    if n == 0 {
      return None;
    }
    return Some(val);
  }

  // ---------- getv4 ----------

  ghost predicate V4At(src: string, was: seq<byte>, buf: seq<byte>, tp: nat, dst: nat, i: nat, val: nat, n: nat) {
    && tp <= dst <= tp + 4 <= |was| && |buf| == |was| && i <= |src| && val < 256
    && buf[..tp] == was[..tp] && buf[dst..] == was[dst..]
    && V4From(src, [], 0, 0) == V4From(src[i..], buf[tp..dst], val, n)
  }

  lemma V4Start(src: string, was: seq<byte>, tp: nat)
    requires tp + 4 <= |was|
    ensures V4At(src, was, was, tp, tp, 0, 0, 0)
  {
    assert was[tp..tp] == [] && src[0..] == src;
    hide V4From;
  }

  lemma Pushed(was: seq<byte>, buf: seq<byte>, tp: nat, dst: nat, val: byte)
    requires tp <= dst < |was| == |buf| && buf[..tp] == was[..tp] && buf[dst..] == was[dst..]
    ensures var b := buf[dst := val];
      b[tp..dst + 1] == buf[tp..dst] + [val] && b[..tp] == was[..tp] && b[dst + 1..] == was[dst + 1..]
      && b == was[..tp] + b[tp..dst + 1] + was[dst + 1..]
  {
    assert forall k :: dst < k < |buf| ==> buf[k] == buf[dst..][k - dst] && was[k] == was[dst..][k - dst];
    assert forall k :: 0 <= k < tp ==> buf[k] == buf[..tp][k] && was[k] == was[..tp][k];
  }

  lemma V4Turn(src: string, was: seq<byte>, buf: seq<byte>, tp: nat, dst: nat, i: nat, val: nat, n: nat)
    requires V4At(src, was, buf, tp, dst, i, val, n) && i < |src|
    ensures var whole := V4From(src, [], 0, 0);
      var d := DecValue(src[i]);
      if d.Some? then
        if n != 0 && val == 0 then whole == None
        else if val * 10 + d.value > 255 then whole == None
        else V4At(src, was, buf, tp, dst, i + 1, val * 10 + d.value, n + 1)
      else if src[i] != '.' && src[i] != '/' then whole == None
      else if dst - tp > 3 then whole == None
      else
        && dst < |buf| && val < 256
        && if src[i] == '/' then
             var b := BitsFrom(src[i + 1..], 0, 0);
             if b.None? then whole == None
             else V4Done(was, buf[dst := val], tp, dst + 1) && whole == Some(Quad(buf[dst := val][tp..dst + 1], b))
           else V4At(src, was, buf[dst := val], tp, dst + 1, i + 1, 0, 0)
  {
    assert src[i..][0] == src[i] && src[i..][1..] == src[i + 1..];
    if dst < tp + 4 { Pushed(was, buf, tp, dst, val); }
    hide BitsFrom, DecValue;
  }

  ghost predicate V4Done(was: seq<byte>, buf: seq<byte>, tp: nat, dst: nat) {
    && tp <= dst <= |was| == |buf| && buf == was[..tp] + buf[tp..dst] + was[dst..]
  }

  lemma V4End(src: string, was: seq<byte>, buf: seq<byte>, tp: nat, dst: nat, i: nat, val: nat, n: nat)
    requires V4At(src, was, buf, tp, dst, i, val, n) && i >= |src|
    ensures val < 256
    ensures if n == 0 || dst - tp > 3 then V4From(src, [], 0, 0) == None
            else dst < |buf| && V4Done(was, buf[dst := val], tp, dst + 1)
                 && V4From(src, [], 0, 0) == Some(Quad(buf[dst := val][tp..dst + 1], None))
  {
    if dst < tp + 4 { Pushed(was, buf, tp, dst, val); }
  }

  /** s is the text of these octets, up to four, with this width. */
  ghost predicate QuadOf(s: string, octets: seq<byte>, width: Option<nat>) {
    |octets| <= 4 && exists items :: QuadText(s, items, octets, width)
  }

  ghost predicate NoQuad(s: string) { forall octets, width :: !QuadOf(s, octets, width) }

  lemma QuadTexts(s: string)
    ensures var q := V4From(s, [], 0, 0);
      && (q.Some? ==> QuadOf(s, q.value.octets, q.value.bits))
      && (q.None? ==> NoQuad(s))
  {
    hide *;
    var q := V4From(s, [], 0, 0);
    if q.Some? {
      QuadOfIs(s, q.value.octets, q.value.bits);
      QuadIs(q.value);
    } else {
      forall octets, w ensures !QuadOf(s, octets, w) { QuadOfIs(s, octets, w); }
      NoQuadIs(s);
    }
  }

  lemma NoQuadIs(s: string)
    ensures NoQuad(s) <==> forall octets, width :: !QuadOf(s, octets, width)
  {
    hide QuadOf;
  }

  lemma QuadOfIs(s: string, octets: seq<byte>, w: Option<nat>)
    ensures QuadOf(s, octets, w) <==> V4From(s, [], 0, 0) == Some(Quad(octets, w))
  {
    QuadMeaning(s, octets, w);
    hide QuadText, V4From;
  }

  lemma QuadIs(q: Quad)
    ensures q == Quad(q.octets, q.bits)
  {
  }

  /** Writes the octets of the text from tmp[tp] on, unless the text is not that of up to four octets. */
  method GetV4(src: string, tmp: array<byte>, tp: nat) returns (ok: bool, bits: Option<nat>)
    requires tp + 4 <= tmp.Length
    modifies tmp
    ensures ok <==> V4From(src, [], 0, 0).Some?
    ensures ok ==>
      var q := V4From(src, [], 0, 0).value;
      && bits == q.bits && tp + |q.octets| <= tmp.Length
      && tmp[..] == old(tmp[..])[..tp] + q.octets + old(tmp[..])[tp + |q.octets|..]
    ensures ok ==> QuadOf(src, V4From(src, [], 0, 0).value.octets, bits)
    ensures !ok ==> NoQuad(src)
  {
    hide *;
    QuadTexts(src);
    ghost var was := tmp[..];
    var dst: nat := tp;
    var val: nat := 0;
    var n: nat := 0;
    var i: nat := 0;
    bits := None;
    V4Start(src, was, tp);
    while i < |src|
      invariant V4At(src, was, tmp[..], tp, dst, i, val, n)
      decreases |src| - i
    {
      V4Turn(src, was, tmp[..], tp, dst, i, val, n);
      var ch := src[i];
      var d := DecValue(ch);
      if d.Some? {
        if n != 0 && val == 0 {
          return false, None;
        }
        n := n + 1;
        val := val * 10 + d.value;
        if val > 255 {
          return false, None;
        }
      } else if ch == '.' || ch == '/' {
        if dst - tp > 3 {
          return false, None;
        }
        ghost var before: seq<byte> := tmp[..];
        tmp[dst] := val;
        assert tmp[..] == before[dst := tmp[dst]];
        dst := dst + 1;
        if ch == '/' {
          bits := GetBits(src[i + 1..]);
          V4Shape(was, tmp[..], tp, dst);
          return bits.Some?, bits;
        }
        val := 0;
        n := 0;
      } else {
        return false, None;
      }
      i := i + 1;
    }
    V4End(src, was, tmp[..], tp, dst, i, val, n);
    if n == 0 || dst - tp > 3 {
      return false, None;
    }
    ghost var before := tmp[..];
    tmp[dst] := val;
    assert tmp[..] == before[dst := tmp[dst]];
    V4Shape(was, tmp[..], tp, dst + 1);
    return true, None;
  }

  lemma V4Shape(was: seq<byte>, buf: seq<byte>, tp: nat, dst: nat)
    ensures V4Done(was, buf, tp, dst) ==> tp <= dst <= |was| == |buf| && tp + |buf[tp..dst]| == dst
    ensures V4Done(was, buf, tp, dst) ==> buf == was[..tp] + buf[tp..dst] + was[dst..]
  {
  }

  // ---------- the scan ----------

  /** The scan from position start has reached position i, with tp bytes written into the array. */
  ghost predicate ScanAt(src: string, start: nat, buf: seq<byte>, tp: nat, i: nat, tok: nat,
                         colon: Option<nat>, saw: bool, val: nat, digits: nat)
  {
    && start <= |src| && tok <= |src| && i <= |src| && |buf| == ADDRESS_BYTES && tp <= ADDRESS_BYTES
    && buf == buf[..tp] + ZeroBytes(ADDRESS_BYTES - tp)
    && ScannerOk(Scanner(buf[..tp], colon, saw, val, digits))
    && Scan(src[start..], src[start..], Scanner([], None, false, 0, 0)) ==
         Scan(src[i..], src[tok..], Scanner(buf[..tp], colon, saw, val, digits))
  }

  lemma ScanStart(src: string, start: nat, buf: seq<byte>)
    requires start <= |src| && buf == ZeroBytes(ADDRESS_BYTES)
    ensures ScanAt(src, start, buf, 0, start, start, None, false, 0, 0)
  {
    hide Scan;
    assert buf[..0] == [];
    assert buf == buf[..0] + ZeroBytes(ADDRESS_BYTES - 0);
  }

  function WritePair(buf: seq<byte>, tp: nat, val: nat): seq<byte>
    requires tp + 2 <= |buf|
  {
    buf[tp := val / 256 % 256][tp + 1 := val % 256]
  }

  lemma PairWritten(buf: seq<byte>, tp: nat, val: nat)
    requires |buf| == ADDRESS_BYTES && tp + 2 <= ADDRESS_BYTES && buf == buf[..tp] + ZeroBytes(ADDRESS_BYTES - tp)
    ensures var b := WritePair(buf, tp, val);
      b[..tp + 2] == buf[..tp] + Pair(val) && b == b[..tp + 2] + ZeroBytes(ADDRESS_BYTES - (tp + 2))
  {
    assert forall k :: tp <= k < ADDRESS_BYTES ==> buf[k] == ZeroBytes(ADDRESS_BYTES - tp)[k - tp];
  }

  /** Which way the loop goes at position i. */
  lemma ScanTurn(src: string, start: nat, buf: seq<byte>, tp: nat, i: nat, tok: nat,
                 colon: Option<nat>, saw: bool, val: nat, digits: nat)
    requires ScanAt(src, start, buf, tp, i, tok, colon, saw, val, digits) && i < |src|
    ensures tok <= |src| && tp <= |buf| == ADDRESS_BYTES
    ensures var whole := Scan(src[start..], src[start..], Scanner([], None, false, 0, 0));
      var d := HexValue(src[i]);
      if d.Some? then
        if digits + 1 > 4 then whole == BadText
        else ScanAt(src, start, buf, tp, i + 1, tok, colon, true, val * 16 + d.value, digits + 1)
      else if src[i] == ':' then
        if !saw then
          if colon.Some? then whole == BadText
          else ScanAt(src, start, buf, tp, i + 1, i + 1, Some(tp), saw, val, digits)
        else if i + 1 == |src| then whole == BadText
        else if tp + 2 > ADDRESS_BYTES then whole == NinthGroup
        else ScanAt(src, start, WritePair(buf, tp, val), tp + 2, i + 1, i + 1, colon, false, 0, 0)
      else if src[i] == '.' && tp + 4 <= ADDRESS_BYTES && V4From(src[tok..], [], 0, 0).Some? then
        var q := V4From(src[tok..], [], 0, 0).value;
        whole == Scanned(buf[..tp] + q.octets + ZeroBytes(4 - |q.octets|), colon, false, val, q.bits, true)
      else if src[i] == '/' && BitsFrom(src[i + 1..], 0, 0).Some? then
        whole == Scanned(buf[..tp], colon, saw, val, BitsFrom(src[i + 1..], 0, 0), false)
      else whole == BadText
  {
    assert src[i..][0] == src[i] && src[i..][1..] == src[i + 1..];
    if saw && tp + 2 <= ADDRESS_BYTES { PairWritten(buf, tp, val); }
    hide V4From, BitsFrom, HexValue, WritePair, Pair, ZeroBytes;
  }

  // ---------- the parser itself ----------

  ghost predicate Filled(buf: seq<byte>, out: seq<byte>) {
    |out| <= |buf| == ADDRESS_BYTES && buf == out + ZeroBytes(ADDRESS_BYTES - |out|)
  }

  lemma FilledTo(src: string, start: nat, buf: seq<byte>, tp: nat, i: nat, tok: nat,
                 colon: Option<nat>, saw: bool, val: nat, digits: nat)
    requires ScanAt(src, start, buf, tp, i, tok, colon, saw, val, digits)
    ensures tp <= |buf| && Filled(buf, buf[..tp]) && start <= |src| && |buf| == ADDRESS_BYTES
    ensures i >= |src| ==>
      Scan(src[start..], src[start..], Scanner([], None, false, 0, 0)) == Scanned(buf[..tp], colon, saw, val, None, false)
  {
    hide ZeroBytes;
  }

  lemma QuadFilled(was: seq<byte>, buf: seq<byte>, tp: nat, octets: seq<byte>)
    requires tp + 4 <= ADDRESS_BYTES == |was| && Filled(was, was[..tp]) && |octets| <= 4
    requires buf == was[..tp] + octets + was[tp + |octets|..]
    ensures |buf| == ADDRESS_BYTES && buf[..tp + 4] == was[..tp] + octets + ZeroBytes(4 - |octets|) && Filled(buf, buf[..tp + 4])
  {
    var z := ZeroBytes(ADDRESS_BYTES - tp);
    assert forall k :: tp <= k < ADDRESS_BYTES ==> was[k] == z[k - tp];
  }

  /** The loop over the characters. */
  method ScanText(src: string, start: nat, tmp: array<byte>) returns (r: Scanned)
    requires start <= |src| && tmp[..] == ZeroBytes(ADDRESS_BYTES)
    modifies tmp
    ensures r == Scan(src[start..], src[start..], Scanner([], None, false, 0, 0))
    ensures r.Scanned? ==> Filled(tmp[..], r.out)
  {
    hide *;
    var i: nat, tok: nat, tp: nat, saw, val: nat, digits: nat := start, start, 0, false, 0, 0;
    var colon: Option<nat> := None;
    ScanStart(src, start, tmp[..]);
    while i < |src|
      invariant ScanAt(src, start, tmp[..], tp, i, tok, colon, saw, val, digits)
      decreases |src| - i
    {
      ScanTurn(src, start, tmp[..], tp, i, tok, colon, saw, val, digits);
      FilledTo(src, start, tmp[..], tp, i, tok, colon, saw, val, digits);
      var d := HexValue(src[i]);
      if d.Some? {
        val := val * 16 + d.value;
        digits := digits + 1;
        if digits > 4 {
          return BadText;
        }
        saw := true;
      } else if src[i] == ':' {
        tok := i + 1;
        if !saw {
          if colon.Some? {
            return BadText;
          }
          colon := Some(tp);
        } else if i + 1 == |src| {
          return BadText;
        } else {
          if tp + 2 > ADDRESS_BYTES {
            return NinthGroup;
          }
          StorePair(tmp, tp, val);
          tp := tp + 2;
          saw, digits, val := false, 0, 0;
        }
      } else {
        ghost var was := tmp[..];
        if src[i] == '.' && tp + 4 <= ADDRESS_BYTES {
          var ok, bits := GetV4(src[tok..], tmp, tp);
          if ok {
            QuadFilled(was, tmp[..], tp, V4From(src[tok..], [], 0, 0).value.octets);
            return Scanned(tmp[..tp + 4], colon, false, val, bits, true);
          }
        }
        if src[i] == '/' {
          var bits := GetBits(src[i + 1..]);
          if bits.Some? {
            return Scanned(tmp[..tp], colon, saw, val, bits, false);
          }
        }
        return BadText;
      }
      i := i + 1;
    }
    FilledTo(src, start, tmp[..], tp, i, tok, colon, saw, val, digits);
    return Scanned(tmp[..tp], colon, saw, val, None, false);
  }

  method StorePair(tmp: array<byte>, tp: nat, val: nat)
    requires tp + 2 <= tmp.Length
    modifies tmp
    ensures tmp[..] == WritePair(old(tmp[..]), tp, val)
  {
    tmp[tp] := val / 256 % 256;
    tmp[tp + 1] := val % 256;
  }

  /** The shift by hand. */
  method ShiftUp(tmp: array<byte>, colon: nat, tp: nat, end: nat)
    requires colon <= tp <= tmp.Length && tp - colon <= end <= tmp.Length
    modifies tmp
    ensures tmp[..] == ShiftFrom(old(tmp[..]), colon, tp - colon, end, 1)
  {
    var n := tp - colon;
    var i := 1;
    while i <= n
      invariant 1 <= i <= n + 1
      invariant ShiftFrom(old(tmp[..]), colon, n, end, 1) == ShiftFrom(tmp[..], colon, n, end, i)
    {
      ghost var was := tmp[..];
      tmp[end - i] := tmp[colon + n - i];
      tmp[colon + n - i] := 0;
      assert tmp[..] == was[end - i := was[colon + n - i]][colon + n - i := 0];
      i := i + 1;
    }
  }

  lemma FinishParts(e: Scanned, size: nat)
    requires ScannedOk(e)
    ensures e.BadText? ==> Finish(e, size) == NotAddress
    ensures e.NinthGroup? ==> Finish(e, size) == NothingWritten
    ensures e.Scanned? && e.saw && |e.out| + 2 > ADDRESS_BYTES ==> Finish(e, size) == NotAddress
    ensures e.Scanned? ==> |e.out| <= ADDRESS_BYTES && (e.bits.Some? ==> e.bits.value <= 128)
    ensures e.Scanned? && !(e.saw && |e.out| + 2 > ADDRESS_BYTES) ==>
      var out := if e.saw then e.out + Pair(e.val) else e.out;
      (e.colon.Some? ==> e.colon.value <= |out|) && Finish(e, size) == Settle(out, e.colon, e.bits, e.ipv4, size)
  {
    hide Settle, Pair;
  }

  lemma SettleArray(out: seq<byte>, buf: seq<byte>, colon: Option<nat>, width: Option<nat>, ipv4: bool, size: nat)
    requires Filled(buf, out) && (colon.Some? ==> colon.value <= |out|) && (width.Some? ==> width.value <= 128)
    ensures var bits := if width.Some? then width.value else 128;
      var end := 2 * if ipv4 then 8 else Widest(2, (bits + 15) / 16);
      var bytes := (bits + 7) / 8;
      && |out| <= ADDRESS_BYTES == |buf| && end <= ADDRESS_BYTES && bytes <= ADDRESS_BYTES
      && Settle(out, colon, width, ipv4, size) ==
           if colon.Some? && |out| == end then NotAddress
           else if colon.Some? && |out| - colon.value > end then OutOfArray
           else if colon.None? && |out| != end then NotAddress
           else if bytes > size then TooSmall
           else Bits(bits, (if colon.Some? then ShiftFrom(buf, colon.value, |out| - colon.value, end, 1) else buf)[..bytes])
  {
    hide *;
    FilledSize(buf, out);
    SettleIs(out, colon, width, ipv4, size);
    EndIs(width, ipv4);
  }

  lemma SettleIs(out: seq<byte>, colon: Option<nat>, width: Option<nat>, ipv4: bool, size: nat)
    requires |out| <= ADDRESS_BYTES && (colon.Some? ==> colon.value <= |out|) && (width.Some? ==> width.value <= 128)
    ensures var bits := if width.Some? then width.value else 128;
      var end := PrefixEnd(width, ipv4);
      var bytes := (bits + 7) / 8;
      var tmp := out + ZeroBytes(ADDRESS_BYTES - |out|);
      && bytes <= ADDRESS_BYTES
      && Settle(out, colon, width, ipv4, size) ==
           if colon.Some? && |out| == end then NotAddress
           else if colon.Some? && |out| - colon.value > end then OutOfArray
           else if colon.None? && |out| != end then NotAddress
           else if bytes > size then TooSmall
           else Bits(bits, (if colon.Some? then ShiftFrom(tmp, colon.value, |out| - colon.value, end, 1) else tmp)[..bytes])
  {
    hide ShiftFrom, ZeroBytes, PrefixEnd;
  }

  lemma EndIs(width: Option<nat>, ipv4: bool)
    requires width.Some? ==> width.value <= 128
    ensures ADDRESS_BYTES == 16
    ensures PrefixEnd(width, ipv4) == 2 * if ipv4 then 8 else Widest(2, ((if width.Some? then width.value else 128) + 15) / 16)
    ensures ((if width.Some? then width.value else 128) + 7) / 8 <= ADDRESS_BYTES
  {
  }

  /** What is left to do once the text is scanned, in terms of the array. */
  lemma FinishIs(e: Scanned, buf: seq<byte>, size: nat)
    requires ScannedOk(e) && (e.Scanned? ==> Filled(buf, e.out))
    ensures e.BadText? ==> Finish(e, size) == NotAddress
    ensures e.NinthGroup? ==> Finish(e, size) == NothingWritten
    ensures e.Scanned? && e.saw && |e.out| + 2 > ADDRESS_BYTES ==> Finish(e, size) == NotAddress
    ensures e.Scanned? && !(e.saw && |e.out| + 2 > ADDRESS_BYTES) ==>
      |buf| == ADDRESS_BYTES && |e.out| <= ADDRESS_BYTES
      && var b := if e.saw then WritePair(buf, |e.out|, e.val) else buf;
         var tp := if e.saw then |e.out| + 2 else |e.out|;
         var bits := if e.bits.Some? then e.bits.value else 128;
         var end := 2 * if e.ipv4 then 8 else Widest(2, (bits + 15) / 16);
         var bytes := (bits + 7) / 8;
         && |b| == ADDRESS_BYTES && end <= ADDRESS_BYTES && bytes <= ADDRESS_BYTES && (e.colon.Some? ==> e.colon.value <= tp)
         && Finish(e, size) ==
              if e.colon.Some? && tp == end then NotAddress
              else if e.colon.Some? && tp - e.colon.value > end then OutOfArray
              else if e.colon.None? && tp != end then NotAddress
              else if bytes > size then TooSmall
              else Bits(bits, (if e.colon.Some? then ShiftFrom(b, e.colon.value, tp - e.colon.value, end, 1) else b)[..bytes])
  {
    hide *;
    FinishParts(e, size);
    if e.Scanned? && !(e.saw && |e.out| + 2 > ADDRESS_BYTES) {
      FilledSize(buf, e.out);
      if e.saw {
        PairFilled(buf, e.out, e.val);
        SettleArray(e.out + Pair(e.val), WritePair(buf, |e.out|, e.val), e.colon, e.bits, e.ipv4, size);
      } else {
        SettleArray(e.out, buf, e.colon, e.bits, e.ipv4, size);
      }
    }
  }

  lemma FilledSize(buf: seq<byte>, out: seq<byte>)
    requires Filled(buf, out)
    ensures |out| <= |buf| == ADDRESS_BYTES && buf == out + ZeroBytes(ADDRESS_BYTES - |out|)
  {
    hide ZeroBytes;
  }

  lemma PtonStart(src: string, size: nat)
    ensures var start := if |src| > 0 && src[0] == ':' then 1 else 0;
      Pton6(src, size) ==
        if start == 1 && !(|src| > 1 && src[1] == ':') then NotAddress
        else Finish(Scan(src[start..], src[start..], Scanner([], None, false, 0, 0)), size)
    ensures ScannedOk(Scan(src, src, Scanner([], None, false, 0, 0)))
  {
    assert src[0..] == src;
    hide Finish, Scan;
  }

  method InetNetPton6(src: string, size: nat) returns (r: Outcome)
    ensures r == Pton6(src, size)
  {
    hide *;
    var tmp := new byte[ADDRESS_BYTES](_ => 0);
    assert tmp[..] == ZeroBytes(ADDRESS_BYTES);
    PtonStart(src, size);
    var start := 0;
    if |src| > 0 && src[0] == ':' {
      if !(|src| > 1 && src[1] == ':') {
        return NotAddress;
      }
      start := 1;
    }
    var e := ScanText(src, start, tmp);
    FinishIs(e, tmp[..], size);
    if e.BadText? {
      return NotAddress;
    }
    if e.NinthGroup? {
      return NothingWritten;
    }
    var tp := |e.out|;
    if e.saw {
      if tp + 2 > ADDRESS_BYTES {
        return NotAddress;
      }
      StorePair(tmp, tp, e.val);
      tp := tp + 2;
    }
    var bits := if e.bits.Some? then e.bits.value else 128;
    var words := if e.ipv4 then 8 else Widest(2, (bits + 15) / 16);
    var end := 2 * words;
    if e.colon.Some? {
      if tp == end {
        return NotAddress;
      }
      if tp - e.colon.value > end {
        return OutOfArray;
      }
      ShiftUp(tmp, e.colon.value, tp, end);
      tp := end;
    }
    if tp != end {
      return NotAddress;
    }
    var bytes := (bits + 7) / 8;
    if bytes > size {
      return TooSmall;
    }
    return Bits(bits, tmp[..bytes]);
  }

  lemma PairFilled(buf: seq<byte>, out: seq<byte>, val: nat)
    requires Filled(buf, out) && |out| + 2 <= ADDRESS_BYTES
    ensures WritePair(buf, |out|, val) == out + Pair(val) + ZeroBytes(ADDRESS_BYTES - (|out| + 2))
    ensures Filled(WritePair(buf, |out|, val), out + Pair(val))
  {
    assert forall k :: |out| <= k < ADDRESS_BYTES ==> buf[k] == ZeroBytes(ADDRESS_BYTES - |out|)[k - |out|];
  }
}
