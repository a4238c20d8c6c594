/** The IPv6 parser of inet_net_pton.c as functions: what its loops compute. */
module AddressParse {
  import opened Seqs
  import opened Numerals
  import opened AddressText

  /** NotAddress and TooSmall are the two errors; NothingWritten is the plain "return 0" for a ninth group;
      OutOfArray stands for the shift running below the 16-byte array, which C leaves undefined. */
  datatype Outcome = Bits(bits: nat, dst: seq<byte>) | NotAddress | TooSmall | NothingWritten | OutOfArray

  // ---------- getbits ----------

  function BitsFrom(s: string, val: nat, n: nat): (r: Option<nat>)
    requires val <= 128
    ensures r.Some? ==> r.value <= 128
  {
    if s == [] then if n == 0 then None else Some(val)
    else
      match DecValue(s[0])
      case None => None
      case Some(d) =>
        if n != 0 && val == 0 then None
        else if val * 10 + d > 128 then None
        else BitsFrom(s[1..], val * 10 + d, n + 1)
  }

  // ---------- getv4 ----------

  datatype Quad = Quad(octets: seq<byte>, bits: Option<nat>)

  function V4From(s: string, out: seq<byte>, val: byte, n: nat): (r: Option<Quad>)
    requires |out| <= 4
    ensures r.Some? ==> |r.value.octets| <= 4 && (r.value.bits.Some? ==> r.value.bits.value <= 128)
  {
    if s == [] then if n == 0 || |out| > 3 then None else Some(Quad(out + [val], None))
    else
      match DecValue(s[0])
      case Some(d) =>
        if n != 0 && val == 0 then None
        else if val as nat * 10 + d > 255 then None
        else V4From(s[1..], out, val as nat * 10 + d, n + 1)
      case None =>
        if s[0] != '.' && s[0] != '/' then None
        else if |out| > 3 then None
        else if s[0] == '/' then
          match BitsFrom(s[1..], 0, 0)
          case None => None
          case Some(b) => Some(Quad(out + [val], Some(b)))
        else V4From(s[1..], out + [val], 0, 0)
  }

  // ---------- inet_net_pton_ipv6 ----------

  function ZeroBytes(n: nat): (s: seq<byte>)
    ensures |s| == n && forall i :: 0 <= i < n ==> s[i] == 0
  {
    seq(n, _ => 0)
  }

  /** Two bytes, high byte first. */
  function Pair(w: nat): (s: seq<byte>)
    ensures |s| == 2
  {
    [w / 256 % 256, w % 256]
  }

  /** The loop variables: out is what lies before tp in the array, which is zero from there on. */
  datatype Scanner = Scanner(out: seq<byte>, colon: Option<nat>, saw: bool, val: nat, digits: nat)

  datatype Scanned =
    | Scanned(out: seq<byte>, colon: Option<nat>, saw: bool, val: nat, bits: Option<nat>, ipv4: bool)
    | BadText
    | NinthGroup

  predicate ScannerOk(st: Scanner) {
    |st.out| <= ADDRESS_BYTES && (st.colon.Some? ==> st.colon.value <= |st.out|)
  }

  predicate ScannedOk(r: Scanned) {
    r.Scanned? ==>
      && |r.out| <= ADDRESS_BYTES && (r.colon.Some? ==> r.colon.value <= |r.out|)
      && (r.bits.Some? ==> r.bits.value <= 128)
  }

  /** s is the text still to read and tok the text from the start of the current group. */
  function Scan(s: string, tok: string, st: Scanner): (r: Scanned)
    requires ScannerOk(st)
    ensures ScannedOk(r)
    decreases |s|
  {
    if s == [] then Scanned(st.out, st.colon, st.saw, st.val, None, false)
    else
      var rest := s[1..];
      match HexValue(s[0])
      case Some(d) =>
        if st.digits + 1 > 4 then BadText
        else Scan(rest, tok, st.(saw := true, val := st.val * 16 + d, digits := st.digits + 1))
      case None =>
        if s[0] == ':' then
          if !st.saw then
            if st.colon.Some? then BadText else Scan(rest, rest, st.(colon := Some(|st.out|)))
          else if rest == [] then BadText
          else if |st.out| + 2 > ADDRESS_BYTES then NinthGroup
          else Scan(rest, rest, Scanner(st.out + Pair(st.val), st.colon, false, 0, 0))
        else if s[0] == '.' && |st.out| + 4 <= ADDRESS_BYTES && V4From(tok, [], 0, 0).Some? then
          var q := V4From(tok, [], 0, 0).value;
          Scanned(st.out + q.octets + ZeroBytes(4 - |q.octets|), st.colon, false, st.val, q.bits, true)
        else if s[0] == '/' && BitsFrom(rest, 0, 0).Some? then
          Scanned(st.out, st.colon, st.saw, st.val, BitsFrom(rest, 0, 0), false)
        else BadText
  }

  /** The shift by hand, from its i-th turn on: bytes before tp move up against end. */
  function ShiftFrom(tmp: seq<byte>, colon: nat, n: nat, end: nat, i: nat): (r: seq<byte>)
    requires colon + n <= |tmp| && n <= end <= |tmp| && 1 <= i
    ensures |r| == |tmp|
    decreases n + 1 - i
  {
    if i > n then tmp
    else ShiftFrom(tmp[end - i := tmp[colon + n - i]][colon + n - i := 0], colon, n, end, i + 1)
  }

  function Widest(a: nat, b: nat): nat { if a < b then b else a }

  /** Where a prefix of this width ends in the array. */
  function PrefixEnd(width: Option<nat>, ipv4: bool): (end: nat)
    requires width.Some? ==> width.value <= 128
    ensures end <= ADDRESS_BYTES
  {
    if ipv4 then 16 else 2 * Widest(2, ((if width.Some? then width.value else 128) + 15) / 16)
  }

  /** What is left to do once all bytes are in the array. */
  function Settle(out: seq<byte>, colon: Option<nat>, width: Option<nat>, ipv4: bool, size: nat): Outcome
    requires |out| <= ADDRESS_BYTES && (colon.Some? ==> colon.value <= |out|) && (width.Some? ==> width.value <= 128)
  {
    var bits := if width.Some? then width.value else 128;
    var end := PrefixEnd(width, ipv4);
    var tmp := out + ZeroBytes(ADDRESS_BYTES - |out|);
    if colon.Some? && |out| == end then NotAddress
    else if colon.Some? && |out| - colon.value > end then OutOfArray
    else if colon.None? && |out| != end then NotAddress
    else if (bits + 7) / 8 > size then TooSmall
    else
      var shifted := if colon.Some? then ShiftFrom(tmp, colon.value, |out| - colon.value, end, 1) else tmp;
      Bits(bits, shifted[..(bits + 7) / 8])
  }

  /** What follows the loop. */
  function Finish(r: Scanned, size: nat): Outcome
    requires ScannedOk(r)
  {
    match r
    case BadText => NotAddress
    case NinthGroup => NothingWritten
    case Scanned(out, colon, saw, val, width, ipv4) =>
      if saw && |out| + 2 > ADDRESS_BYTES then NotAddress
      else Settle(if saw then out + Pair(val) else out, colon, width, ipv4, size)
  }

  /** inet_net_pton_ipv6. */
  function Pton6(src: string, size: nat): Outcome {
    if |src| > 0 && src[0] == ':' then
      if |src| > 1 && src[1] == ':' then Finish(Scan(src[1..], src[1..], Scanner([], None, false, 0, 0)), size) else NotAddress
    else Finish(Scan(src, src, Scanner([], None, false, 0, 0)), size)
  }
}
