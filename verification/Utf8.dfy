/** UTF-8 as the HTML parser writes it and as htmlEncodeEntities reads it. */
module Utf8 {
  import opened Seqs

  type rune = c: int | 0 <= c < 0x110000

  /** What the parser writes for one character, in the shortest form. */
  function Bytes(c: rune): (r: seq<byte>)
    ensures 1 <= |r| <= 4
  {
    if c < 0x80 then [c]
    else if c < 0x800 then [0xC0 + c / 64, 0x80 + c % 64]
    else if c < 0x10000 then [0xE0 + c / 4096, 0x80 + c / 64 % 64, 0x80 + c % 64]
    else [0xF0 + c / 262144, 0x80 + c / 4096 % 64, 0x80 + c / 64 % 64, 0x80 + c % 64]
  }

  function AllBytes(cs: seq<rune>): seq<byte> {
    if cs == [] then [] else Bytes(cs[0]) + AllBytes(cs[1..])
  }

  /** What reading one character can meet. */
  datatype Step = Nothing | Malformed | Truncated | Char(c: nat, n: nat)

  /** Payload of a first byte, and how many bytes follow it; None where no character begins. */
  function Lead(d: byte): Option<(nat, nat)> {
    if d < 0x80 then Some((d as nat, 0))
    else if d < 0xC0 then None
    else if d < 0xE0 then Some((d as nat - 0xC0, 1))
    else if d < 0xF0 then Some((d as nat - 0xE0, 2))
    else if d < 0xF8 then Some((d as nat - 0xF0, 3))
    else None
  }

  function Trail(s: seq<byte>, i: nat, t: nat, c: nat): (r: Step)
    requires i + t <= |s|
    ensures r.Char? || r.Malformed?
    ensures r.Char? ==> r.n == i + t
    decreases t
  {
    if t == 0 then Char(c, i)
    else if !(0x80 <= s[i] < 0xC0) then Malformed
    else Trail(s, i + 1, t - 1, c * 64 + (s[i] - 0x80))
  }

  /** Reads the first character; overlong forms are not refused. */
  function Next(s: seq<byte>): (r: Step)
    ensures r.Char? ==> 0 < r.n <= |s|
    ensures r.Nothing? <==> s == []
  {
    if s == [] then Nothing
    else
      match Lead(s[0])
      case None => Malformed
      case Some((c, t)) => if |s| - 1 < t then Truncated else Trail(s, 1, t, c)
  }

  lemma TrailStep(s: seq<byte>, i: nat, t: nat, c: nat, more: nat)
    requires i + t + 1 <= |s| && s[i] == 0x80 + more && more < 64
    ensures Trail(s, i, t + 1, c) == Trail(s, i + 1, t, c * 64 + more)
  {
  }

  /** After the first byte b, the characters of two, three and four bytes. */
  lemma Two(s: seq<byte>, c: nat)
    requires |s| >= 2 && c < 0x800 && s[0] == 0xC0 + c / 64 && s[1] == 0x80 + c % 64
    ensures Next(s) == Char(c, 2)
  {
    TrailStep(s, 1, 0, c / 64, c % 64);
  }

  lemma Three(s: seq<byte>, c: nat)
    requires |s| >= 3 && c < 0x10000 && s[0] == 0xE0 + c / 4096 && s[1] == 0x80 + c / 64 % 64 && s[2] == 0x80 + c % 64
    ensures Next(s) == Char(c, 3)
  {
    TrailStep(s, 1, 1, c / 4096, c / 64 % 64);
    assert c / 4096 * 64 + c / 64 % 64 == c / 64;
    TrailStep(s, 2, 0, c / 64, c % 64);
  }

  lemma Four(s: seq<byte>, c: nat)
    requires |s| >= 4 && c < 0x200000 && s[0] == 0xF0 + c / 262144 && s[1] == 0x80 + c / 4096 % 64
    requires s[2] == 0x80 + c / 64 % 64 && s[3] == 0x80 + c % 64
    ensures Next(s) == Char(c, 4)
  {
    TrailStep(s, 1, 2, c / 262144, c / 4096 % 64);
    assert c / 262144 * 64 + c / 4096 % 64 == c / 4096;
    TrailStep(s, 2, 1, c / 4096, c / 64 % 64);
    assert c / 4096 * 64 + c / 64 % 64 == c / 64;
    TrailStep(s, 3, 0, c / 64, c % 64);
  }

  /** Reading undoes writing. */
  lemma NextOfBytes(c: rune, rest: seq<byte>)
    ensures Next(Bytes(c) + rest) == Char(c, |Bytes(c)|)
    ensures (Bytes(c) + rest)[|Bytes(c)|..] == rest
  {
    var s := Bytes(c) + rest;
    if c < 0x80 {
      assert Trail(s, 1, 0, c) == Char(c, 1);
    } else if c < 0x800 {
      Two(s, c);
    } else if c < 0x10000 {
      Three(s, c);
    } else {
      Four(s, c);
    }
    hide Next, Trail;
  }
}
