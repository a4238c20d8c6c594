/** Positional numerals, printed without leading zeros, and the digit tables of the address parsers. */
module Numerals {
  import opened Seqs

  function Digit(d: nat): (c: char)
    requires d < 16
  {
    "0123456789abcdef"[d]
  }

  function HexValue(c: char): (v: Option<nat>)
    ensures v.Some? ==> v.value < 16
  {
    if '0' <= c <= '9' then Some(c as nat - '0' as nat)
    else if 'a' <= c <= 'f' then Some(c as nat - 'a' as nat + 10)
    else if 'A' <= c <= 'F' then Some(c as nat - 'A' as nat + 10)
    else None
  }

  function DecValue(c: char): (v: Option<nat>)
    ensures v.Some? ==> v.value < 10
  {
    if '0' <= c <= '9' then Some(c as nat - '0' as nat) else None
  }

  lemma DigitValue(d: nat)
    requires d < 16
    ensures HexValue(Digit(d)) == Some(d)
    ensures d < 10 ==> DecValue(Digit(d)) == Some(d)
  {
  }

  /** What "%u" and "%x" print. */
  function Numeral(n: nat, base: nat): (s: string)
    requires 2 <= base <= 16
    ensures s != []
  {
    if n < base then [Digit(n)] else Numeral(n / base, base) + [Digit(n % base)]
  }

  lemma HexLength(n: nat)
    requires n < 65536
    ensures |Numeral(n, 16)| <= 4
  {
    if n >= 16 {
      assert |Numeral(n, 16)| == |Numeral(n / 16, 16)| + 1;
      if n / 16 >= 16 {
        assert |Numeral(n / 16, 16)| == |Numeral(n / 16 / 16, 16)| + 1;
      }
    }
  }

  lemma DecLength(n: nat)
    requires n < 1000
    ensures |Numeral(n, 10)| <= 3
  {
    if n >= 10 {
      assert |Numeral(n, 10)| == |Numeral(n / 10, 10)| + 1;
    }
  }
}
