/** The attribute-value parser of the HTML parser (HTMLparser.c): characters, character references and
    entity references. The input is a sequence of characters; how bytes are decoded into them is not
    part of this model, and for ASCII input they are the bytes. */
module HtmlAttributes {
  import opened Seqs
  import opened Utf8
  import opened HtmlEntities

  /** Which characters above ASCII are letters, and which may go on a name. */
  datatype Classes = Classes(letter: rune -> bool, namePart: rune -> bool)

  predicate NameStart(cls: Classes, c: rune) {
    Letter(c) || c == 95 || c == 58 || (c >= 0x80 && cls.letter(c))
  }

  predicate NamePart(cls: Classes, c: rune) {
    Letter(c) || Decimal(c) || c == 95 || c == 45 || c == 58 || c == 46 || (c >= 0x80 && cls.namePart(c))
  }

  /** The input past its end reads as 0. */
  function At(s: seq<rune>, i: nat): rune { if i < |s| then s[i] else 0 }

  predicate Blank(c: rune) { c == 0x20 || 0x9 <= c <= 0xA || c == 0xD }

  /** IS_CHAR. */
  predicate IsChar(c: nat) {
    if c < 0x100 then 0x9 <= c <= 0xA || c == 0xD || 0x20 <= c
    else c <= 0xD7FF || 0xE000 <= c <= 0xFFFD || 0x10000 <= c <= 0x10FFFF
  }

  // ---------- character references ----------

  function DigitOf(c: rune, base: nat): (v: Option<nat>) {
    if Decimal(c) then Some((c - 48) as nat)
    else if base == 16 && 97 <= c <= 102 then Some((c - 97) as nat + 10)
    else if base == 16 && 65 <= c <= 70 then Some((c - 65) as nat + 10)
    else None
  }

  /** Value of the digits s begins with, after val, and how many they are. */
  function Digits(s: seq<rune>, base: nat, val: nat): (r: (nat, nat))
    ensures r.1 <= |s|
  {
    if s == [] || DigitOf(s[0], base).None? then (val, 0)
    else
      var more := Digits(s[1..], base, val * base + DigitOf(s[0], base).value);
      (more.0, more.1 + 1)
  }

  /** htmlParseCharRef on a text that begins with "&#": the value, or 0 for one that is no character, and
      how many characters are eaten. */
  function CharRef(s: seq<rune>): (r: (rune, nat))
    requires |s| >= 2
    ensures 2 <= r.1 <= |s|
    ensures r.0 == 0 || IsChar(r.0)
  {
    var hex := At(s, 2) == 120 || At(s, 2) == 88;
    var start := if hex then 3 else 2;
    var d := Digits(s[start..], if hex then 16 else 10, 0);
    var end := start + d.1;
    (if IsChar(d.0) then d.0 else 0, if At(s, end) == SEMICOLON then end + 1 else end)
  }

  method ReadDigits(s: seq<rune>, at: nat, base: nat) returns (val: nat, next: nat)
    requires at <= |s|
    ensures var d := Digits(s[at..], base, 0); val == d.0 && next == at + d.1
  {
    val, next := 0, at;
    while At(s, next) != SEMICOLON
      invariant at <= next <= |s|
      invariant var a, b := Digits(s[at..], base, 0), Digits(s[next..], base, val); a == (b.0, b.1 + (next - at))
      decreases |s| - next
    {
      if DigitOf(At(s, next), base).None? {
        break;
      }
      assert s[next..][0] == s[next] && s[next..][1..] == s[next + 1..];
      val := val * base + DigitOf(s[next], base).value;
      next := next + 1;
    }
  }

  method ParseCharRef(s: seq<rune>, at: nat) returns (c: rune, next: nat)
    requires at + 2 <= |s|
    ensures var r := CharRef(s[at..]); c == r.0 && next == at + r.1
  {
    var hex := At(s, at + 2) == 120 || At(s, at + 2) == 88;
    var start := if hex then at + 3 else at + 2;
    assert s[at..][start - at..] == s[start..];
    var val, end := ReadDigits(s, start, if hex then 16 else 10);
    next := end;
    if At(s, end) == SEMICOLON {
      next := end + 1;
    }
    c := if IsChar(val) then val else 0;
  }

  // ---------- names and entity references ----------

  function NameRun(cls: Classes, s: seq<rune>): (k: nat)
    ensures k <= |s| && forall i :: 0 <= i < k ==> NamePart(cls, s[i])
    ensures k < |s| ==> !NamePart(cls, s[k])
  {
    if s == [] || !NamePart(cls, s[0]) then 0 else 1 + NameRun(cls, s[1..])
  }

  /** How long the name at the start of s is; 0 when there is none. */
  function NameLength(cls: Classes, s: seq<rune>): (k: nat)
    ensures k <= |s|
  {
    if s == [] || !NameStart(cls, s[0]) then 0 else 1 + NameRun(cls, s[1..])
  }

  lemma {:induction false} NameRunIs(cls: Classes, s: seq<rune>, k: nat)
    requires k <= |s| && (forall i :: 0 <= i < k ==> NamePart(cls, s[i])) && (k < |s| ==> !NamePart(cls, s[k]))
    ensures NameRun(cls, s) == k
  {
    if k > 0 { NameRunIs(cls, s[1..], k - 1); }
  }

  /** htmlParseName: the accelerator for ASCII names, and the general loop when it does not end on ASCII. */
  method ParseName(cls: Classes, s: seq<rune>, at: nat) returns (next: nat)
    requires at <= |s|
    ensures next == at + NameLength(cls, s[at..])
  {
    next := at;
    var c := At(s, next);
    if Letter(c) || c == 95 || c == 58 {
      next := next + 1;
      while Letter(At(s, next)) || Decimal(At(s, next)) || At(s, next) in {95, 45, 58, 46}
        invariant at < next <= |s|
        invariant forall i :: at < i < next ==> NamePart(cls, s[i])
        decreases |s| - next
      {
        next := next + 1;
      }
      if 0 < At(s, next) < 0x80 {
        NameRunIs(cls, s[at..][1..], next - at - 1);
        return;
      }
    }
    next := at;
    if !NameStart(cls, At(s, next)) {
      return;
    }
    next := next + 1;
    while NamePart(cls, At(s, next))
      invariant at < next <= |s|
      invariant forall i :: at < i < next ==> NamePart(cls, s[i])
      decreases |s| - next
    {
      next := next + 1;
    }
    NameRunIs(cls, s[at..][1..], next - at - 1);
  }

  /** htmlParseEntityRef on a text that begins with "&": what to write, and how many characters are eaten. */
  function EntityRef(table: seq<Entity>, cls: Classes, s: seq<rune>): (r: (seq<byte>, nat))
    requires s != []
    ensures 1 <= r.1 <= |s|
  {
    var k := NameLength(cls, s[1..]);
    var name := AllBytes(s[1..1 + k]);
    if k == 0 then ([AMP], 1)
    else if At(s, 1 + k) == SEMICOLON && FindName(table, name).Some? then (Bytes(FindName(table, name).value.value), 2 + k)
    else ([AMP] + name, 1 + k)
  }

  method ParseEntityRef(table: seq<Entity>, cls: Classes, s: seq<rune>, at: nat) returns (out: seq<byte>, next: nat)
    requires at < |s| && TableOk(table)
    ensures var r := EntityRef(table, cls, s[at..]); out == r.0 && next == at + r.1
  {
    next := ParseName(cls, s, at + 1);
    assert s[at..][1..] == s[at + 1..];
    if next == at + 1 {
      return [AMP], next;
    }
    assert s[at..][1..next - at] == s[at + 1..next];
    var name := AllBytes(s[at + 1..next]);
    if At(s, next) == SEMICOLON {
      var ent := NameLookup(table, name);
      if ent.Some? {
        return Bytes(ent.value.value), next + 1;
      }
    }
    return [AMP] + name, next;
  }

  // ---------- the attribute value ----------

  predicate Ends(c: rune, stop: rune) {
    c == 0 || c == stop || (stop == 0 && (c == GREATER || Blank(c)))
  }

  /** What the text at the start of s is turned into, up to the next character, and how much of s it takes. */
  function Unit(table: seq<Entity>, cls: Classes, s: seq<rune>): (r: (seq<byte>, nat))
    requires s != []
    ensures 1 <= r.1 <= |s|
  {
    if s[0] == AMP then
      if At(s, 1) == HASH then var r := CharRef(s); (Bytes(r.0), r.1) else EntityRef(table, cls, s)
    else (Bytes(s[0]), 1)
  }

  /** htmlParseHTMLAttribute: the value, and how many characters it took. */
  function Attribute(table: seq<Entity>, cls: Classes, s: seq<rune>, stop: rune): (r: (seq<byte>, nat))
    ensures r.1 <= |s|
    decreases |s|
  {
    if Ends(At(s, 0), stop) then ([], 0)
    else
      var u := Unit(table, cls, s);
      var more := Attribute(table, cls, s[u.1..], stop);
      (u.0 + more.0, u.1 + more.1)
  }

  ghost predicate ParsingAt(table: seq<Entity>, cls: Classes, s: seq<rune>, stop: rune, at: nat, out: seq<byte>) {
    && at <= |s|
    && var a, b := Attribute(table, cls, s, stop), Attribute(table, cls, s[at..], stop);
       a == (out + b.0, at + b.1)
  }

  lemma ParsingStart(table: seq<Entity>, cls: Classes, s: seq<rune>, stop: rune)
    ensures ParsingAt(table, cls, s, stop, 0, [])
  {
    hide Attribute;
    assert s[0..] == s;
    assert [] + Attribute(table, cls, s, stop).0 == Attribute(table, cls, s, stop).0;
  }

  lemma AttributeIs(table: seq<Entity>, cls: Classes, s: seq<rune>, stop: rune)
    ensures if Ends(At(s, 0), stop) then Attribute(table, cls, s, stop) == ([], 0)
            else
              && s != []
              && var u := Unit(table, cls, s);
                 var more := Attribute(table, cls, s[u.1..], stop);
                 Attribute(table, cls, s, stop) == (u.0 + more.0, u.1 + more.1)
  {
    hide Unit, Blank;
  }

  lemma ParsingParts(table: seq<Entity>, cls: Classes, s: seq<rune>, stop: rune, at: nat, out: seq<byte>)
    requires ParsingAt(table, cls, s, stop, at, out)
    ensures at <= |s| && At(s[at..], 0) == At(s, at)
    ensures var b := Attribute(table, cls, s[at..], stop); Attribute(table, cls, s, stop) == (out + b.0, at + b.1)
  {
    hide Attribute;
  }

  lemma ParsingNext(table: seq<Entity>, cls: Classes, s: seq<rune>, stop: rune, at: nat, out: seq<byte>, u: (seq<byte>, nat))
    requires at + u.1 <= |s|
    requires var more := Attribute(table, cls, s[at + u.1..], stop);
      Attribute(table, cls, s, stop) == (out + (u.0 + more.0), at + (u.1 + more.1))
    ensures ParsingAt(table, cls, s, stop, at + u.1, out + u.0)
  {
    hide Attribute;
    var more := Attribute(table, cls, s[at + u.1..], stop);
    assert out + (u.0 + more.0) == (out + u.0) + more.0;
  }

  lemma ParsingTurn(table: seq<Entity>, cls: Classes, s: seq<rune>, stop: rune, at: nat, out: seq<byte>)
    requires ParsingAt(table, cls, s, stop, at, out)
    ensures at <= |s|
    ensures if Ends(At(s, at), stop) then Attribute(table, cls, s, stop) == (out, at)
            else
              && at < |s|
              && var u := Unit(table, cls, s[at..]);
                 at + u.1 <= |s| && ParsingAt(table, cls, s, stop, at + u.1, out + u.0)
  {
    hide *;
    ParsingParts(table, cls, s, stop, at, out);
    AttributeIs(table, cls, s[at..], stop);
    assert out + [] == out;
    if !Ends(At(s, at), stop) {
      var u := Unit(table, cls, s[at..]);
      assert s[at..][u.1..] == s[at + u.1..];
      ParsingNext(table, cls, s, stop, at, out, u);
    }
  }

  lemma UnitIs(table: seq<Entity>, cls: Classes, s: seq<rune>, at: nat)
    requires at < |s|
    ensures var t := s[at..];
      Unit(table, cls, t) ==
        if s[at] == AMP then
          if At(s, at + 1) == HASH && |t| >= 2 then (Bytes(CharRef(t).0), CharRef(t).1) else EntityRef(table, cls, t)
        else (Bytes(s[at]), 1)
    ensures At(s, at + 1) == HASH ==> at + 2 <= |s|
    ensures At(s, at) == s[at]
  {
    hide EntityRef, CharRef;
  }

  method ParseHTMLAttribute(table: seq<Entity>, cls: Classes, s: seq<rune>, stop: rune) returns (value: seq<byte>, used: nat)
    requires TableOk(table)
    ensures (value, used) == Attribute(table, cls, s, stop)
  {
    hide *;
    value, used := [], 0;
    ParsingStart(table, cls, s, stop);
    while true
      invariant ParsingAt(table, cls, s, stop, used, value)
      decreases |s| - used
    {
      ParsingTurn(table, cls, s, stop, used, value);
      if Ends(At(s, used), stop) {
        return;
      }
      UnitIs(table, cls, s, used);
      if s[used] == AMP {
        if At(s, used + 1) == HASH {
          var c, next := ParseCharRef(s, used);
          value := value + Bytes(c);
          used := next;
        } else {
          var text, next := ParseEntityRef(table, cls, s, used);
          value := value + text;
          used := next;
        }
      } else {
        value := value + Bytes(s[used]);
        used := used + 1;
      }
    }
  }
}
