/** Domain names inside a DNS message: the compressed walk of section 4.1.4 of
    RFC 1035, the length pass that detects loops, and the unchecked expansion. */
module Names {
  import opened Seqs

  const HFIXEDSZ: nat := 12
  const QFIXEDSZ: nat := 4
  const DOT: byte := 46
  const BACKSLASH: byte := 92

  /** What the walk finds at one position. A byte below 192 is a label length;
      the code does not reject lengths 64 to 191. */
  datatype Hop = End | Jump(target: nat) | Label(length: nat) | Bad

  ghost function HopAt(msg: seq<byte>, pos: nat): Hop
    requires pos < |msg|
  {
    var b: int := msg[pos];
    if b == 0 then End
    else if b >= 192 then
      if pos + 1 >= |msg| then Bad
      else
        var target: int := (b - 192) * 256 + msg[pos + 1];
        if target >= |msg| then Bad else Jump(target)
    else if pos + b + 1 >= |msg| then Bad
    else Label(b)
  }

  /** The walk from pos stays in the message and meets a zero octet after exactly k hops. */
  ghost predicate Ends(msg: seq<byte>, pos: nat, k: nat)
    decreases k
  {
    pos < |msg| &&
    match HopAt(msg, pos)
    case End => k == 0
    case Bad => false
    case Jump(target) => k > 0 && Ends(msg, target, k - 1)
    case Label(n) => k > 0 && Ends(msg, pos + n + 1, k - 1)
  }

  /** The unbounded walk succeeds: nothing here counts pointers. */
  ghost predicate Resolves(msg: seq<byte>, pos: nat) {
    exists k: nat :: Ends(msg, pos, k)
  }

  /** Text of one label: periods and backslashes are escaped. */
  ghost function Escape(raw: seq<byte>): seq<byte> {
    if raw == [] then []
    else EscapeByte(raw[0]) + Escape(raw[1..])
  }

  ghost function EscapeByte(b: byte): seq<byte> {
    if b == DOT || b == BACKSLASH then [BACKSLASH, b] else [b]
  }

  /** The labels met by the walk. */
  ghost function LabelsAt(msg: seq<byte>, pos: nat, k: nat): seq<seq<byte>>
    requires Ends(msg, pos, k)
    decreases k
  {
    match HopAt(msg, pos)
    case End => []
    case Jump(target) => LabelsAt(msg, target, k - 1)
    case Label(n) => [msg[pos + 1..pos + 1 + n]] + LabelsAt(msg, pos + n + 1, k - 1)
  }

  /** Escaped labels, each followed by a period. */
  ghost function Dotted(labels: seq<seq<byte>>): seq<byte> {
    if labels == [] then [] else Escape(labels[0]) + [DOT] + Dotted(labels[1..])
  }

  /** Escaped labels with a period between neighbours. */
  ghost function Spell(labels: seq<seq<byte>>): seq<byte> {
    if labels == [] then [] else Dotted(labels)[..|Dotted(labels)| - 1]
  }

  /** Bytes the encoded name occupies where it stands: up to the zero octet or the first pointer. */
  ghost function EncodedLength(msg: seq<byte>, pos: nat, k: nat): nat
    requires Ends(msg, pos, k)
    decreases k
  {
    match HopAt(msg, pos)
    case End => 1
    case Jump(target) => 2
    case Label(n) => n + 1 + EncodedLength(msg, pos + n + 1, k - 1)
  }

  datatype Expansion = Expansion(labels: seq<seq<byte>>, encoded: nat)

  /** What the walk from pos means, whatever its length. */
  ghost function Expand(msg: seq<byte>, pos: nat): Option<Expansion> {
    if Resolves(msg, pos) then
      var k: nat :| Ends(msg, pos, k);
      Some(Expansion(LabelsAt(msg, pos, k), EncodedLength(msg, pos, k)))
    else None
  }

  /** A label of 64 to 191 bytes, which section 2.3.4 of RFC 1035 does not allow, is expanded like any other. */
  lemma LongLabelResolves(raw: seq<byte>)
    requires 64 <= |raw| < 192
    ensures Expand([|raw|] + raw + [0], 0) == Some(Expansion([raw], |raw| + 2))
  {
    var n := |raw|;
    var msg: seq<byte> := [n] + raw + [0];
    assert HopAt(msg, 0) == Label(n) && HopAt(msg, n + 1) == End;
    assert msg[1..1 + n] == raw;
    assert Ends(msg, n + 1, 0) && Ends(msg, 0, 1);
    assert LabelsAt(msg, n + 1, 0) == [] && EncodedLength(msg, n + 1, 0) == 1;
    assert [raw] + [] == [raw];
    assert LabelsAt(msg, 0, 1) == [raw] && EncodedLength(msg, 0, 1) == n + 2;
    ExpandIs(msg, 0, 1);
  }

  lemma {:induction false} HopsUnique(msg: seq<byte>, pos: nat, j: nat, k: nat)
    requires Ends(msg, pos, j) && Ends(msg, pos, k)
    ensures j == k
    decreases k
  {
    match HopAt(msg, pos)
    case End =>
    case Jump(target) => HopsUnique(msg, target, j - 1, k - 1);
    case Label(n) => HopsUnique(msg, pos + n + 1, j - 1, k - 1);
  }

  lemma ExpandIs(msg: seq<byte>, pos: nat, k: nat)
    requires Ends(msg, pos, k)
    ensures Expand(msg, pos) == Some(Expansion(LabelsAt(msg, pos, k), EncodedLength(msg, pos, k)))
  {
    var j: nat :| Ends(msg, pos, j) && Expand(msg, pos) == Some(Expansion(LabelsAt(msg, pos, j), EncodedLength(msg, pos, j)));
    HopsUnique(msg, pos, j, k);
  }

  /** A resolved name lies inside the message and, when it has labels, spells at least a byte. */
  lemma {:induction false} EncodedInside(msg: seq<byte>, pos: nat, k: nat)
    requires Ends(msg, pos, k)
    ensures 1 <= EncodedLength(msg, pos, k) && pos + EncodedLength(msg, pos, k) <= |msg|
    decreases k
  {
    match HopAt(msg, pos)
    case End =>
    case Jump(target) =>
    case Label(n) => EncodedInside(msg, pos + n + 1, k - 1);
  }

  lemma {:induction false} EscapeConcat(a: seq<byte>, b: seq<byte>)
    ensures Escape(a + b) == Escape(a) + Escape(b)
  {
    if a == [] {
      assert a + b == b;
    } else {
      assert (a + b)[1..] == a[1..] + b;
      EscapeConcat(a[1..], b);
    }
  }

  lemma {:induction false} EscapeLength(a: seq<byte>)
    ensures |Escape(a)| >= |a|
  {
    if a != [] { EscapeLength(a[1..]); }
  }

  /** Every label met by a walk is non-empty, so a dotted spelling is empty only for the root. */
  lemma {:induction false} LabelsNonEmpty(msg: seq<byte>, pos: nat, k: nat)
    requires Ends(msg, pos, k)
    ensures forall l :: l in LabelsAt(msg, pos, k) ==> l != []
    decreases k
  {
    match HopAt(msg, pos)
    case End =>
    case Jump(target) => LabelsNonEmpty(msg, target, k - 1);
    case Label(n) => LabelsNonEmpty(msg, pos + n + 1, k - 1);
  }

  lemma {:induction false} DottedEmpty(labels: seq<seq<byte>>)
    ensures Dotted(labels) == [] <==> labels == []
  {
  }

  // ---------- loop detection ----------

  /** Pointer positions met so far, each with its distance in hops to the current position. */
  ghost predicate Trail(msg: seq<byte>, pos: nat, jumps: seq<nat>, gaps: seq<nat>) {
    && |jumps| == |gaps|
    && (forall i :: 0 <= i < |jumps| ==> jumps[i] < |msg| && gaps[i] > 0)
    && (forall i, j :: 0 <= i < j < |gaps| ==> gaps[i] > gaps[j])
    && (forall i, k: nat :: 0 <= i < |jumps| && Ends(msg, pos, k) ==> Ends(msg, jumps[i], k + gaps[i]))
  }

  /** A walk that ends cannot have met more pointers than the message has bytes: were a pointer
      met twice, it would lie at two distances from the end. */
  lemma TooManyJumps(msg: seq<byte>, pos: nat, jumps: seq<nat>, gaps: seq<nat>)
    requires Trail(msg, pos, jumps, gaps) && |jumps| > |msg|
    ensures !Resolves(msg, pos)
  {
    if Resolves(msg, pos) {
      var k: nat :| Ends(msg, pos, k);
      forall i, j | 0 <= i < j < |jumps| ensures jumps[i] != jumps[j] {
        assert Ends(msg, jumps[i], k + gaps[i]) && Ends(msg, jumps[j], k + gaps[j]);
        if jumps[i] == jumps[j] { HopsUnique(msg, jumps[i], k + gaps[i], k + gaps[j]); }
      }
      Pigeonhole(jumps, |msg|);
    }
  }

  ghost function Shifted(gaps: seq<nat>): (r: seq<nat>) {
    seq(|gaps|, i requires 0 <= i < |gaps| => gaps[i] + 1)
  }

  lemma HopBack(msg: seq<byte>, pos: nat, next: nat, k: nat)
    requires pos < |msg| && Ends(msg, next, k)
    requires match HopAt(msg, pos)
      case Jump(target) => next == target
      case Label(n) => next == pos + n + 1
      case _ => false
    ensures Ends(msg, pos, k + 1)
  {
    hide HopAt;
  }

  /** One hop from pos to next lengthens every distance by one; a pointer hop is also recorded. */
  lemma TrailStep(msg: seq<byte>, pos: nat, next: nat, jumps: seq<nat>, gaps: seq<nat>)
    requires pos < |msg| && Trail(msg, pos, jumps, gaps)
    requires match HopAt(msg, pos)
      case Jump(target) => next == target
      case Label(n) => next == pos + n + 1
      case _ => false
    ensures Trail(msg, next, jumps, Shifted(gaps))
    ensures Trail(msg, next, jumps + [pos], Shifted(gaps) + [1])
  {
    hide Ends, HopAt;
    forall i, k: nat | 0 <= i < |jumps| && Ends(msg, next, k)
      ensures Ends(msg, jumps[i], k + Shifted(gaps)[i])
    {
      HopBack(msg, pos, next, k);
      assert Ends(msg, jumps[i], (k + 1) + gaps[i]);
    }
    forall k: nat | Ends(msg, next, k) ensures Ends(msg, pos, k + 1) { HopBack(msg, pos, next, k); }
  }

  /** After some hops the walk from start has reached pos and spelled n bytes: any way the rest
      ends, the whole ends, and the spelling is n bytes longer than that of the rest. */
  ghost predicate Counted(msg: seq<byte>, start: nat, pos: nat, hops: nat, n: nat) {
    && (Resolves(msg, start) ==> Resolves(msg, pos))
    && (forall k: nat :: Ends(msg, pos, k) ==>
        Ends(msg, start, k + hops) &&
        |Dotted(LabelsAt(msg, start, k + hops))| == n + |Dotted(LabelsAt(msg, pos, k))|)
  }

  /** Position after the hop at pos, and the dotted length that hop adds. */
  ghost function After(msg: seq<byte>, pos: nat): nat
    requires pos < |msg| && (HopAt(msg, pos).Jump? || HopAt(msg, pos).Label?)
  {
    match HopAt(msg, pos)
    case Jump(target) => target
    case Label(n) => pos + n + 1
  }

  ghost function Added(msg: seq<byte>, pos: nat): nat
    requires pos < |msg|
  {
    match HopAt(msg, pos)
    case Label(n) => |Escape(msg[pos + 1..pos + 1 + n])| + 1
    case _ => 0
  }

  /** Going one hop further towards the end takes one hop off the walk and Added bytes off the spelling. */
  lemma OneHop(msg: seq<byte>, pos: nat, k: nat)
    requires pos < |msg| && (HopAt(msg, pos).Jump? || HopAt(msg, pos).Label?)
    ensures Ends(msg, After(msg, pos), k) <==> Ends(msg, pos, k + 1)
    ensures Ends(msg, pos, k + 1) ==>
      |Dotted(LabelsAt(msg, pos, k + 1))| == Added(msg, pos) + |Dotted(LabelsAt(msg, After(msg, pos), k))|
  {
    if HopAt(msg, pos).Label? && Ends(msg, pos, k + 1) {
      var ls := LabelsAt(msg, pos, k + 1);
      assert ls[1..] == LabelsAt(msg, After(msg, pos), k);
    }
  }

  lemma CountAt(msg: seq<byte>, start: nat, pos: nat, hops: nat, n: nat, k: nat)
    requires pos < |msg| && (HopAt(msg, pos).Jump? || HopAt(msg, pos).Label?)
    requires Counted(msg, start, pos, hops, n) && Ends(msg, After(msg, pos), k)
    ensures Ends(msg, start, k + (hops + 1))
    ensures |Dotted(LabelsAt(msg, start, k + (hops + 1)))|
      == n + Added(msg, pos) + |Dotted(LabelsAt(msg, After(msg, pos), k))|
  {
    hide Ends, LabelsAt, Dotted, Added, After, HopAt, Resolves;
    OneHop(msg, pos, k);
    assert (k + 1) + hops == k + (hops + 1);
    assert Ends(msg, start, (k + 1) + hops);
  }

  lemma ResolvesNext(msg: seq<byte>, pos: nat)
    requires pos < |msg| && Resolves(msg, pos)
    ensures !HopAt(msg, pos).Bad?
    ensures HopAt(msg, pos).Jump? || HopAt(msg, pos).Label? ==> Resolves(msg, After(msg, pos))
  {
    var k: nat :| Ends(msg, pos, k);
    if HopAt(msg, pos).Jump? || HopAt(msg, pos).Label? { OneHop(msg, pos, k - 1); }
  }

  lemma CountStep(msg: seq<byte>, start: nat, pos: nat, hops: nat, n: nat)
    requires pos < |msg| && Counted(msg, start, pos, hops, n)
    ensures HopAt(msg, pos).Bad? ==> !Resolves(msg, start)
    ensures HopAt(msg, pos).Jump? || HopAt(msg, pos).Label? ==>
      Counted(msg, start, After(msg, pos), hops + 1, n + Added(msg, pos))
  {
    hide Ends, LabelsAt, Dotted, Added, After, HopAt, Resolves;
    if Resolves(msg, pos) { ResolvesNext(msg, pos); }
    if HopAt(msg, pos).Jump? || HopAt(msg, pos).Label? {
      forall k: nat | Ends(msg, After(msg, pos), k)
        ensures Ends(msg, start, k + (hops + 1)) && |Dotted(LabelsAt(msg, start, k + (hops + 1)))|
          == n + Added(msg, pos) + |Dotted(LabelsAt(msg, After(msg, pos), k))|
      {
        CountAt(msg, start, pos, hops, n, k);
      }
    }
  }

  ghost predicate Measuring(msg: seq<byte>, start: nat, pos: nat, hops: nat, n: nat, jumps: seq<nat>, gaps: seq<nat>) {
    Trail(msg, pos, jumps, gaps) && Counted(msg, start, pos, hops, n)
  }

  lemma MeasureStart(msg: seq<byte>, start: nat)
    ensures Measuring(msg, start, start, 0, 0, [], [])
    ensures start == |msg| ==> !Resolves(msg, start)
  {
  }

  lemma CountedResolves(msg: seq<byte>, start: nat, pos: nat, hops: nat, n: nat)
    requires Counted(msg, start, pos, hops, n) && !Resolves(msg, pos)
    ensures !Resolves(msg, start)
  {
    hide Ends, LabelsAt, Dotted;
  }

  lemma CountedEnd(msg: seq<byte>, start: nat, pos: nat, hops: nat, n: nat)
    requires pos < |msg| && HopAt(msg, pos).End? && Counted(msg, start, pos, hops, n)
    ensures Resolves(msg, start) && |Spell(Expand(msg, start).value.labels)| == if n > 0 then n - 1 else n
  {
    assert Ends(msg, pos, 0) && LabelsAt(msg, pos, 0) == [];
    hide Expand, LabelsAt, HopAt;
    assert Ends(msg, start, 0 + hops);
    hide Ends;
    ExpandIs(msg, start, hops);
    DottedEmpty(LabelsAt(msg, start, hops));
  }

  /** One turn of the loop of name_length, seen from the byte at pos. */
  lemma MeasureStep(msg: seq<byte>, start: nat, pos: nat, hops: nat, n: nat, jumps: seq<nat>, gaps: seq<nat>)
    requires pos < |msg| && Measuring(msg, start, pos, hops, n, jumps, gaps)
    ensures |jumps| > |msg| ==> !Resolves(msg, start)
    ensures msg[pos] == 0 ==>
      Resolves(msg, start) && |Spell(Expand(msg, start).value.labels)| == if n > 0 then n - 1 else n
    ensures msg[pos] >= 192 ==>
      if pos + 1 >= |msg| then !Resolves(msg, start)
      else
        var target := (msg[pos] as int - 192) * 256 + msg[pos + 1];
        if target >= |msg| then !Resolves(msg, start)
        else Measuring(msg, start, target, hops + 1, n, jumps + [pos], Shifted(gaps) + [1])
    ensures 0 < msg[pos] < 192 ==>
      var next := pos + msg[pos] + 1;
      if next >= |msg| then !Resolves(msg, start)
      else Measuring(msg, start, next, hops + 1, n + |Escape(msg[pos + 1..next])| + 1, jumps, Shifted(gaps))
  {
    hide Ends, LabelsAt, Dotted, Resolves, Escape, Counted, Trail, Spell, Expand, Shifted;
    if |jumps| > |msg| {
      TooManyJumps(msg, pos, jumps, gaps);
      CountedResolves(msg, start, pos, hops, n);
    }
    CountStep(msg, start, pos, hops, n);
    match HopAt(msg, pos)
    case End => CountedEnd(msg, start, pos, hops, n);
    case Bad =>
    case Jump(target) => TrailStep(msg, pos, target, jumps, gaps);
    case Label(len) => TrailStep(msg, pos, pos + len + 1, jumps, gaps);
  }

  /** Escaped length of the label whose bytes start at pos: the inner counting loop. */
  method EscapedLength(msg: seq<byte>, pos: nat, length: nat) returns (n: nat)
    requires pos + length <= |msg|
    ensures n == |Escape(msg[pos..pos + length])|
  {
    n := 0;
    for i := 0 to length
      invariant n == |Escape(msg[pos..pos + i])|
    {
      var b := msg[pos + i];
      assert msg[pos..pos + i + 1] == msg[pos..pos + i] + [b];
      EscapeConcat(msg[pos..pos + i], [b]);
      assert Escape([b]) == EscapeByte(b);
      n := n + if b == DOT || b == BACKSLASH then 2 else 1;
    }
  }

  /** First pass: length of the expansion without its final period, or -1. */
  method NameLength(msg: seq<byte>, start: nat) returns (r: int)
    requires start <= |msg|
    ensures r == if Resolves(msg, start) then |Spell(Expand(msg, start).value.labels)| else -1
  {
    hide *;
    MeasureStart(msg, start);
    if start == |msg| { return -1; }
    var n: nat, indir: nat, pos: nat := 0, 0, start;
    ghost var hops := 0;
    ghost var jumps: seq<nat>, gaps: seq<nat> := [], [];
    while msg[pos] != 0
      invariant pos < |msg| && |jumps| == indir <= |msg|
      invariant Measuring(msg, start, pos, hops, n, jumps, gaps)
      decreases |msg| - indir, |msg| - pos
    {
      MeasureStep(msg, start, pos, hops, n, jumps, gaps);
      if msg[pos] >= 192 {
        if pos + 1 >= |msg| { return -1; }
        var offset: int := (msg[pos] as int - 192) * 256 + msg[pos + 1];
        if offset >= |msg| { return -1; }
        jumps, gaps := jumps + [pos], Shifted(gaps) + [1];
        pos := offset;
        indir := indir + 1;
        if indir > |msg| {
          MeasureStep(msg, start, pos, hops + 1, n, jumps, gaps);
          return -1;
        }
      } else {
        var offset: nat := msg[pos];
        if pos + offset + 1 >= |msg| { return -1; }
        gaps := Shifted(gaps);
        var escaped := EscapedLength(msg, pos + 1, offset);
        n := n + escaped + 1;
        pos := pos + offset + 1;
      }
      hops := hops + 1;
    }
    MeasureStep(msg, start, pos, hops, n, jumps, gaps);
    return if n > 0 then n - 1 else n;
  }

  // ---------- expansion ----------

  /** The assignment through the output cursor: `*q++ = b`. */
  method Put(s: array<byte>, q: nat, b: byte) returns (next: nat)
    requires q < s.Length
    modifies s
    ensures next == q + 1 && s[..] == old(s[..q]) + [b] + old(s[next..])
  {
    s[q] := b;
    next := q + 1;
  }

  /** One byte with its escape. */
  method PutEscaped(s: array<byte>, q: nat, b: byte) returns (next: nat)
    requires q + |EscapeByte(b)| <= s.Length
    modifies s
    ensures next == q + |EscapeByte(b)| && s[..] == old(s[..q]) + EscapeByte(b) + old(s[next..])
  {
    next := q;
    if b == DOT || b == BACKSLASH {
      next := Put(s, next, BACKSLASH);
    }
    next := Put(s, next, b);
  }

  /** Second pass, one label: copy it to s at q with escapes and no bounds check but the array's own. The
      bytes before and behind the label's room stay as they were. */
  method CopyLabel(msg: seq<byte>, pos: nat, length: nat, s: array<byte>, start: nat) returns (q: nat)
    requires pos + length <= |msg|
    requires start + |Escape(msg[pos..pos + length])| < s.Length
    modifies s
    ensures q == start + |Escape(msg[pos..pos + length])| + 1
    ensures s[..] == old(s[..start]) + Escape(msg[pos..pos + length]) + [DOT] + old(s[q..])
    ensures s[..q] == old(s[..start]) + Escape(msg[pos..pos + length]) + [DOT]
  {
    hide *;
    q := start;
    ghost var raw, was := msg[pos..pos + length], s[..];
    EscapeNone(raw);
    assert s[..] == was[..start] + Escape(raw[..0]) + was[q..];
    for i := 0 to length
      invariant q == start + |Escape(raw[..i])| && q + 1 <= |was| == s.Length
      invariant s[..] == was[..start] + Escape(raw[..i]) + was[q..]
    {
      EscapeAt(raw, i);
      MorePut(s[..], was, start, Escape(raw[..i]), EscapeByte(raw[i]));
      q := PutEscaped(s, q, msg[pos + i]);
    }
    assert raw[..length] == raw;
    MorePut(s[..], was, start, Escape(raw), [DOT]);
    q := Put(s, q, DOT);
    assert s[..q] == was[..start] + (Escape(raw) + [DOT]);
  }

  lemma EscapeNone(raw: seq<byte>)
    ensures Escape(raw[..0]) == []
  {
  }

  /** Contents s are those that were there but for the bytes w from start on; what becomes of them when more
      bytes are put behind w. */
  lemma MorePut(s: seq<byte>, was: seq<byte>, start: nat, w: seq<byte>, more: seq<byte>)
    requires start + |w| + |more| <= |was| && s == was[..start] + w + was[start + |w|..]
    ensures var q := start + |w|;
      s[..q] + more + s[q + |more|..] == was[..start] + (w + more) + was[q + |more|..]
  {
    var q := start + |w|;
    assert s[..q] == was[..start] + w;
    assert s[q + |more|..] == was[q..][|more|..];
  }

  /** Escaping byte i extends the escape of the first i bytes and fits in the whole escape. */
  lemma EscapeAt(raw: seq<byte>, i: nat)
    requires i < |raw|
    ensures Escape(raw[..i + 1]) == Escape(raw[..i]) + EscapeByte(raw[i])
    ensures |Escape(raw[..i + 1])| <= |Escape(raw)|
  {
    assert raw[..i + 1] == raw[..i] + [raw[i]];
    EscapeConcat(raw[..i], [raw[i]]);
    assert Escape([raw[i]]) == EscapeByte(raw[i]);
    assert raw == raw[..i + 1] + raw[i + 1..];
    EscapeConcat(raw[..i + 1], raw[i + 1..]);
  }

  /** Midway through the second pass: rest hops remain from pos, what is written plus what the rest
      spells is the whole, and the encoded length is known (after a pointer) or still being counted. */
  ghost predicate Expanding(msg: seq<byte>, start: nat, whole: seq<byte>, size: nat,
                            pos: nat, rest: nat, written: seq<byte>, indir: bool, enclen: nat) {
    && Ends(msg, pos, rest)
    && written + Dotted(LabelsAt(msg, pos, rest)) == whole
    && if indir then enclen == size
       else pos >= start && pos - start + EncodedLength(msg, pos, rest) == size
  }

  lemma ExpandStep(msg: seq<byte>, start: nat, whole: seq<byte>, size: nat,
                   pos: nat, rest: nat, written: seq<byte>, indir: bool, enclen: nat)
    requires Expanding(msg, start, whole, size, pos, rest, written, indir, enclen)
    ensures pos < |msg| && |written| <= |whole| && (indir || start <= pos)
    ensures msg[pos] == 0 ==> written == whole && size == if indir then enclen else pos + 1 - start
    ensures msg[pos] != 0 ==> rest > 0
    ensures msg[pos] >= 192 ==>
      && pos + 1 < |msg| && (msg[pos] as int - 192) * 256 + msg[pos + 1] < |msg|
      && Expanding(msg, start, whole, size, (msg[pos] as int - 192) * 256 + msg[pos + 1], rest - 1, written,
                   true, if indir then enclen else pos + 2 - start)
    ensures 0 < msg[pos] < 192 ==>
      && pos + msg[pos] + 1 < |msg|
      && var text := Escape(msg[pos + 1..pos + 1 + msg[pos]]);
         && |written| + |text| < |whole|
         && Expanding(msg, start, whole, size, pos + msg[pos] + 1, rest - 1, written + text + [DOT], indir, enclen)
  {
    match HopAt(msg, pos)
    case End =>
      assert written + [] == written;
    case Jump(t) =>
    case Label(n) =>
      var ls := LabelsAt(msg, pos, rest);
      var text := Escape(msg[pos + 1..pos + 1 + n]);
      assert ls[0] == msg[pos + 1..pos + 1 + n] && ls[1..] == LabelsAt(msg, pos + n + 1, rest - 1);
      assert written + (text + [DOT] + Dotted(ls[1..])) == written + text + [DOT] + Dotted(ls[1..]);
  }

  /** The second pass proper: follow the same walk again and write the dotted labels. */
  method WriteLabels(msg: seq<byte>, start: nat, out: array<byte>, ghost size: nat, ghost whole: seq<byte>, ghost hops: nat)
      returns (enclen: nat)
    requires start < |msg| && out.Length == |whole|
    requires Expanding(msg, start, whole, size, start, hops, [], false, 0)
    modifies out
    ensures out[..] == whole && enclen == size
  {
    hide *;
    var pos: nat, q: nat, indir := start, 0, false;
    enclen := 0;
    ghost var rest: nat := hops;
    assert out[..q] == [];
    while msg[pos] != 0
      invariant pos < |msg| && q <= out.Length
      invariant Expanding(msg, start, whole, size, pos, rest, out[..q], indir, enclen)
      decreases rest
    {
      ExpandStep(msg, start, whole, size, pos, rest, out[..q], indir, enclen);
      if msg[pos] >= 192 {
        if !indir {
          enclen := pos + 2 - start;
          indir := true;
        }
        pos := (msg[pos] as int - 192) * 256 + msg[pos + 1];
      } else {
        var len := msg[pos];
        q := CopyLabel(msg, pos + 1, len, out, q);
        pos := pos + len + 1;
      }
      rest := rest - 1;
    }
    ExpandStep(msg, start, whole, size, pos, rest, out[..q], indir, enclen);
    if !indir {
      enclen := pos + 1 - start;
    }
  }

  /** The whole of ares_expand_name: the NUL-terminated text and the encoded length, or a bad name. */
  method ExpandName(msg: seq<byte>, start: nat) returns (ok: bool, s: array?<byte>, enclen: nat)
    requires start <= |msg|
    ensures ok <==> Expand(msg, start).Some?
    ensures ok ==>
      var e := Expand(msg, start).value;
      && s != null && fresh(s) && s[..] == Spell(e.labels) + [0]
      && enclen == e.encoded && start + enclen <= |msg|
  {
    var nlen := NameLength(msg, start);
    if nlen < 0 { return false, null, 0; }
    ghost var k: nat :| Ends(msg, start, k);
    ghost var labels := LabelsAt(msg, start, k);
    ExpandIs(msg, start, k);
    EncodedInside(msg, start, k);
    LabelsNonEmpty(msg, start, k);
    DottedEmpty(labels);
    OneByteDotted(labels);
    ok, s := true, new byte[nlen + 1];
    if nlen == 0 {
      s[0] := 0;
      RootLength(msg, start, k);
      enclen := if msg[start] >= 192 then 2 else 1;
    } else {
      ghost var whole := Dotted(labels);
      assert [] + whole == whole;
      enclen := WriteLabels(msg, start, s, EncodedLength(msg, start, k), whole, k);
      s[s.Length - 1] := 0;
      assert s[..] == whole[..|whole| - 1] + [0];
    }
  }

  /** Only the root spells to at most one byte with its period. */
  lemma {:induction false} OneByteDotted(labels: seq<seq<byte>>)
    ensures (forall l :: l in labels ==> l != []) && |Dotted(labels)| <= 1 ==> labels == []
  {
    if labels != [] {
      assert labels[0] in labels;
      EscapeLength(labels[0]);
    }
  }

  /** The root occupies one byte, or two when it is reached through a pointer. */
  lemma RootLength(msg: seq<byte>, start: nat, k: nat)
    requires Ends(msg, start, k) && LabelsAt(msg, start, k) == []
    ensures EncodedLength(msg, start, k) == if msg[start] >= 192 then 2 else 1
  {
  }
}
