/** Does a reply carry the questions of a request (same_questions in ares_process.c)? */
module Questions {
  import opened Seqs
  import opened Names

  function Be16(msg: seq<byte>, pos: nat): nat
    requires pos + 2 <= |msg|
  {
    msg[pos] as nat * 256 + msg[pos + 1]
  }

  function Lower(b: byte): byte {
    if 65 <= b <= 90 then b + 32 else b
  }

  /** The C string in a buffer: what precedes the first NUL. */
  function CString(s: seq<byte>): seq<byte> {
    if s == [] || s[0] == 0 then [] else [s[0]] + CString(s[1..])
  }

  function Lowered(s: seq<byte>): (r: seq<byte>)
    ensures |r| == |s| && forall i :: 0 <= i < |s| ==> r[i] == Lower(s[i])
  {
    seq(|s|, i requires 0 <= i < |s| => Lower(s[i]))
  }

  /** strcasecmp(a, b) == 0 on the C strings in two buffers. */
  ghost predicate SameIgnoringCase(a: seq<byte>, b: seq<byte>) {
    Lowered(CString(a)) == Lowered(CString(b))
  }

  datatype Question = Question(name: seq<byte>, qtype: nat, dnsclass: nat)

  ghost predicate SameQuestion(q: Question, a: Question) {
    SameIgnoringCase(q.name, a.name) && q.qtype == a.qtype && q.dnsclass == a.dnsclass
  }

  /** The question at pos and the position after it, if it decodes inside the message. */
  ghost function QuestionAt(msg: seq<byte>, pos: nat): Option<(Question, nat)>
    requires pos <= |msg|
  {
    match Expand(msg, pos)
    case None => None
    case Some(e) =>
      var p := pos + e.encoded;
      if p + QFIXEDSZ > |msg| then None
      else Some((Question(Spell(e.labels), Be16(msg, p), Be16(msg, p + 2)), p + QFIXEDSZ))
  }

  /** Among the next n questions of the reply, one equals q and none before it fails to decode. */
  ghost predicate Found(q: Question, msg: seq<byte>, pos: nat, n: nat)
    requires pos <= |msg|
    decreases n
  {
    n > 0 &&
    match QuestionAt(msg, pos)
    case None => false
    case Some((a, next)) => SameQuestion(q, a) || Found(q, msg, next, n - 1)
  }

  ghost predicate AllFound(qbuf: seq<byte>, pos: nat, n: nat, abuf: seq<byte>, count: nat)
    requires pos <= |qbuf| && HFIXEDSZ <= |abuf|
    decreases n
  {
    n == 0 ||
    match QuestionAt(qbuf, pos)
    case None => false
    case Some((q, next)) => Found(q, abuf, HFIXEDSZ, count) && AllFound(qbuf, next, n - 1, abuf, count)
  }

  ghost predicate SameQuestions(qbuf: seq<byte>, abuf: seq<byte>) {
    && |qbuf| >= HFIXEDSZ && |abuf| >= HFIXEDSZ
    && Be16(qbuf, 4) == Be16(abuf, 4)
    && AllFound(qbuf, HFIXEDSZ, Be16(qbuf, 4), abuf, Be16(abuf, 4))
  }

  /** Byte by byte comparison of NUL-terminated strings. */
  method StrCaseEqual(a: array<byte>, b: array<byte>) returns (same: bool)
    requires a.Length > 0 && a[a.Length - 1] == 0 && b.Length > 0 && b[b.Length - 1] == 0
    ensures same <==> SameIgnoringCase(a[..], b[..])
  {
    var i := 0;
    while true
      invariant 0 <= i < a.Length && i < b.Length
      invariant SameIgnoringCase(a[..], b[..]) <==> SameIgnoringCase(a[i..], b[i..])
      decreases a.Length - i
    {
      CompareHead(a[i..], b[i..]);
      if Lower(a[i]) != Lower(b[i]) { return false; }
      if a[i] == 0 { return true; }
      assert a[i..][1..] == a[i + 1..] && b[i..][1..] == b[i + 1..];
      i := i + 1;
    }
  }

  lemma CompareHead(a: seq<byte>, b: seq<byte>)
    requires a != [] && b != []
    ensures Lower(a[0]) != Lower(b[0]) ==> !SameIgnoringCase(a, b)
    ensures Lower(a[0]) == Lower(b[0]) ==>
      (SameIgnoringCase(a, b) <==> a[0] == 0 || SameIgnoringCase(a[1..], b[1..]))
  {
    var x, y := CString(a), CString(b);
    if Lower(a[0]) != Lower(b[0]) {
      if x != [] && y != [] { assert Lowered(x)[0] != Lowered(y)[0]; }
    } else if a[0] != 0 {
      var u, v := CString(a[1..]), CString(b[1..]);
      assert Lowered(x) == [Lower(a[0])] + Lowered(u);
      assert Lowered(y) == [Lower(b[0])] + Lowered(v);
      assert Lowered(x)[1..] == Lowered(u) && Lowered(y)[1..] == Lowered(v);
    }
  }

  /** Decoding one question: expand_name, the bounds check, and the two 16-bit fields. */
  method ReadQuestion(msg: seq<byte>, pos: nat) returns (ok: bool, name: array?<byte>, qtype: nat, dnsclass: nat, next: nat)
    requires pos <= |msg|
    ensures ok <==> QuestionAt(msg, pos).Some?
    ensures ok ==> next <= |msg| && name != null && name.Length > 0 && name[name.Length - 1] == 0
    ensures ok ==> QuestionAt(msg, pos) == Some((Question(name[..name.Length - 1], qtype, dnsclass), next))
  {
    var enclen;
    qtype, dnsclass, next := 0, 0, 0;
    ok, name, enclen := ExpandName(msg, pos);
    if !ok { return; }
    var p := pos + enclen;
    if p + QFIXEDSZ > |msg| {
      ok := false;
      return;
    }
    qtype, dnsclass, next := Be16(msg, p), Be16(msg, p + 2), p + QFIXEDSZ;
  }

  /** The terminating NUL of a buffer does not change the C string in it. */
  lemma {:induction false} TerminatedCString(s: seq<byte>)
    ensures CString(s + [0]) == CString(s)
  {
    if s != [] && s[0] != 0 {
      assert (s + [0])[1..] == s[1..] + [0];
      TerminatedCString(s[1..]);
    }
  }

  /** One turn of the inner loop of same_questions. */
  lemma FoundTurn(q: Question, msg: seq<byte>, pos: nat, n: nat)
    requires pos <= |msg|
    ensures n == 0 ==> !Found(q, msg, pos, n)
    ensures n > 0 && QuestionAt(msg, pos).None? ==> !Found(q, msg, pos, n)
    ensures n > 0 && QuestionAt(msg, pos).Some? ==>
      var (a, next) := QuestionAt(msg, pos).value;
      Found(q, msg, pos, n) <==>
        (SameIgnoringCase(q.name, a.name) && q.qtype == a.qtype && q.dnsclass == a.dnsclass) || Found(q, msg, next, n - 1)
  {
  }

  /** The inner loop of same_questions. */
  method FindQuestion(name: array<byte>, qtype: nat, dnsclass: nat, abuf: seq<byte>, count: nat) returns (found: bool)
    requires |abuf| >= HFIXEDSZ && name.Length > 0 && name[name.Length - 1] == 0
    ensures found <==> Found(Question(name[..name.Length - 1], qtype, dnsclass), abuf, HFIXEDSZ, count)
  {
    ghost var text := name[..name.Length - 1];
    ghost var q := Question(text, qtype, dnsclass);
    var pos: nat, left: nat := HFIXEDSZ, count;
    hide *;
    while left > 0
      invariant pos <= |abuf|
      invariant Found(q, abuf, HFIXEDSZ, count) <==> Found(q, abuf, pos, left)
    {
      FoundTurn(q, abuf, pos, left);
      var ok, other, atype, aclass, next := ReadQuestion(abuf, pos);
      if !ok { return false; }
      var same := StrCaseEqual(name, other);
      SameBuffers(name[..], other[..]);
      assert name[..][..|name[..]| - 1] == text;
      assert other[..][..|other[..]| - 1] == other[..other.Length - 1];
      if same && qtype == atype && dnsclass == aclass { return true; }
      pos := next;
      left := left - 1;
    }
    FoundTurn(q, abuf, pos, left);
    found := false;
  }

  lemma SameBuffers(a: seq<byte>, b: seq<byte>)
    requires a != [] && a[|a| - 1] == 0 && b != [] && b[|b| - 1] == 0
    ensures SameIgnoringCase(a, b) <==> SameIgnoringCase(a[..|a| - 1], b[..|b| - 1])
  {
    assert a == a[..|a| - 1] + [0] && b == b[..|b| - 1] + [0];
    TerminatedCString(a[..|a| - 1]);
    TerminatedCString(b[..|b| - 1]);
  }

  lemma AllFoundTurn(qbuf: seq<byte>, pos: nat, n: nat, abuf: seq<byte>, count: nat)
    requires pos <= |qbuf| && HFIXEDSZ <= |abuf|
    ensures n == 0 ==> AllFound(qbuf, pos, n, abuf, count)
    ensures n > 0 && QuestionAt(qbuf, pos).None? ==> !AllFound(qbuf, pos, n, abuf, count)
    ensures n > 0 && QuestionAt(qbuf, pos).Some? ==>
      var (q, next) := QuestionAt(qbuf, pos).value;
      AllFound(qbuf, pos, n, abuf, count) <==> Found(q, abuf, HFIXEDSZ, count) && AllFound(qbuf, next, n - 1, abuf, count)
  {
  }

  lemma SameQuestionsIs(qbuf: seq<byte>, abuf: seq<byte>)
    requires HFIXEDSZ <= |qbuf| && HFIXEDSZ <= |abuf|
    ensures SameQuestions(qbuf, abuf) <==>
      Be16(qbuf, 4) == Be16(abuf, 4) && AllFound(qbuf, HFIXEDSZ, Be16(qbuf, 4), abuf, Be16(abuf, 4))
  {
  }

  method CompareQuestions(qbuf: seq<byte>, abuf: seq<byte>) returns (same: bool)
    ensures same <==> SameQuestions(qbuf, abuf)
  {
    if |qbuf| < HFIXEDSZ || |abuf| < HFIXEDSZ { return false; }
    var pos: nat := HFIXEDSZ;
    hide *;
    var n, count := Be16(qbuf, 4), Be16(abuf, 4);
    SameQuestionsIs(qbuf, abuf);
    if n != count { return false; }
    var left: nat := n;
    while left > 0
      invariant pos <= |qbuf|
      invariant SameQuestions(qbuf, abuf) <==> AllFound(qbuf, pos, left, abuf, count)
    {
      AllFoundTurn(qbuf, pos, left, abuf, count);
      var ok, name, qtype, dnsclass, next := ReadQuestion(qbuf, pos);
      if !ok { return false; }
      var found := FindQuestion(name, qtype, dnsclass, abuf, count);
      if !found { return false; }
      pos := next;
      left := left - 1;
    }
    AllFoundTurn(qbuf, pos, left, abuf, count);
    same := true;
  }
}
