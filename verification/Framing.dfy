/** Messages with a two-byte length before them, read off a TCP stream in pieces of any size (the framing
    part of read_tcp_data in ares_process.c). */
module Framing {
  import opened Seqs

  function LengthOf(p: seq<byte>): nat
    requires |p| >= 2
  {
    p[0] as nat * 256 + p[1]
  }

  datatype Split = Split(messages: seq<seq<byte>>, rest: seq<byte>)

  /** The messages that a stretch of stream holds in full, and what is left over. Nothing is ever read behind
      a length of zero. */
  function Unframe(p: seq<byte>): (r: Split)
    decreases |p|
  {
    if |p| < 2 || LengthOf(p) == 0 || |p| < 2 + LengthOf(p) then Split([], p)
    else
      var n := LengthOf(p);
      var more := Unframe(p[2 + n..]);
      Split([p[2..2 + n]] + more.messages, more.rest)
  }

  ghost predicate Sendable(m: seq<byte>) { 0 < |m| < 65536 }

  function Prefix(n: nat): seq<byte> {
    [n / 256 % 256, n % 256]
  }

  /** The stream that carries these messages. */
  function Frame(ms: seq<seq<byte>>): seq<byte> {
    if ms == [] then [] else Prefix(|ms[0]|) + ms[0] + Frame(ms[1..])
  }

  lemma UnframeOne(m: seq<byte>, tail: seq<byte>)
    requires Sendable(m)
    ensures var more := Unframe(tail); Unframe(Prefix(|m|) + m + tail) == Split([m] + more.messages, more.rest)
  {
    var p := Prefix(|m|) + m + tail;
    assert LengthOf(p) == |m|;
    assert p[2..2 + |m|] == m && p[2 + |m|..] == tail;
  }

  /** Cutting undoes framing, whatever comes behind. */
  lemma {:induction false} UnframeFrame(ms: seq<seq<byte>>, tail: seq<byte>)
    requires forall i :: 0 <= i < |ms| ==> Sendable(ms[i])
    ensures Unframe(Frame(ms) + tail) == Split(ms + Unframe(tail).messages, Unframe(tail).rest)
  {
    hide *;
    FrameIs(ms);
    if ms == [] {
      assert [] + tail == tail;
      assert ms + Unframe(tail).messages == Unframe(tail).messages;
    } else {
      var rest := Frame(ms[1..]) + tail;
      assert Frame(ms) + tail == Prefix(|ms[0]|) + ms[0] + rest;
      UnframeOne(ms[0], rest);
      UnframeFrame(ms[1..], tail);
      assert [ms[0]] + (ms[1..] + Unframe(tail).messages) == ms + Unframe(tail).messages;
    }
  }

  lemma FrameIs(ms: seq<seq<byte>>)
    ensures ms == [] ==> Frame(ms) == []
    ensures ms != [] ==> Frame(ms) == Prefix(|ms[0]|) + ms[0] + Frame(ms[1..])
  {
  }

  /** Bytes that come later only add to what the earlier ones gave. */
  lemma {:induction false} UnframeAppend(p: seq<byte>, q: seq<byte>)
    ensures var a := Unframe(p);
      var b := Unframe(a.rest + q);
      Unframe(p + q) == Split(a.messages + b.messages, b.rest)
    decreases |p|
  {
    UnframeIs(p);
    hide Unframe;
    if |p| < 2 || LengthOf(p) == 0 || |p| < 2 + LengthOf(p) {
      assert [] + Unframe(p + q).messages == Unframe(p + q).messages;
    } else {
      var n := LengthOf(p);
      var m, t := p[2..2 + n], p[2 + n..];
      UnframeIs(p + q);
      assert LengthOf(p + q) == n && (p + q)[2..2 + n] == m && (p + q)[2 + n..] == t + q;
      hide *;
      UnframeAppend(t, q);
      var a := Unframe(t);
      var b := Unframe(a.rest + q);
      assert [m] + (a.messages + b.messages) == ([m] + a.messages) + b.messages;
    }
  }

  lemma UnframeIs(p: seq<byte>)
    ensures if |p| < 2 || LengthOf(p) == 0 || |p| < 2 + LengthOf(p) then Unframe(p) == Split([], p)
            else
              var n := LengthOf(p);
              var more := Unframe(p[2 + n..]);
              Unframe(p) == Split([p[2..2 + n]] + more.messages, more.rest)
  {
    hide LengthOf;
  }

  /** Nothing is cut from a stream behind the first empty message. */
  lemma {:induction false} StopsAtEmpty(ms: seq<seq<byte>>, k: nat)
    requires k < |ms| && ms[k] == [] && forall i :: 0 <= i < k ==> Sendable(ms[i])
    ensures Unframe(Frame(ms)).messages == ms[..k]
    decreases k
  {
    hide *;
    FrameIs(ms);
    if k == 0 {
      EmptyFirst(Frame(ms[1..]));
      assert Prefix(|ms[0]|) + ms[0] + Frame(ms[1..]) == Prefix(0) + Frame(ms[1..]);
    } else {
      UnframeOne(ms[0], Frame(ms[1..]));
      StopsAtEmpty(ms[1..], k - 1);
      assert [ms[0]] + ms[1..][..k - 1] == ms[..k];
    }
  }

  lemma EmptyFirst(tail: seq<byte>)
    ensures Unframe(Prefix(0) + tail).messages == []
  {
  }

  /** A stream of messages that fit their length field is cut back into all of them if and only if none is
      empty. */
  lemma CutBackIff(ms: seq<seq<byte>>)
    requires forall i :: 0 <= i < |ms| ==> |ms[i]| < 65536
    ensures Unframe(Frame(ms)).messages == ms <==> forall i :: 0 <= i < |ms| ==> ms[i] != []
  {
    if exists i :: 0 <= i < |ms| && ms[i] == [] {
      var k := FirstEmpty(ms);
      StopsAtEmpty(ms, k);
    } else {
      UnframeFrame(ms, []);
      UnframeNothing();
      assert Frame(ms) + [] == Frame(ms) && ms + [] == ms;
    }
    hide Unframe, Frame;
  }

  function FirstEmpty(ms: seq<seq<byte>>): (k: nat)
    requires exists i :: 0 <= i < |ms| && ms[i] == []
    ensures k < |ms| && ms[k] == [] && forall i :: 0 <= i < k ==> ms[i] != []
  {
    if ms[0] == [] then 0
    else
      assert exists i :: 0 <= i < |ms[1..]| && ms[1..][i] == [] by {
        var i :| 0 <= i < |ms| && ms[i] == [];
        assert ms[1..][i - 1] == [];
      }
      1 + FirstEmpty(ms[1..])
  }

  // ---------- the reader ----------

  /** tcp_lenbuf up to tcp_lenbuf_pos, tcp_buffer up to tcp_buffer_pos, and what process_answer was given. */
  datatype Reader = Reader(len: seq<byte>, buf: seq<byte>, delivered: seq<seq<byte>>)

  const FRESH: Reader := Reader([], [], [])

  ghost predicate ReaderOk(r: Reader) {
    && |r.len| <= 2 && (|r.len| < 2 ==> r.buf == [])
    && (|r.len| == 2 ==> |r.buf| <= LengthOf(r.len) && (|r.buf| == LengthOf(r.len) ==> LengthOf(r.len) == 0))
  }

  /** How many bytes the next read asks for. */
  function Want(r: Reader): (n: nat)
    requires ReaderOk(r)
  {
    if |r.len| != 2 then 2 - |r.len| else LengthOf(r.len) - |r.buf|
  }

  /** One read that brought these bytes. */
  function Step(r: Reader, chunk: seq<byte>): Reader
    requires ReaderOk(r) && 0 < |chunk| <= Want(r)
  {
    if |r.len| != 2 then r.(len := r.len + chunk)
    else if |r.buf| + |chunk| == LengthOf(r.len) then Reader([], [], r.delivered + [r.buf + chunk])
    else r.(buf := r.buf + chunk)
  }

  lemma StepOk(r: Reader, chunk: seq<byte>)
    requires ReaderOk(r) && 0 < |chunk| <= Want(r)
    ensures ReaderOk(Step(r, chunk))
  {
  }

  /** The chunks can come from one connection in this order: each is no longer than what was asked for. */
  ghost predicate Arrives(r: Reader, chunks: seq<seq<byte>>)
    requires ReaderOk(r)
    decreases |chunks|
  {
    chunks == [] || (
      && 0 < |chunks[0]| <= Want(r)
      && ReaderOk(Step(r, chunks[0]))
      && Arrives(Step(r, chunks[0]), chunks[1..]))
  }

  ghost function Run(r: Reader, chunks: seq<seq<byte>>): Reader
    requires ReaderOk(r) && Arrives(r, chunks)
    decreases |chunks|
  {
    if chunks == [] then r else Run(Step(r, chunks[0]), chunks[1..])
  }

  function Join(chunks: seq<seq<byte>>): seq<byte> {
    if chunks == [] then [] else chunks[0] + Join(chunks[1..])
  }

  /** The reader holds what cutting the bytes read so far gives. */
  ghost predicate Reads(r: Reader, consumed: seq<byte>) {
    ReaderOk(r) && Unframe(consumed) == Split(r.delivered, r.len + r.buf)
  }

  /** What cutting makes of the bytes held back and one more chunk. */
  lemma CutHeld(r: Reader, chunk: seq<byte>)
    requires ReaderOk(r) && 0 < |chunk| <= Want(r)
    ensures var p := r.len + r.buf + chunk;
      Unframe(p) == if |r.len| == 2 && |r.buf| + |chunk| == LengthOf(r.len) then Split([r.buf + chunk], []) else Split([], p)
  {
    var p := r.len + r.buf + chunk;
    if |r.len| == 2 {
      assert LengthOf(p) == LengthOf(r.len);
      if |r.buf| + |chunk| == LengthOf(r.len) {
        assert p[2..2 + LengthOf(p)] == r.buf + chunk;
        assert p[2 + LengthOf(p)..] == [];
        assert Unframe([]) == Split([], []);
      }
    }
  }

  lemma StepIs(r: Reader, chunk: seq<byte>)
    requires ReaderOk(r) && 0 < |chunk| <= Want(r)
    ensures var s := Step(r, chunk);
      if |r.len| == 2 && |r.buf| + |chunk| == LengthOf(r.len) then
        s.delivered == r.delivered + [r.buf + chunk] && s.len + s.buf == []
      else s.delivered == r.delivered && s.len + s.buf == r.len + r.buf + chunk
  {
  }

  lemma ReadsStep(r: Reader, consumed: seq<byte>, chunk: seq<byte>)
    requires Reads(r, consumed) && 0 < |chunk| <= Want(r)
    ensures Reads(Step(r, chunk), consumed + chunk)
  {
    hide ReaderOk, Step, Want, Unframe, LengthOf;
    StepOk(r, chunk);
    StepIs(r, chunk);
    CutHeld(r, chunk);
    UnframeAppend(consumed, chunk);
    assert r.delivered + [] == r.delivered;
  }

  lemma {:induction false} RunReads(r: Reader, consumed: seq<byte>, chunks: seq<seq<byte>>)
    requires ReaderOk(r) && Reads(r, consumed) && Arrives(r, chunks)
    ensures Reads(Run(r, chunks), consumed + Join(chunks))
    decreases |chunks|
  {
    hide *;
    RunIs(r, chunks);
    if chunks == [] {
      assert consumed + [] == consumed;
    } else {
      ReadsStep(r, consumed, chunks[0]);
      RunReads(Step(r, chunks[0]), consumed + chunks[0], chunks[1..]);
      assert consumed + (chunks[0] + Join(chunks[1..])) == (consumed + chunks[0]) + Join(chunks[1..]);
    }
  }

  lemma RunIs(r: Reader, chunks: seq<seq<byte>>)
    requires ReaderOk(r) && Arrives(r, chunks)
    ensures chunks == [] ==> Run(r, chunks) == r && Join(chunks) == []
    ensures chunks != [] ==>
      && 0 < |chunks[0]| <= Want(r) && ReaderOk(Step(r, chunks[0])) && Arrives(Step(r, chunks[0]), chunks[1..])
      && Run(r, chunks) == Run(Step(r, chunks[0]), chunks[1..]) && Join(chunks) == chunks[0] + Join(chunks[1..])
  {
    hide ReaderOk, Step, Want;
  }

  /** Whatever pieces a stream of non-empty messages arrives in, exactly those messages are handed on, in
      order, and nothing is left over. */
  lemma Segmentation(ms: seq<seq<byte>>, chunks: seq<seq<byte>>)
    requires forall i :: 0 <= i < |ms| ==> Sendable(ms[i])
    requires Arrives(FRESH, chunks) && Join(chunks) == Frame(ms)
    ensures Run(FRESH, chunks) == Reader([], [], ms)
  {
    hide *;
    ReadsFresh();
    RunReads(FRESH, [], chunks);
    ReadsIs(Run(FRESH, chunks), [] + Join(chunks));
    assert [] + Join(chunks) == Frame(ms) + [];
    UnframeFrame(ms, []);
    UnframeNothing();
    assert ms + [] == ms;
    EmptyReader(Run(FRESH, chunks));
  }

  lemma ReadsFresh()
    ensures ReaderOk(FRESH) && Reads(FRESH, [])
  {
    UnframeNothing();
    hide Unframe;
  }

  lemma UnframeNothing()
    ensures Unframe([]) == Split([], [])
  {
  }

  lemma ReadsIs(r: Reader, consumed: seq<byte>)
    requires Reads(r, consumed)
    ensures ReaderOk(r) && Unframe(consumed) == Split(r.delivered, r.len + r.buf)
  {
    hide Unframe;
  }

  lemma EmptyReader(r: Reader)
    ensures r.len + r.buf == [] ==> r == Reader([], [], r.delivered)
  {
  }

  /** At any moment the messages handed on are a beginning of those sent, when what was read is a beginning
      of their stream. */
  lemma PartWay(ms: seq<seq<byte>>, chunks: seq<seq<byte>>)
    requires forall i :: 0 <= i < |ms| ==> Sendable(ms[i])
    requires Arrives(FRESH, chunks) && Join(chunks) <= Frame(ms)
    ensures var r := Run(FRESH, chunks); r.delivered <= ms && ReaderOk(r)
  {
    hide *;
    ReadsFresh();
    RunReads(FRESH, [], chunks);
    var p := Join(chunks);
    assert [] + p == p;
    ReadsIs(Run(FRESH, chunks), p);
    var q := Frame(ms)[|p|..];
    assert p + q == Frame(ms) + [];
    UnframeAppend(p, q);
    UnframeFrame(ms, []);
    UnframeNothing();
    assert ms + [] == ms;
  }

  /** An empty message stops the reader for good: the next read asks for nothing, so that whatever it
      brings is what ReadTcpData takes for the end of the connection. It is the only thing that does. */
  lemma StuckOnEmpty(r: Reader)
    requires ReaderOk(r)
    ensures Want(r) == 0 <==> r.len == [0, 0]
    ensures r.len == [0, 0] <==> forall chunk: seq<byte> :: |chunk| <= Want(r) ==> chunk == []
  {
    if Want(r) > 0 {
      var chunk: seq<byte> := [0];
      assert |chunk| <= Want(r) && chunk != [];
    }
  }

  /** It happens: the stream of a single empty message is not cut back into it, and leaves a new connection
      stuck with nothing delivered. */
  lemma EmptyMessageSticks()
    ensures Unframe(Frame([[]])).messages != [[]]
    ensures var chunks := [Frame([[]])];
      Arrives(FRESH, chunks) && var r := Run(FRESH, chunks); ReaderOk(r) && Want(r) == 0 && r.delivered == []
  {
    var ms: seq<seq<byte>> := [[]];
    assert ms[0] == [];
    CutBackIff(ms);
    var p := Frame(ms);
    assert p == [0, 0] by { assert Frame([]) == []; }
    var r := Step(FRESH, p);
    assert r.len == [0, 0];
    var chunks := [p];
    assert chunks[1..] == [] && Arrives(r, chunks[1..]);
  }

  // ---------- in place ----------

  class TcpInput {
    const lenBuf: array<byte>
    var lenPos: nat
    var length: nat
    var buffer: array<byte>
    var bufferPos: nat
    var delivered: seq<seq<byte>>

    ghost predicate Valid()
      reads this, lenBuf, buffer
    {
      && lenBuf.Length == 2 && lenPos <= 2 && buffer != lenBuf
      && (lenPos < 2 ==> bufferPos == 0)
      && bufferPos <= buffer.Length
      && (lenPos == 2 ==> length == LengthOf(lenBuf[..]) && buffer.Length == length)
      && ReaderOk(View())
    }

    ghost function View(): Reader
      requires lenPos <= lenBuf.Length && bufferPos <= buffer.Length
      reads this, lenBuf, buffer
    {
      Reader(lenBuf[..lenPos], buffer[..bufferPos], delivered)
    }

    constructor ()
      ensures Valid() && View() == FRESH && fresh(lenBuf) && fresh(buffer)
    {
      lenBuf := new byte[2](_ => 0);
      buffer := new byte[0];
      lenPos, length, bufferPos, delivered := 0, 0, 0, [];
    }

    /** One call of read_tcp_data for one server, its read having brought these bytes; an empty chunk is
        end of stream or an error. */
    method ReadTcpData(chunk: seq<byte>) returns (failed: bool)
      requires Valid() && |chunk| <= Want(View())
      modifies this, lenBuf, buffer
      ensures Valid() && (buffer == old(buffer) || fresh(buffer))
      ensures failed <==> chunk == []
      ensures View() == if chunk == [] then old(View()) else Step(old(View()), chunk)
    {
      if chunk == [] {
        return true;
      }
      ghost var r := View();
      StepOk(r, chunk);
      if lenPos != 2 {
        Store(lenBuf, lenPos, chunk);
        lenPos := lenPos + |chunk|;
        assert lenBuf[..lenPos] == r.len + chunk && buffer[..0] == [];
        if lenPos == 2 {
          assert lenBuf[..] == lenBuf[..lenPos];
          length := lenBuf[0] as nat * 256 + lenBuf[1];
          buffer := new byte[length];
          bufferPos := 0;
        }
      } else {
        Store(buffer, bufferPos, chunk);
        bufferPos := bufferPos + |chunk|;
        assert bufferPos == length ==> buffer[..] == buffer[..bufferPos];
        if bufferPos == length {
          delivered := delivered + [buffer[..]];
          buffer := new byte[0];
          lenPos := 0;
          bufferPos := 0;
          assert lenBuf[..lenPos] == [] && buffer[..bufferPos] == [];
        }
      }
      return false;
    }
  }

  /** The bytes that the read puts into the buffer. */
  method Store(a: array<byte>, at: nat, chunk: seq<byte>)
    requires at + |chunk| <= a.Length
    modifies a
    ensures a[..at] == old(a[..at]) && a[..at + |chunk|] == old(a[..at]) + chunk
  {
    forall i | 0 <= i < |chunk| {
      a[at + i] := chunk[i];
    }
  }
}
