/**
 * The stream trampolines (rsmpv/src/stream_cb.rs) over a stream with a position that the
 * calls move, and the file they amount to while the stream behaves: a content and a
 * position, with the read() and lseek() behaviour of IEEE Std 1003.1, System Interfaces.
 * Any call on the stream may instead fail, panic, or answer with an arbitrary number.
 */
module Streams {
  import opened NodeModel

  type UInt64 = x: int | 0 <= x < 0x1_0000_0000_0000_0000

  const MPV_ERROR_UNSUPPORTED: int := -18
  const MPV_ERROR_GENERIC: int := -20
  const INT64_MAX: int := 0x7FFF_FFFF_FFFF_FFFF

  function Min(a: int, b: int): int {
    if a <= b then a else b
  }

  /** The least of three numbers. */
  function Least(a: nat, b: nat, c: nat): (m: nat)
    ensures m <= a && m <= b && m <= c && (m == a || m == b || m == c)
  {
    Min(a, Min(b, c))
  }

  // ----- what a trampoline makes of a stream's answer -----

  /** The result of a user's stream method: a value, an error, or a panic. */
  datatype Answer = Value(n: nat) | Unsupported | Failed | Panicked

  /** Buffer length for a request: all of it, as far as a slice can go. */
  function BufferLen(isizeMax: nat, nbytes: UInt64): (n: nat)
    ensures n == if nbytes > isizeMax then isizeMax else nbytes
  {
    var asUsize := if nbytes <= 2 * isizeMax + 1 then nbytes else 2 * isizeMax + 1;
    Min(asUsize, isizeMax)
  }

  function ReadReply(a: Answer, bufLen: nat): int {
    if a.Value? then Min(a.n, bufLen) else -1
  }

  function PositionReply(a: Answer): int {
    match a
    case Value(n) => if n <= INT64_MAX then n else MPV_ERROR_GENERIC
    case Unsupported => MPV_ERROR_UNSUPPORTED
    case _ => MPV_ERROR_GENERIC
  }

  function SizeReply(a: Answer): int {
    if a.Value? && a.n <= INT64_MAX then a.n else MPV_ERROR_UNSUPPORTED
  }

  /** Whatever a stream answers, libmpv is never told of more bytes than it asked for or
      than the buffer holds; a read is reported as failed exactly when it failed; a position
      or a size is passed on exactly when there is one and it fits 64 bits, and otherwise
      becomes an error, the one for unsupported seeks exactly when that was the answer. */
  lemma RepliesAreSafe(isizeMax: nat, nbytes: UInt64, a: Answer)
    requires isizeMax <= INT64_MAX
    ensures var r := ReadReply(a, BufferLen(isizeMax, nbytes));
            && -1 <= r <= nbytes && r <= isizeMax && r <= INT64_MAX && (r >= 0 <==> a.Value?)
            && (a.Value? ==> r == Least(a.n, nbytes, isizeMax))
    ensures var r := PositionReply(a);
            && (r >= 0 <==> a.Value? && a.n < 0x8000_0000_0000_0000) && (r >= 0 ==> r == a.n)
            && (r < 0 ==> r == if a.Unsupported? then -18 else -20)
    ensures var r := SizeReply(a);
            && (r >= 0 <==> a.Value? && a.n < 0x8000_0000_0000_0000) && (r >= 0 ==> r == a.n)
            && (r < 0 ==> r == -18)
  {
  }

  // ----- the abstract file -----

  datatype File = File(content: seq<Byte>, pos: nat)

  function Start(f: File): nat {
    if f.pos <= |f.content| then f.pos else |f.content|
  }

  function Rest(f: File): seq<Byte> {
    f.content[Start(f)..]
  }

  datatype Call = ReadCall(nbytes: UInt64) | SeekCall(offset: Int64) | SizeCall

  datatype Reply = Data(bytes: seq<Byte>) | Number(n: int)

  function Serve(isizeMax: nat, f: File, c: Call): (File, Reply) {
    match c
    case ReadCall(nbytes) =>
      var n := Min(BufferLen(isizeMax, nbytes), |Rest(f)|);
      (f.(pos := f.pos + n), Data(Rest(f)[..n]))
    case SeekCall(offset) =>
      if offset < 0 then (f, Number(MPV_ERROR_GENERIC)) else (f.(pos := offset), Number(offset))
    case SizeCall => (f, Number(if |f.content| <= INT64_MAX then |f.content| else MPV_ERROR_UNSUPPORTED))
  }

  function ServeAll(isizeMax: nat, f: File, calls: seq<Call>): (r: (File, seq<Reply>))
    ensures |r.1| == |calls|
    decreases |calls|
  {
    if calls == [] then (f, [])
    else
      var (g, before) := ServeAll(isizeMax, f, calls[..|calls| - 1]);
      var (h, last) := Serve(isizeMax, g, calls[|calls| - 1]);
      (h, before + [last])
  }

  // ----- the objects -----

  /** What one call on a stream does: what a cursor does, or something else. */
  datatype Behaviour = Normal | Odd(answer: Answer, pos: nat, filled: seq<Byte>)

  /** The stream's answer, where a cursor would give `normal`. */
  function Ask(b: Behaviour, normal: Answer): Answer {
    if b.Normal? then normal else b.answer
  }

  /** A user's `Read + Seek`: `std::io::Cursor` over bytes, except where its behaviour differs. */
  class Source {
    const content: seq<Byte>
    const behaviour: nat -> Behaviour
    var pos: nat
    /** Calls so far. */
    var op: nat

    function View(): File
      reads this
    {
      File(content, pos)
    }

    ghost predicate Behaves() {
      forall n :: behaviour(n).Normal?
    }

    constructor (content: seq<Byte>, behaviour: nat -> Behaviour)
      ensures View() == File(content, 0) && op == 0 && this.behaviour == behaviour
    {
      this.content, this.behaviour := content, behaviour;
      pos, op := 0, 0;
    }

    /** At most bufLen bytes of the buffer are written, whatever the answer says. */
    method Read(bufLen: nat) returns (a: Answer, bytes: seq<Byte>)
      modifies this
      ensures op == old(op) + 1 && |bytes| <= bufLen
      ensures a == Ask(behaviour(old(op)), Value(Min(bufLen, |Rest(old(View()))|)))
      ensures behaviour(old(op)).Normal? ==>
        bytes == Rest(old(View()))[..Min(bufLen, |Rest(old(View()))|)] && pos == old(pos) + |bytes|
    {
      var b := behaviour(op);
      op := op + 1;
      match b {
        case Normal =>
          var start := if pos <= |content| then pos else |content|;
          var n := Min(bufLen, |content| - start);
          bytes := content[start..][..n];
          pos := pos + n;
          a := Value(n);
        case Odd(answer, after, filled) =>
          a, pos := answer, after;
          bytes := if |filled| <= bufLen then filled else filled[..bufLen];
      }
    }

    /** seek(Start(to)), seek(End(0)) and stream_position: to a place, or to where it is. */
    method SeekTo(to: nat) returns (a: Answer)
      modifies this
      ensures op == old(op) + 1 && a == Ask(behaviour(old(op)), Value(to))
      ensures behaviour(old(op)).Normal? ==> pos == to
    {
      var b := behaviour(op);
      op := op + 1;
      match b {
        case Normal => a, pos := Value(to), to;
        case Odd(answer, after, _) => a, pos := answer, after;
      }
    }
  }

  /** `.ok()?`: a failure is no size; a panic goes on. */
  function NoSize(a: Answer): Answer {
    if a.Panicked? then Panicked else Failed
  }

  class IoStream {
    const inner: Source

    constructor (inner: Source)
      ensures this.inner == inner
    {
      this.inner := inner;
    }

    /** Note the position, find the end, and come back. */
    method Size() returns (r: Answer)
      modifies inner
      ensures r == SizeAnswer(inner.behaviour, old(inner.op), old(inner.pos), |inner.content|)
      ensures ThreeSeeks(inner.behaviour, old(inner.op), old(inner.pos), |inner.content|, r)
      ensures SeeksNormal(inner.behaviour, old(inner.op)) ==>
        r == Value(|inner.content|) && inner.View() == old(inner.View())
    {
      var position := inner.SeekTo(inner.pos);
      if !position.Value? { return NoSize(position); }
      var end := inner.SeekTo(|inner.content|);
      if !end.Value? { return NoSize(end); }
      var back := inner.SeekTo(position.n);
      if !back.Value? { return NoSize(back); }
      r := end;
    }
  }

  /** A value exactly when the position, the seek to the end and the seek back all give one, and
      then that of the seek to the end; a panic exactly when the first failure is one. */
  predicate ThreeSeeks(behaviour: nat -> Behaviour, op: nat, pos: nat, end: nat, r: Answer) {
    var a := Ask(behaviour(op), Value(pos));
    var b := Ask(behaviour(op + 1), Value(end));
    && (r.Value? <==> a.Value? && b.Value? && Ask(behaviour(op + 2), Value(a.n)).Value?)
    && (r.Value? ==> r.n == b.n)
    && (r.Panicked? <==>
          || a.Panicked? || (a.Value? && b.Panicked?)
          || (a.Value? && b.Value? && Ask(behaviour(op + 2), Value(a.n)).Panicked?))
  }

  /** The three calls that a size query makes are those of a cursor. */
  predicate SeeksNormal(behaviour: nat -> Behaviour, op: nat) {
    behaviour(op).Normal? && behaviour(op + 1).Normal? && behaviour(op + 2).Normal?
  }

  /** The size a stream reports: a value exactly when all three seeks give one, and then
      what the seek to the end answered. */
  function SizeAnswer(behaviour: nat -> Behaviour, op: nat, pos: nat, end: nat): Answer {
    var a := Ask(behaviour(op), Value(pos));
    var b := Ask(behaviour(op + 1), Value(end));
    if !a.Value? then NoSize(a)
    else if !b.Value? then NoSize(b)
    else
      var c := Ask(behaviour(op + 2), Value(a.n));
      if c.Value? then b else NoSize(c)
  }

  // ----- the trampolines -----

  method ReadTrampoline(isizeMax: nat, s: IoStream, nbytes: UInt64) returns (ret: int, buf: seq<Byte>)
    requires isizeMax <= INT64_MAX
    modifies s.inner
    ensures -1 <= ret <= nbytes && ret <= isizeMax && |buf| <= nbytes && |buf| <= isizeMax
    ensures var a := Ask(s.inner.behaviour(old(s.inner.op)),
                         Value(Min(BufferLen(isizeMax, nbytes), |Rest(old(s.inner.View()))|)));
            ret == if a.Value? then Least(a.n, nbytes, isizeMax) else -1
    ensures s.inner.behaviour(old(s.inner.op)).Normal? ==>
      (s.inner.View(), Data(buf)) == Serve(isizeMax, old(s.inner.View()), ReadCall(nbytes)) && ret == |buf|
  {
    var len := BufferLen(isizeMax, nbytes);
    var a;
    a, buf := s.inner.Read(len);
    ret := ReadReply(a, len);
  }

  method SeekTrampoline(isizeMax: nat, s: IoStream, offset: Int64) returns (ret: int)
    modifies s.inner
    ensures offset < 0 ==>
      ret == MPV_ERROR_GENERIC && s.inner.View() == old(s.inner.View()) && s.inner.op == old(s.inner.op)
    ensures offset >= 0 ==> ret == PositionReply(Ask(s.inner.behaviour(old(s.inner.op)), Value(offset)))
    ensures s.inner.behaviour(old(s.inner.op)).Normal? ==>
      (s.inner.View(), Number(ret)) == Serve(isizeMax, old(s.inner.View()), SeekCall(offset))
  {
    if offset < 0 {
      return MPV_ERROR_GENERIC;
    }
    var a := s.inner.SeekTo(offset);
    ret := PositionReply(a);
  }

  method SizeTrampoline(isizeMax: nat, s: IoStream) returns (ret: int)
    modifies s.inner
    ensures ret == SizeReply(SizeAnswer(s.inner.behaviour, old(s.inner.op), old(s.inner.pos), |s.inner.content|))
    ensures SeeksNormal(s.inner.behaviour, old(s.inner.op)) ==>
      (s.inner.View(), Number(ret)) == Serve(isizeMax, old(s.inner.View()), SizeCall)
  {
    var a := s.Size();
    ret := SizeReply(a);
  }

  /** libmpv's use of an open stream that behaves: any sequence of calls is served as the file does. */
  method Drive(isizeMax: nat, s: IoStream, calls: seq<Call>) returns (replies: seq<Reply>)
    requires isizeMax <= INT64_MAX && s.inner.Behaves()
    modifies s.inner
    ensures (s.inner.View(), replies) == ServeAll(isizeMax, old(s.inner.View()), calls)
  {
    replies := [];
    for i := 0 to |calls|
      invariant (s.inner.View(), replies) == ServeAll(isizeMax, old(s.inner.View()), calls[..i])
    {
      assert calls[..i + 1][..i] == calls[..i];
      match calls[i] {
        case ReadCall(nbytes) =>
          var ret, buf := ReadTrampoline(isizeMax, s, nbytes);
          replies := replies + [Data(buf)];
        case SeekCall(offset) =>
          var ret := SeekTrampoline(isizeMax, s, offset);
          replies := replies + [Number(ret)];
        case SizeCall =>
          var ret := SizeTrampoline(isizeMax, s);
          replies := replies + [Number(ret)];
      }
    }
    assert calls[..|calls|] == calls;
  }

  // ----- what the file promises -----

  /** A read returns the bytes at the position, as many as were asked for, fit a buffer and are
      there; only an empty request or the end of the content gives an empty answer; then the
      position moves on by exactly what was returned. */
  lemma ReadIsPosix(isizeMax: nat, f: File, nbytes: UInt64)
    requires isizeMax > 0
    ensures var (g, r) := Serve(isizeMax, f, ReadCall(nbytes));
            && r.Data? && |r.bytes| == Least(nbytes, isizeMax, if f.pos < |f.content| then |f.content| - f.pos else 0)
            && (forall k :: 0 <= k < |r.bytes| ==> f.pos + k < |f.content| && r.bytes[k] == f.content[f.pos + k])
            && (r.bytes == [] <==> nbytes == 0 || f.pos >= |f.content|)
            && g == File(f.content, f.pos + |r.bytes|)
            && Rest(f) == r.bytes + Rest(g)
  {
  }

  /** A seek goes to the offset, past the end too, and a negative one nowhere; then a read
      starts there.  A size query tells the length and moves nothing. */
  lemma SeekIsPosix(isizeMax: nat, f: File, offset: Int64)
    ensures offset < 0 ==> Serve(isizeMax, f, SeekCall(offset)) == (f, Number(-20))
    ensures offset >= 0 ==> Serve(isizeMax, f, SeekCall(offset)) == (File(f.content, offset), Number(offset))
    ensures |f.content| < 0x8000_0000_0000_0000 ==> Serve(isizeMax, f, SizeCall) == (f, Number(|f.content|))
    ensures |f.content| >= 0x8000_0000_0000_0000 ==> Serve(isizeMax, f, SizeCall) == (f, Number(-18))
  {
  }

  /** The bytes delivered by reading with the given request sizes until one read returns none. */
  function Drain(isizeMax: nat, f: File, request: nat -> UInt64, k: nat): seq<Byte>
    requires isizeMax > 0
    decreases |Rest(f)|
  {
    var (g, r) := Serve(isizeMax, f, ReadCall(request(k)));
    if r.Data? && r.bytes != [] then r.bytes + Drain(isizeMax, g, request, k + 1) else []
  }

  /** With positive requests, of whatever sizes, reading until an empty read delivers exactly
      the remaining content. */
  lemma {:induction false} DrainDeliversRest(isizeMax: nat, f: File, request: nat -> UInt64, k: nat)
    requires isizeMax > 0 && forall n: nat :: request(n) > 0
    ensures Drain(isizeMax, f, request, k) == if f.pos <= |f.content| then f.content[f.pos..] else []
    decreases |Rest(f)|
  {
    ReadIsPosix(isizeMax, f, request(k));
    var (g, r) := Serve(isizeMax, f, ReadCall(request(k)));
    if r.bytes != [] {
      DrainDeliversRest(isizeMax, g, request, k + 1);
    }
  }

  /** Serving one list of calls after another. */
  lemma {:induction false} ServeAppend(isizeMax: nat, f: File, a: seq<Call>, b: seq<Call>)
    ensures var (g, first) := ServeAll(isizeMax, f, a);
            var (h, second) := ServeAll(isizeMax, g, b);
            ServeAll(isizeMax, f, a + b) == (h, first + second)
    decreases |b|
  {
    if b == [] {
      assert a + b == a;
      var first := ServeAll(isizeMax, f, a).1;
      var none: seq<Reply> := [];
      assert first + none == first;
    } else {
      var init, last := b[..|b| - 1], b[|b| - 1];
      assert (a + b)[..|a + b| - 1] == a + init && (a + b)[|a + b| - 1] == last;
      ServeAppend(isizeMax, f, a, init);
      var (g, first) := ServeAll(isizeMax, f, a);
      var (h, second) := ServeAll(isizeMax, g, init);
      var (_, reply) := Serve(isizeMax, h, last);
      assert (first + second) + [reply] == first + (second + [reply]);
    }
  }

  lemma {:induction false} ContentKept(isizeMax: nat, f: File, calls: seq<Call>)
    ensures ServeAll(isizeMax, f, calls).0.content == f.content
    decreases |calls|
  {
    if calls != [] { ContentKept(isizeMax, f, calls[..|calls| - 1]); }
  }

  /** Asking for the size, or seeking to a negative offset, anywhere in a sequence of calls,
      changes nothing that other calls can see. */
  lemma InvisibleCalls(isizeMax: nat, f: File, before: seq<Call>, c: Call, after: seq<Call>)
    requires c.SizeCall? || (c.SeekCall? && c.offset < 0)
    ensures var (g, mixed) := ServeAll(isizeMax, f, before + [c] + after);
            var (h, without) := ServeAll(isizeMax, f, before + after);
            var reply := Number(if c.SeekCall? then MPV_ERROR_GENERIC else SizeReply(Value(|f.content|)));
            g == h && mixed == without[..|before|] + [reply] + without[|before|..]
  {
    var (g, first) := ServeAll(isizeMax, f, before);
    ContentKept(isizeMax, f, before);
    ServeAppend(isizeMax, f, before, after);
    ServeAppend(isizeMax, f, before, [c]);
    ServeAppend(isizeMax, f, before + [c], after);
    OneCall(isizeMax, g, c);
  }

  lemma OneCall(isizeMax: nat, f: File, c: Call)
    ensures ServeAll(isizeMax, f, [c]) == (Serve(isizeMax, f, c).0, [Serve(isizeMax, f, c).1])
  {
    var one := [c];
    assert one[..|one| - 1] == [] && one[|one| - 1] == c;
    var none: seq<Reply> := ServeAll(isizeMax, f, one[..|one| - 1]).1;
    var reply := Serve(isizeMax, f, c).1;
    assert none + [reply] == [reply];
  }
}
