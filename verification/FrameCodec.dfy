/**
 The length-prefixed frame codec of libs/transport: a four-byte big-endian
 length followed by the payload. `FrameDecoder` is fed a byte stream in
 arbitrary pieces; `ParseStream` is the parser that sees the whole stream.
 */
module FrameCodec {
  import opened Prelude

  const PREFIX: nat := 4
  const DEFAULT_MAX_FRAME_BYTES: nat := 1024 * 1024

  datatype Error = FrameTooLarge | MaxSizeNotPositive

  /** The four bytes of a 32-bit length, most significant first. */
  function LengthPrefix(n: nat): (r: Bytes)
    requires n <= U32_MAX
    ensures |r| == PREFIX
  {
    [n / 0x100_0000, n / 0x1_0000 % 0x100, n / 0x100 % 0x100, n % 0x100]
  }

  function ReadLength(s: Bytes): (n: nat)
    requires |s| >= PREFIX
    ensures n <= U32_MAX
  {
    var b0: int, b1: int, b2: int, b3: int := s[0], s[1], s[2], s[3];
    b0 * 0x100_0000 + b1 * 0x1_0000 + b2 * 0x100 + b3
  }

  /** One frame on the wire. */
  function Frame(payload: Bytes): (r: Bytes)
    requires |payload| <= U32_MAX
  {
    LengthPrefix(|payload|) + payload
  }

  /** `frames` are complete, `rest` is what follows them; `ok` is false when
      `rest` starts with a length above the limit. */
  datatype Parse = Parse(frames: seq<Bytes>, rest: Bytes, ok: bool)

  function ParseStream(limit: nat, s: Bytes): (p: Parse)
    decreases |s|
  {
    if |s| < PREFIX then Parse([], s, true)
    else
      var n := ReadLength(s);
      if n > limit then Parse([], s, false)
      else if |s| < PREFIX + n then Parse([], s, true)
      else
        var p := ParseStream(limit, s[PREFIX + n..]);
        p.(frames := [s[PREFIX..PREFIX + n]] + p.frames)
  }

  method EncodeFrame(payload: Bytes) returns (r: Result<Bytes, Error>)
    ensures r.Ok? <==> |payload| <= U32_MAX
    ensures r.Ok? ==> r.value == Frame(payload)
    ensures r.Ok? ==>
      && |r.value| == 4 + |payload| && r.value[4..] == payload
      && var b0: int, b1: int, b2: int, b3: int := r.value[0], r.value[1], r.value[2], r.value[3];
         |payload| == ((b0 * 256 + b1) * 256 + b2) * 256 + b3
    ensures r.Err? ==> r.error == FrameTooLarge
  {
    if |payload| > U32_MAX {
      return Err(FrameTooLarge);
    }
    var length := |payload|;
    var frame: Bytes := [];
    frame := frame + [length / 0x100_0000 % 0x100];
    frame := frame + [length / 0x1_0000 % 0x100];
    frame := frame + [length / 0x100 % 0x100];
    frame := frame + [length % 0x100];
    frame := frame + payload;
    return Ok(frame);
  }

  class FrameDecoder {
    const maxFrameBytes: nat
    var buffer: Bytes

    constructor (limit: nat)
      requires 0 < limit <= U32_MAX
      ensures maxFrameBytes == limit && buffer == []
    {
      maxFrameBytes := limit;
      buffer := [];
    }

    /** The public constructor: a zero limit is refused. */
    static method Make(limit: nat) returns (r: Result<FrameDecoder, Error>)
      requires limit <= U32_MAX
      ensures r.Ok? <==> limit > 0
      ensures r.Ok? ==> fresh(r.value) && r.value.maxFrameBytes == limit && r.value.buffer == []
      ensures r.Err? ==> r.error == MaxSizeNotPositive
    {
      if limit == 0 {
        return Err(MaxSizeNotPositive);
      }
      var decoder := new FrameDecoder(limit);
      return Ok(decoder);
    }

    /** Appends `bytes` and takes complete frames off the front of the buffer.
        On an over-long prefix the frames taken by this call are lost and the
        buffer is left standing at that prefix. */
    method Push(bytes: Bytes) returns (r: Result<seq<Bytes>, Error>)
      modifies this
      ensures var p := ParseStream(maxFrameBytes, old(buffer) + bytes);
        buffer == p.rest && r == if p.ok then Ok(p.frames) else Err(FrameTooLarge)
    {
      buffer := buffer + bytes;
      var frames: seq<Bytes> := [];
      ghost var whole := ParseStream(maxFrameBytes, buffer);
      while |buffer| >= PREFIX
        invariant whole == var p := ParseStream(maxFrameBytes, buffer); p.(frames := frames + p.frames)
        decreases |buffer|
      {
        var length := ReadLength(buffer);
        if length > maxFrameBytes {
          return Err(FrameTooLarge);
        }
        var frameSize := PREFIX + length;
        if |buffer| < frameSize {
          break;
        }
        ghost var p := ParseStream(maxFrameBytes, buffer);
        ghost var q := ParseStream(maxFrameBytes, buffer[frameSize..]);
        assert frames + p.frames == frames + [buffer[PREFIX..frameSize]] + q.frames;
        frames := frames + [buffer[PREFIX..frameSize]];
        buffer := buffer[frameSize..];
      }
      assert frames + [] == frames;
      return Ok(frames);
    }
  }

  // ---------------------------------------------------------------- refinement

  /** What a sequence of pushes delivers in total, from a given buffer. The
      owner of a decoder stops at the first failing push. */
  function PushAll(limit: nat, buffer: Bytes, cuts: seq<Bytes>): (p: Parse)
    decreases |cuts|
  {
    if cuts == [] then Parse([], buffer, true)
    else
      var first := ParseStream(limit, buffer + cuts[0]);
      if !first.ok then Parse([], first.rest, false)
      else
        var p := PushAll(limit, first.rest, cuts[1..]);
        p.(frames := first.frames + p.frames)
  }

  lemma {:induction false} RestIsDrained(limit: nat, s: Bytes)
    ensures var p := ParseStream(limit, s);
      ParseStream(limit, p.rest) == Parse([], p.rest, p.ok)
    ensures var p := ParseStream(limit, s); p.ok ==> |p.rest| < PREFIX + limit
    decreases |s|
  {
    if |s| >= PREFIX && ReadLength(s) <= limit && |s| >= PREFIX + ReadLength(s) {
      RestIsDrained(limit, s[PREFIX + ReadLength(s)..]);
    }
  }

  /** `p` parsed a prefix; `whole` is the same parse carried on over `t`. */
  predicate Resumes(limit: nat, p: Parse, t: Bytes, whole: Parse) {
    if p.ok then
      var q := ParseStream(limit, p.rest + t);
      whole == q.(frames := p.frames + q.frames)
    else
      whole == Parse(p.frames, p.rest + t, false)
  }

  lemma ResumesUnderPrefix(limit: nat, p: Parse, t: Bytes, whole: Parse, head: Bytes)
    requires Resumes(limit, p, t, whole)
    ensures Resumes(limit, p.(frames := [head] + p.frames), t, whole.(frames := [head] + whole.frames))
  {
    if p.ok {
      var q := ParseStream(limit, p.rest + t);
      assert [head] + (p.frames + q.frames) == ([head] + p.frames) + q.frames;
    }
  }

  /** Parsing can be suspended after any prefix and resumed from what is left. */
  lemma {:induction false} ParseSplit(limit: nat, s: Bytes, t: Bytes)
    ensures Resumes(limit, ParseStream(limit, s), t, ParseStream(limit, s + t))
    decreases |s|
  {
    var q := ParseStream(limit, s + t);
    assert [] + q.frames == q.frames;
    if |s| >= PREFIX {
      var n := ReadLength(s);
      assert ReadLength(s + t) == n;
      if n <= limit && |s| >= PREFIX + n {
        var head, tail := s[PREFIX..PREFIX + n], s[PREFIX + n..];
        assert (s + t)[PREFIX + n..] == tail + t;
        assert (s + t)[PREFIX..PREFIX + n] == head;
        ParseSplit(limit, tail, t);
        ResumesUnderPrefix(limit, ParseStream(limit, tail), t, ParseStream(limit, tail + t), head);
      }
    }
  }

  /** However the stream is cut, the pushes together deliver what the
      whole-stream parser finds: they all succeed exactly when it does, then
      with the same frames and leftover; otherwise what was delivered before
      the failing push is a prefix of the frames before the over-long length. */
  lemma {:induction false} PushAllRefinesParse(limit: nat, buffer: Bytes, cuts: seq<Bytes>)
    requires ParseStream(limit, buffer) == Parse([], buffer, true)
    ensures var p := PushAll(limit, buffer, cuts);
      var whole := ParseStream(limit, buffer + Concat(cuts));
      && p.ok == whole.ok
      && (p.ok ==> p == whole && |p.rest| < PREFIX + limit)
      && p.frames <= whole.frames
    decreases |cuts|
  {
    if cuts == [] {
      assert buffer + Concat(cuts) == buffer;
      RestIsDrained(limit, buffer);
    } else {
      var s := buffer + cuts[0];
      var first := ParseStream(limit, s);
      assert buffer + Concat(cuts) == s + Concat(cuts[1..]);
      ParseSplit(limit, s, Concat(cuts[1..]));
      RestIsDrained(limit, s);
      if first.ok {
        PushAllRefinesParse(limit, first.rest, cuts[1..]);
      }
    }
  }

  /** A decoder that refused a prefix refuses every later push, whatever it holds. */
  lemma OverlongPrefixIsFinal(limit: nat, s: Bytes, t: Bytes)
    requires !ParseStream(limit, s).ok
    ensures var p := ParseStream(limit, ParseStream(limit, s).rest + t);
      !p.ok && p.frames == []
  {
    RestIsDrained(limit, s);
    ParseSplit(limit, ParseStream(limit, s).rest, t);
  }

  // ---------------------------------------------------------------- round trip

  predicate Encodable(payloads: seq<Bytes>) {
    forall i :: 0 <= i < |payloads| ==> |payloads[i]| <= U32_MAX
  }

  /** The wire image of a sequence of payloads. */
  function EncodeAll(payloads: seq<Bytes>): (r: Bytes)
    requires Encodable(payloads)
  {
    if payloads == [] then [] else Frame(payloads[0]) + EncodeAll(payloads[1..])
  }

  lemma DigitsOf(n: nat)
    ensures n == ((n / 0x100_0000 * 0x100 + n / 0x1_0000 % 0x100) * 0x100 + n / 0x100 % 0x100) * 0x100 + n % 0x100
  {
  }

  lemma ReadOwnLength(n: nat, tail: Bytes)
    requires n <= U32_MAX
    ensures ReadLength(LengthPrefix(n) + tail) == n
  {
    var s := LengthPrefix(n) + tail;
    assert s[0] == n / 0x100_0000 && s[1] == n / 0x1_0000 % 0x100;
    assert s[2] == n / 0x100 % 0x100 && s[3] == n % 0x100;
    DigitsOf(n);
  }

  lemma ParseFrame(limit: nat, payload: Bytes, tail: Bytes)
    requires |payload| <= U32_MAX
    ensures var p := ParseStream(limit, tail);
      ParseStream(limit, Frame(payload) + tail) ==
        if |payload| <= limit then p.(frames := [payload] + p.frames)
        else Parse([], Frame(payload) + tail, false)
  {
    var s := Frame(payload) + tail;
    assert s == LengthPrefix(|payload|) + (payload + tail);
    ReadOwnLength(|payload|, payload + tail);
    assert s[PREFIX..PREFIX + |payload|] == payload;
    assert s[PREFIX + |payload|..] == tail;
  }

  /** The number of leading payloads that fit the limit. */
  function Fitting(limit: nat, payloads: seq<Bytes>): (k: nat)
    ensures k <= |payloads|
    ensures forall i :: 0 <= i < k ==> |payloads[i]| <= limit
    ensures k < |payloads| ==> |payloads[k]| > limit
  {
    if payloads == [] || |payloads[0]| > limit then 0 else 1 + Fitting(limit, payloads[1..])
  }

  lemma ParseNothing(limit: nat)
    ensures ParseStream(limit, []) == Parse([], [], true)
  {
  }

  /** Encoded payloads come back exactly, and the parse fails at the first one
      above the limit. */
  lemma {:induction false} DecodeEncoded(limit: nat, payloads: seq<Bytes>)
    requires Encodable(payloads)
    ensures var p := ParseStream(limit, EncodeAll(payloads));
      var k := Fitting(limit, payloads);
      p == Parse(payloads[..k], EncodeAll(payloads[k..]), k == |payloads|)
    decreases |payloads|
  {
    ParseNothing(limit);
    hide ParseStream, Frame;
    if payloads != [] {
      ParseFrame(limit, payloads[0], EncodeAll(payloads[1..]));
      if |payloads[0]| <= limit {
        DecodeEncoded(limit, payloads[1..]);
        var k := Fitting(limit, payloads);
        assert payloads[..k] == [payloads[0]] + payloads[1..][..k - 1];
        assert payloads[k..] == payloads[1..][k - 1..];
      } else {
        assert payloads[0..] == payloads;
      }
    }
  }

  lemma {:induction false} EncodeAllAppend(payloads: seq<Bytes>, more: seq<Bytes>)
    requires Encodable(payloads) && Encodable(more)
    ensures Encodable(payloads + more)
    ensures EncodeAll(payloads + more) == EncodeAll(payloads) + EncodeAll(more)
    decreases |payloads|
  {
    if payloads == [] {
      assert payloads + more == more;
    } else {
      var whole := payloads + more;
      assert whole[0] == payloads[0] && whole[1..] == payloads[1..] + more;
      EncodeAllAppend(payloads[1..], more);
      var first, rest := Frame(payloads[0]), EncodeAll(payloads[1..]);
      assert first + (rest + EncodeAll(more)) == (first + rest) + EncodeAll(more);
    }
  }

  /** Any cut of the bytes of fitting payloads delivers exactly those payloads. */
  lemma CutRoundTrip(limit: nat, payloads: seq<Bytes>, cuts: seq<Bytes>)
    requires Encodable(payloads)
    requires Concat(cuts) == EncodeAll(payloads)
    ensures PushAll(limit, [], cuts).ok <==> Fitting(limit, payloads) == |payloads|
    ensures PushAll(limit, [], cuts).ok ==> PushAll(limit, [], cuts) == Parse(payloads, [], true)
  {
    PushAllRefinesParse(limit, [], cuts);
    assert [] + Concat(cuts) == Concat(cuts);
    DecodeEncoded(limit, payloads);
    assert payloads[..|payloads|] == payloads;
  }

  /** A partly transmitted stream delivers a prefix of the payloads, in any cut. */
  lemma PrefixRoundTrip(limit: nat, payloads: seq<Bytes>, sent: Bytes, unsent: Bytes, cuts: seq<Bytes>)
    requires Encodable(payloads)
    requires sent + unsent == EncodeAll(payloads)
    requires Concat(cuts) == sent
    ensures PushAll(limit, [], cuts).frames <= payloads
  {
    PushAllRefinesParse(limit, [], cuts);
    assert [] + Concat(cuts) == sent;
    var p, whole := ParseStream(limit, sent), ParseStream(limit, sent + unsent);
    assert p.frames <= whole.frames by { ParseSplit(limit, sent, unsent); }
    assert whole.frames <= payloads by { DecodeEncoded(limit, payloads); }
  }
}
