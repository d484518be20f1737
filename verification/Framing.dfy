/** Length-prefixed frames on a byte stream. */
module Framing {
  import opened Model
  import opened WireFormat
  import WireLayout
  import WireTheorems

  const PREFIX_SIZE: nat := 4

  /** What reading one frame ends with when it is not a payload. Ended is a stream that stops at a frame boundary,
      Broken a read or write that fails for another reason. */
  datatype Stop = Ended | UnexpectedEnd | TooShort | TooLarge | Broken

  /** The frames at the front of a stream, and how reading them stops. */
  datatype Frames = Frames(payloads: seq<bytes>, stop: Stop)

  datatype OneFrame = Frame(payload: bytes, rest: bytes) | Stopped(stop: Stop)

  function FirstFrame(stream: bytes): (f: OneFrame)
    ensures f.Frame? ==> |f.rest| < |stream|
  {
    if stream == [] then Stopped(Ended)
    else if |stream| < PREFIX_SIZE then Stopped(UnexpectedEnd)
    else
      var length: int := ParseI32(stream).value;
      if length < 1 then Stopped(TooShort)
      else if length > MAX_FRAME_SIZE then Stopped(TooLarge)
      else if |stream| - PREFIX_SIZE < length then Stopped(UnexpectedEnd)
      else Frame(stream[PREFIX_SIZE..PREFIX_SIZE + length], stream[PREFIX_SIZE + length..])
  }

  /** Reading frames until one cannot be read. */
  function AllFrames(stream: bytes): Frames
    decreases |stream|
  {
    match FirstFrame(stream)
    case Stopped(stop) => Frames([], stop)
    case Frame(payload, rest) => var more := AllFrames(rest); Frames([payload] + more.payloads, more.stop)
  }

  predicate Sendable(payload: bytes) { 1 <= |payload| <= MAX_FRAME_SIZE }

  function FrameBytes(payload: bytes): bytes
    requires Sendable(payload)
  {
    I32Bytes(|payload|) + payload
  }

  ghost predicate AllSendable(payloads: seq<bytes>) {
    forall p :: p in payloads ==> Sendable(p)
  }

  function StreamBytes(payloads: seq<bytes>): bytes
    requires AllSendable(payloads)
  {
    if payloads == [] then [] else FrameBytes(payloads[0]) + StreamBytes(payloads[1..])
  }

  /** A frame is its length in four bytes, the lowest first, and that many bytes, at least one and at most a mebibyte. */
  lemma FrameIs(stream: bytes, payload: bytes, rest: bytes)
    ensures FirstFrame(stream) == Frame(payload, rest) <==>
      && |stream| >= 4 && WireLayout.I32At(stream, 0) == |payload| && 1 <= |payload| <= 1_048_576
      && stream == stream[..4] + payload + rest
    ensures FirstFrame(stream) == Stopped(Ended) <==> stream == []
    ensures FirstFrame(stream) == Stopped(TooShort) <==> |stream| >= 4 && WireLayout.I32At(stream, 0) <= 0
    ensures FirstFrame(stream) == Stopped(TooLarge) <==> |stream| >= 4 && WireLayout.I32At(stream, 0) > 1_048_576
    ensures FirstFrame(stream) != Stopped(Broken)
  {
    if |stream| >= 4 {
      WireLayout.ReadI32(stream, 0);
      assert stream[0..] == stream;
      var length: int := WireLayout.I32At(stream, 0);
      hide ParseI32, WireLayout.I32At;
      if 1 <= length <= |stream| - 4 {
        assert stream == stream[..4] + stream[4..4 + length] + stream[4 + length..];
      }
      if |payload| == length && stream == stream[..4] + payload + rest {
        assert stream[4..4 + length] == payload && stream[4 + length..] == rest;
      }
    }
  }

  lemma FrameBack(payload: bytes, rest: bytes)
    requires Sendable(payload)
    ensures FirstFrame(FrameBytes(payload) + rest) == Frame(payload, rest)
    ensures |FrameBytes(payload)| == PREFIX_SIZE + |payload|
  {
    var stream := FrameBytes(payload) + rest;
    assert stream == I32Bytes(|payload|) + (payload + rest);
    WireTheorems.I32Back(|payload|, payload + rest);
    assert |I32Bytes(|payload|)| == PREFIX_SIZE;
    hide I32Bytes, ParseI32;
    assert stream[PREFIX_SIZE..PREFIX_SIZE + |payload|] == payload;
    assert stream[PREFIX_SIZE + |payload|..] == rest;
  }

  /** A frame that is not complete ends the stream early: inside it if anything of it arrived. */
  lemma CutFrame(payload: bytes, n: nat)
    requires Sendable(payload) && n < |FrameBytes(payload)|
    ensures FirstFrame(FrameBytes(payload)[..n]) == Stopped(if n == 0 then Ended else UnexpectedEnd)
  {
    FrameBack(payload, []);
    var whole, cut := FrameBytes(payload), FrameBytes(payload)[..n];
    if n >= PREFIX_SIZE {
      assert whole == cut + whole[n..] && whole + [] == whole;
      WireTheorems.I32More(cut, whole[n..]);
    }
  }

  /** How many whole frames fit into the first n bytes. */
  function WholeFrames(payloads: seq<bytes>, n: nat): (k: nat)
    requires AllSendable(payloads)
    ensures k <= |payloads|
  {
    if payloads == [] || n < |FrameBytes(payloads[0])| then 0
    else 1 + WholeFrames(payloads[1..], n - |FrameBytes(payloads[0])|)
  }

  /** Wherever the written stream is cut, the reader gets exactly the frames that arrived whole, then a clean end if
      the cut is at a frame boundary and an unexpected end otherwise. */
  lemma {:induction false} CutStream(payloads: seq<bytes>, n: nat)
    requires AllSendable(payloads) && n <= |StreamBytes(payloads)|
    ensures
      var k := WholeFrames(payloads, n);
      && |StreamBytes(payloads[..k])| <= n
      && (k < |payloads| ==> n < |StreamBytes(payloads[..k])| + |FrameBytes(payloads[k])|)
      && AllFrames(StreamBytes(payloads)[..n])
         == Frames(payloads[..k], if n == |StreamBytes(payloads[..k])| then Ended else UnexpectedEnd)
    decreases |payloads|
  {
    hide FrameBytes, FirstFrame;
    if payloads == [] {
      CutNothing();
    } else {
      var first, rest := FrameBytes(payloads[0]), StreamBytes(payloads[1..]);
      var stream := StreamBytes(payloads);
      assert stream == first + rest;
      if n < |first| {
        CutFrame(payloads[0], n);
        assert stream[..n] == first[..n];
        assert payloads[..0] == [];
      } else {
        var k := WholeFrames(payloads, n);
        CutStream(payloads[1..], n - |first|);
        FrameBack(payloads[0], rest[..n - |first|]);
        assert stream[..n] == first + rest[..n - |first|];
        assert payloads[..k] == [payloads[0]] + payloads[1..][..k - 1];
        assert payloads[..k][1..] == payloads[1..][..k - 1];
      }
    }
  }

  lemma CutNothing()
    ensures AllFrames([]) == Frames([], Ended) && StreamBytes([]) == []
  {
  }

  /** Reading what was written gives the payloads back, and then the end of the stream. */
  lemma FramesRoundTrip(payloads: seq<bytes>)
    requires AllSendable(payloads)
    ensures AllFrames(StreamBytes(payloads)) == Frames(payloads, Ended)
  {
    var n := |StreamBytes(payloads)|;
    CutStream(payloads, n);
    assert StreamBytes(payloads)[..n] == StreamBytes(payloads);
    var k := WholeFrames(payloads, n);
    if k < |payloads| {
      StreamSplit(payloads, k);
      hide FrameBytes, AllFrames, StreamBytes;
      assert false;
    }
    assert payloads[..k] == payloads;
  }

  lemma {:induction false} StreamSplit(payloads: seq<bytes>, k: nat)
    requires AllSendable(payloads) && k < |payloads|
    ensures |StreamBytes(payloads)| >= |StreamBytes(payloads[..k])| + |FrameBytes(payloads[k])|
    decreases k
  {
    hide FrameBytes;
    if k > 0 {
      StreamSplit(payloads[1..], k - 1);
      assert payloads[..k][1..] == payloads[1..][..k - 1];
    } else {
      assert payloads[..0] == [];
    }
  }

  // --- reading and writing ---

  lemma PrefixLength(prefix: bytes, rest: bytes)
    requires |prefix| == 4
    ensures ParseI32(prefix).Parsed? && ParseI32(prefix + rest).Parsed?
    ensures ParseI32(prefix).value == ParseI32(prefix + rest).value
  {
  }

  class ByteStream {
    var content: bytes

    constructor (b: bytes)
      ensures content == b
    {
      content := b;
    }

    /** Reads exactly n bytes, unless the stream ends first: then everything there was is consumed. A read may also break
        anywhere before that. */
    method ReadFull(n: nat) returns (b: bytes, stop: Option<Stop>)
      requires n > 0
      modifies this
      ensures old(content) == b + content
      ensures stop == Some(Broken) ==> |b| < n
      ensures stop != Some(Broken) ==>
        if |old(content)| >= n then stop == None && |b| == n
        else stop == Some(if old(content) == [] then Ended else UnexpectedEnd) && content == []
    {
      var breaks: bool, k: nat := *, *;
      if breaks && k < n && k <= |content| {
        b, content, stop := content[..k], content[k..], Some(Broken);
      } else if |content| >= n {
        b, content, stop := content[..n], content[n..], None;
      } else {
        b, stop := content, Some(if content == [] then Ended else UnexpectedEnd);
        content := [];
      }
    }

    /** Reads one frame. A read that breaks does so before the whole frame is consumed. */
    method ReadFrame() returns (f: Result<bytes, Stop>)
      modifies this
      ensures f != Err(Broken) ==> match FirstFrame(old(content))
        case Frame(payload, rest) => f == Ok(payload) && content == rest
        case Stopped(stop) => f == Err(stop)
      ensures f == Err(Broken) ==> |content| <= |old(content)| && content == old(content)[|old(content)| - |content|..]
      ensures f == Err(Broken) && FirstFrame(old(content)).Frame? ==> |content| > |FirstFrame(old(content)).rest|
    {
      hide ParseI32;
      var prefix, stop := ReadFull(PREFIX_SIZE);
      if stop.Some? {
        return Err(stop.value);
      }
      PrefixLength(prefix, content);
      var length: int := ParseI32(prefix).value;
      if length < 1 {
        return Err(TooShort);
      }
      if length > MAX_FRAME_SIZE {
        return Err(TooLarge);
      }
      ghost var behind := content;
      assert behind == old(content)[PREFIX_SIZE..];
      var payload;
      payload, stop := ReadFull(length);
      assert payload == behind[..|payload|] && content == behind[|payload|..];
      assert content == old(content)[PREFIX_SIZE + |payload|..];
      if stop == Some(Broken) {
        return Err(Broken);
      }
      if stop.Some? {
        return Err(UnexpectedEnd);
      }
      assert payload == old(content)[PREFIX_SIZE..PREFIX_SIZE + length];
      return Ok(payload);
    }

    /** Hands bytes to the system, which may take fewer of them and report it. */
    method Write(b: bytes) returns (error: Option<Stop>)
      modifies this
      ensures if error == None then content == old(content) + b
              else error == Some(Broken) && old(content) <= content <= old(content) + b
    {
      var breaks: bool, k: nat := *, *;
      if breaks && k <= |b| {
        content := content + b[..k];
        return Some(Broken);
      }
      content := content + b;
      return None;
    }

    method WriteFrame(payload: bytes) returns (error: Option<Stop>)
      modifies this
      ensures error == None ==> Sendable(payload) && content == old(content) + FrameBytes(payload)
      ensures error == Some(Broken) ==> Sendable(payload) && old(content) <= content <= old(content) + FrameBytes(payload)
      ensures !Sendable(payload) ==> error == Some(if payload == [] then TooShort else TooLarge) && content == old(content)
      ensures Sendable(payload) ==> error == None || error == Some(Broken)
    {
      if |payload| < 1 {
        return Some(TooShort);
      }
      if |payload| > MAX_FRAME_SIZE {
        return Some(TooLarge);
      }
      hide I32Bytes;
      error := Write(I32Bytes(|payload|));
      if error.Some? {
        return;
      }
      error := Write(payload);
    }
  }
}
