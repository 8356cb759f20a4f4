/** The script-processor microphone client
    (example/voice_client_with_script_processor_new.js): samples are copied into
    a fixed 4-second Float32Array; when a callback does not fit, the array is
    topped up, sent as 16-bit PCM if the socket is open, and refilled with the
    leftover samples. */
module ScriptProcessorClient {
  import opened Wrappers
  import opened TextUtil
  import opened Pcm

  const SampleRate: nat := 16000
  const TargetDuration: nat := 4
  /** The script processor node's callback size. */
  const BufferSize: nat := 16384
  const TargetBufferSize: nat := TargetDuration * SampleRate

  /** `32767 * Math.min(1, x)` stored into an Int16Array: clamped from above
      only, so samples below -1 wrap around. */
  function SendSample(x: real): int {
    ToInt16(32767.0 * Min(1.0, x))
  }

  /** For samples not below -1 the conversion is the truncated scaled value and
      stays in [-32767, 32767]. */
  lemma SendSampleInRange(x: real)
    requires x >= -1.0
    ensures SendSample(x) == TruncToInt(32767.0 * Min(1.0, x))
    ensures -32767 <= SendSample(x) <= 32767
  {
  }

  /** Below -1 the missing lower clamp shows: -2.0 becomes +2. */
  lemma SendSampleWrapsBelowMinusOne()
    ensures SendSample(-2.0) == 2
  {
    assert TruncToInt(-65534.0) == -65534;
  }

  function SendFrame(frame: seq<real>): (r: seq<int>)
    ensures |r| == |frame|
  {
    if frame == [] then [] else [SendSample(frame[0])] + SendFrame(frame[1..])
  }

  lemma {:induction false} SendFrameAt(frame: seq<real>, i: nat)
    requires i < |frame|
    ensures SendFrame(frame)[i] == SendSample(frame[i])
  {
    if i > 0 {
      SendFrameAt(frame[1..], i - 1);
    }
  }

  /** One `sendAudio` call on the accumulated samples: the new accumulated
      samples and the full frame that is cut (sent or dropped), if any. */
  function AccumulateStep(contents: seq<real>, input: seq<real>): (r: (seq<real>, Option<seq<real>>))
    requires |contents| <= TargetBufferSize && |input| <= TargetBufferSize
    ensures |r.0| <= TargetBufferSize
    ensures r.1.Some? <==> |contents| + |input| > TargetBufferSize
    ensures r.1.Some? ==> |r.1.value| == TargetBufferSize && r.1.value[..|contents|] == contents
    ensures (if r.1.Some? then r.1.value else []) + r.0 == contents + input
  {
    if |contents| + |input| <= TargetBufferSize then (contents + input, None)
    else
      var remainingSpace := TargetBufferSize - |contents|;
      assert (contents + input[..remainingSpace]) + input[remainingSpace..] == contents + input;
      (input[remainingSpace..], Some(contents + input[..remainingSpace]))
  }

  /** A callback that fills the array exactly does not send it: the `<=`
      test keeps it in the fit branch, and the full array goes out on the
      next callback that brings any samples at all, which then starts the
      array over with that whole callback. */
  lemma ExactFillSentNext(contents: seq<real>, input: seq<real>, next: seq<real>)
    requires |contents| + |input| == TargetBufferSize
    requires 0 < |next| <= TargetBufferSize
    ensures AccumulateStep(contents, input) == (contents + input, None)
    ensures AccumulateStep(contents + input, next) == (next, Some(contents + input))
  {
    assert next[..0] == [];
    assert (contents + input) + next[..0] == contents + input;
  }

  /** The module-level `accumulatedBuffer`/`accumulatedSamples` pair. */
  class Accumulator {
    var accumulatedSamples: nat
    var accumulatedBuffer: array<real>

    /** Every sample delivered so far, and every full frame cut so far
        (whether or not the socket was open to send it). */
    ghost var delivered: seq<real>
    ghost var frames: seq<seq<real>>

    ghost function Contents(): seq<real>
      reads this, accumulatedBuffer
      requires accumulatedSamples <= accumulatedBuffer.Length
    {
      accumulatedBuffer[..accumulatedSamples]
    }

    ghost predicate Valid()
      reads this, accumulatedBuffer
    {
      accumulatedBuffer.Length == TargetBufferSize &&
      accumulatedSamples <= TargetBufferSize &&
      Flatten(frames) + Contents() == delivered &&
      forall k :: 0 <= k < |frames| ==> |frames[k]| == TargetBufferSize
    }

    constructor ()
      ensures Valid() && fresh(accumulatedBuffer)
      ensures Contents() == [] && delivered == [] && frames == []
    {
      accumulatedSamples := 0;
      accumulatedBuffer := new real[TargetBufferSize](_ => 0.0);
      delivered := [];
      frames := [];
    }

    /** `sendAudio`: the callback's channel 0 is `inputData`; `socketOpen` is
        `webSocket.readyState === WebSocket.OPEN` at the moment of sending.
        The script processor delivers `BufferSize` samples per callback, so
        an input never exceeds the array (otherwise `set` would throw). */
    method SendAudio(inputData: seq<real>, socketOpen: bool) returns (sent: Option<seq<int>>)
      requires Valid()
      requires |inputData| <= TargetBufferSize
      modifies this, accumulatedBuffer
      ensures Valid()
      ensures delivered == old(delivered) + inputData
      ensures var (rest, frame) := AccumulateStep(old(Contents()), inputData);
        && Contents() == rest
        && frames == old(frames) + (if frame.Some? then [frame.value] else [])
        && sent == (if frame.Some? && socketOpen then Some(SendFrame(frame.value)) else None)
      ensures old(accumulatedSamples) + |inputData| <= TargetBufferSize ==>
        accumulatedBuffer == old(accumulatedBuffer)
      ensures old(accumulatedSamples) + |inputData| > TargetBufferSize ==>
        fresh(accumulatedBuffer)
    {
      if accumulatedSamples + |inputData| <= TargetBufferSize {
        Append(inputData);
        sent := None;
      } else {
        sent := CutFrame(inputData, socketOpen);
      }
    }

    /** The branch where the input fits after the accumulated samples. */
    method Append(inputData: seq<real>)
      requires Valid()
      requires accumulatedSamples + |inputData| <= TargetBufferSize
      modifies this, accumulatedBuffer
      ensures Valid()
      ensures delivered == old(delivered) + inputData && frames == old(frames)
      ensures Contents() == old(Contents()) + inputData
      ensures accumulatedBuffer == old(accumulatedBuffer)
    {
      ghost var before := Contents();
      CopyInto(accumulatedBuffer, inputData, accumulatedSamples);
      accumulatedSamples := accumulatedSamples + |inputData|;
      assert Contents() == before + inputData;
      delivered := delivered + inputData;
    }

    /** The branch where the input overflows: top up, send, refill. */
    method CutFrame(inputData: seq<real>, socketOpen: bool) returns (sent: Option<seq<int>>)
      requires Valid()
      requires |inputData| <= TargetBufferSize
      requires accumulatedSamples + |inputData| > TargetBufferSize
      modifies this, accumulatedBuffer
      ensures Valid() && fresh(accumulatedBuffer)
      ensures delivered == old(delivered) + inputData
      ensures var remainingSpace := TargetBufferSize - old(accumulatedSamples);
        var frame := old(Contents()) + inputData[..remainingSpace];
        && Contents() == inputData[remainingSpace..]
        && frames == old(frames) + [frame]
        && sent == (if socketOpen then Some(SendFrame(frame)) else None)
    {
      ghost var before := Contents();
      ghost var oldFrames := frames;
      ghost var oldDelivered := delivered;
      var remainingSpace := TargetBufferSize - accumulatedSamples;
      ghost var frame := before + inputData[..remainingSpace];
      var leftover := inputData[remainingSpace..];
      assert frame + leftover == before + inputData;
      TopUp(inputData[..remainingSpace]);
      assert accumulatedBuffer[..] == frame;
      sent := None;
      if socketOpen {
        var targetBuffer := ConvertAccumulated();
        sent := Some(targetBuffer);
      }
      Refill(leftover);
      FlattenAppend(oldFrames, frame);
      frames := oldFrames + [frame];
      delivered := oldDelivered + inputData;
      ConcatAssoc(Flatten(oldFrames), frame, leftover);
      ConcatAssoc(Flatten(oldFrames), before, inputData);
    }

    /** Copies the first `remainingSpace` samples into the tail of the array,
        leaving it full. */
    method TopUp(part: seq<real>)
      requires accumulatedBuffer.Length == TargetBufferSize
      requires accumulatedSamples + |part| == TargetBufferSize
      modifies this, accumulatedBuffer
      ensures accumulatedBuffer == old(accumulatedBuffer)
      ensures accumulatedSamples == TargetBufferSize
      ensures accumulatedBuffer[..] == old(Contents()) + part
      ensures delivered == old(delivered) && frames == old(frames)
    {
      CopyInto(accumulatedBuffer, part, accumulatedSamples);
      accumulatedSamples := TargetBufferSize;
    }

    /** A fresh zeroed array holding the leftover samples. */
    method Refill(leftover: seq<real>)
      requires |leftover| <= TargetBufferSize
      modifies this
      ensures fresh(accumulatedBuffer) && accumulatedBuffer.Length == TargetBufferSize
      ensures accumulatedSamples == |leftover| && Contents() == leftover
      ensures delivered == old(delivered) && frames == old(frames)
    {
      accumulatedSamples := 0;
      accumulatedBuffer := new real[TargetBufferSize](_ => 0.0);
      if |leftover| > 0 {
        CopyInto(accumulatedBuffer, leftover, 0);
        accumulatedSamples := |leftover|;
      }
      assert accumulatedBuffer[..accumulatedSamples] == leftover;
    }

    /** The conversion loop over the full array. */
    method ConvertAccumulated() returns (targetBuffer: seq<int>)
      requires accumulatedBuffer.Length == TargetBufferSize
      ensures targetBuffer == SendFrame(accumulatedBuffer[..])
    {
      var out := new int[TargetBufferSize];
      var index := 0;
      while index < TargetBufferSize
        invariant 0 <= index <= TargetBufferSize
        invariant forall k :: 0 <= k < index ==> out[k] == SendSample(accumulatedBuffer[k])
      {
        out[index] := SendSample(accumulatedBuffer[index]);
        index := index + 1;
      }
      targetBuffer := out[..];
      forall k | 0 <= k < TargetBufferSize
        ensures targetBuffer[k] == SendFrame(accumulatedBuffer[..])[k]
      {
        SendFrameAt(accumulatedBuffer[..], k);
      }
    }
  }

  /** `TypedArray.prototype.set(src, offset)` within bounds. */
  method CopyInto(a: array<real>, src: seq<real>, offset: nat)
    requires offset + |src| <= a.Length
    modifies a
    ensures a[..] == old(a[..offset]) + src + old(a[offset + |src|..])
  {
    forall k | offset <= k < offset + |src| {
      a[k] := src[k - offset];
    }
  }
}
