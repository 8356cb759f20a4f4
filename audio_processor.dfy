/** The AudioWorklet processor of the browser test page
    (example/frontend-testing/processor.js): it collects mono float samples and
    posts one 16-bit frame of `chunkSize` samples whenever enough have arrived. */
module AudioProcessor {
  import opened Wrappers
  import opened TextUtil
  import opened Pcm

  const ChunkSize: nat := 8000

  /** The conversion of one sample: clamp to [-1, 1], scale by 32767, store
      into an Int16Array. */
  function ScaleSample(x: real): int {
    ToInt16(Clamp(x) * 32767.0)
  }

  /** Every converted sample lies in [-32767, 32767]; the ends of the float
      range map to the ends of that range. */
  lemma ScaleSampleRange(x: real)
    ensures -32767 <= ScaleSample(x) <= 32767
    ensures ScaleSample(1.0) == 32767 && ScaleSample(-1.0) == -32767
  {
  }

  /** The conversion is monotonic. */
  lemma ScaleSampleMonotonic(a: real, b: real)
    requires a <= b
    ensures ScaleSample(a) <= ScaleSample(b)
  {
    var ca, cb := Clamp(a) * 32767.0, Clamp(b) * 32767.0;
    assert ca <= cb;
    assert TruncToInt(ca) <= TruncToInt(cb);
  }

  /** `inputs[0]` exists and has a channel 0 (`input && input[0]`). */
  predicate HasChannel(inputs: seq<seq<seq<real>>>) {
    |inputs| > 0 && |inputs[0]| > 0
  }

  /** The effect of one `process` call on the pending buffer: the new buffer
      and the float chunk that is cut, if any. */
  function Step(buffer: seq<real>, inputs: seq<seq<seq<real>>>): (seq<real>, Option<seq<real>>) {
    if !HasChannel(inputs) then (buffer, None)
    else
      var all := buffer + inputs[0][0];
      if |all| >= ChunkSize then (all[ChunkSize..], Some(all[..ChunkSize]))
      else (all, None)
  }

  /** A call without channel 0 changes nothing; otherwise a chunk is cut
      exactly when the buffer and the input together reach `chunkSize`, and
      only one: what stays buffered is everything else, even when that is a
      whole chunk or more. */
  lemma StepShape(buffer: seq<real>, inputs: seq<seq<seq<real>>>)
    ensures !HasChannel(inputs) ==> Step(buffer, inputs) == (buffer, None)
    ensures Step(buffer, inputs).1.Some? <==> HasChannel(inputs) && |buffer| + |inputs[0][0]| >= ChunkSize
    ensures Step(buffer, inputs).1.Some? ==>
      |Step(buffer, inputs).1.value| == ChunkSize &&
      |Step(buffer, inputs).0| == |buffer| + |Channel(inputs)| - ChunkSize
    ensures Step(buffer, inputs).1.None? ==> Step(buffer, inputs).0 == buffer + Channel(inputs)
  {
  }

  /** Samples pushed by a run of `process` calls: channel 0 of each call that
      has one. */
  function Pushed(calls: seq<seq<seq<seq<real>>>>): seq<real> {
    if calls == [] then [] else Channel(calls[0]) + Pushed(calls[1..])
  }

  /** Channel 0 of the first input, or nothing. */
  function Channel(inputs: seq<seq<seq<real>>>): seq<real> {
    if HasChannel(inputs) then inputs[0][0] else []
  }

  /** The chunks cut and the final buffer of a run of `process` calls. */
  function Run(buffer: seq<real>, calls: seq<seq<seq<seq<real>>>>): (seq<seq<real>>, seq<real>)
    decreases |calls|
  {
    if calls == [] then ([], buffer)
    else
      var (b, c) := Step(buffer, calls[0]);
      var (chunks, rest) := Run(b, calls[1..]);
      ((if c.Some? then [c.value] else []) + chunks, rest)
  }

  /** Conservation: the chunks cut by a run, followed by what is still
      buffered, are exactly the starting buffer followed by every pushed
      sample, in order. */
  lemma {:induction false} RunConserves(buffer: seq<real>, calls: seq<seq<seq<seq<real>>>>)
    ensures Flatten(Run(buffer, calls).0) + Run(buffer, calls).1 == buffer + Pushed(calls)
    decreases |calls|
  {
    if calls != [] {
      var s := Step(buffer, calls[0]);
      var r := Run(s.0, calls[1..]);
      var cut := if s.1.Some? then [s.1.value] else [];
      assert Run(buffer, calls) == (cut + r.0, r.1);
      RunConserves(s.0, calls[1..]);
      StepConserves(buffer, calls[0]);
      FlattenConcat(cut, r.0);
      ConcatAssoc(Flatten(cut), Flatten(r.0), r.1);
      ConcatAssoc(Flatten(cut), s.0, Pushed(calls[1..]));
      ConcatAssoc(buffer, Channel(calls[0]), Pushed(calls[1..]));
    }
  }

  /** One call: the chunk it cuts, if any, followed by the new buffer, is
      the old buffer followed by the call's channel 0. */
  lemma StepConserves(buffer: seq<real>, inputs: seq<seq<seq<real>>>)
    ensures var s := Step(buffer, inputs);
      Flatten(if s.1.Some? then [s.1.value] else []) + s.0 == buffer + Channel(inputs)
  {
    var s := Step(buffer, inputs);
    if s.1.Some? {
      assert Flatten([s.1.value]) == s.1.value + Flatten([]);
    }
  }

  /** Every chunk cut by a run is exactly `chunkSize` samples. */
  lemma {:induction false} RunChunkSizes(buffer: seq<real>, calls: seq<seq<seq<seq<real>>>>)
    ensures forall k :: 0 <= k < |Run(buffer, calls).0| ==> |Run(buffer, calls).0[k]| == ChunkSize
    decreases |calls|
  {
    if calls != [] {
      var (b, c) := Step(buffer, calls[0]);
      RunChunkSizes(b, calls[1..]);
    }
  }

  /** If no call delivers more than `chunkSize` samples, the buffer stays
      below `chunkSize` after every call. */
  lemma {:induction false} RunStaysBelowChunk(buffer: seq<real>, calls: seq<seq<seq<seq<real>>>>)
    requires |buffer| < ChunkSize
    requires forall k :: 0 <= k < |calls| && HasChannel(calls[k]) ==> |calls[k][0][0]| <= ChunkSize
    ensures |Run(buffer, calls).1| < ChunkSize
    decreases |calls|
  {
    if calls != [] {
      var (b, c) := Step(buffer, calls[0]);
      assert HasChannel(calls[0]) ==> |calls[0][0][0]| <= ChunkSize;
      RunStaysBelowChunk(b, calls[1..]);
    }
  }

  class AudioProcessor {
    const sampleRate: int
    const chunkSize: nat
    var buffer: seq<real>

    /** Every sample pushed so far, and every chunk posted so far (as floats). */
    ghost var pushed: seq<real>
    ghost var posted: seq<seq<real>>

    ghost predicate Valid()
      reads this
    {
      chunkSize == ChunkSize &&
      Flatten(posted) + buffer == pushed &&
      forall k :: 0 <= k < |posted| ==> |posted[k]| == chunkSize
    }

    constructor (sampleRate: int)
      ensures Valid()
      ensures this.sampleRate == sampleRate && buffer == [] && pushed == [] && posted == []
    {
      this.sampleRate := sampleRate;
      chunkSize := 8000;
      buffer := [];
      pushed := [];
      posted := [];
    }

    /** `process(inputs)`: push channel 0, cut at most one chunk from the front,
        post it converted to 16 bit, and always ask to be kept alive. */
    method Process(inputs: seq<seq<seq<real>>>) returns (keepAlive: bool, message: Option<seq<int>>)
      requires Valid()
      modifies this
      ensures Valid()
      ensures keepAlive
      ensures var (b, c) := Step(old(buffer), inputs);
        && buffer == b
        && posted == old(posted) + (if c.Some? then [c.value] else [])
        && message == (if c.Some? then Some(ConvertedFrame(c.value)) else None)
      ensures pushed == old(pushed) + Channel(inputs)
    {
      keepAlive := true;
      message := None;
      if |inputs| > 0 && |inputs[0]| > 0 {
        var inputData := inputs[0][0];
        var all := buffer + inputData;
        ConcatAssoc(Flatten(posted), buffer, inputData);
        buffer := all;
        pushed := pushed + inputData;
        if |all| >= chunkSize {
          var chunk := all[..chunkSize];
          var rest := all[chunkSize..];
          assert chunk + rest == all;
          FlattenAppend(posted, chunk);
          ConcatAssoc(Flatten(posted), chunk, rest);
          buffer := rest;
          posted := posted + [chunk];
          var int16Data := ConvertToInt16(chunk);
          message := Some(int16Data);
        }
      }
    }
  }

  function ConvertedFrame(chunk: seq<real>): (r: seq<int>)
    ensures |r| == |chunk|
  {
    if chunk == [] then [] else [ScaleSample(chunk[0])] + ConvertedFrame(chunk[1..])
  }

  lemma {:induction false} ConvertedFrameAt(chunk: seq<real>, i: nat)
    requires i < |chunk|
    ensures ConvertedFrame(chunk)[i] == ScaleSample(chunk[i])
  {
    if i > 0 {
      ConvertedFrameAt(chunk[1..], i - 1);
    }
  }

  /** The index loop that fills the Int16Array: every output sample is the
      clamped, scaled input sample, so it lies in [-32767, 32767]. */
  method ConvertToInt16(chunk: seq<real>) returns (out: seq<int>)
    ensures out == ConvertedFrame(chunk)
    ensures forall i :: 0 <= i < |out| ==> -32767 <= out[i] <= 32767
  {
    var int16Data := new int[|chunk|];
    var i := 0;
    while i < |chunk|
      invariant 0 <= i <= |chunk|
      invariant forall k :: 0 <= k < i ==> int16Data[k] == ScaleSample(chunk[k])
    {
      int16Data[i] := ScaleSample(chunk[i]);
      i := i + 1;
    }
    out := int16Data[..];
    forall k | 0 <= k < |out|
      ensures out[k] == ConvertedFrame(chunk)[k] && -32767 <= out[k] <= 32767
    {
      ConvertedFrameAt(chunk, k);
      ScaleSampleRange(chunk[k]);
    }
  }
}
