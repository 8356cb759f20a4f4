/** The per-connection dispatcher of the websocket server (src/websocket/stream.py):
    caches incoming PCM bytes, requests final and partial transcriptions by
    byte thresholds, and moves the partial threshold with the latency between
    received and transcribed audio. */
module StreamDispatcher {
  import opened TextUtil
  import opened ChunkDispatch

  /** A text message asks to end the stream when it contains "eof". */
  predicate IsEof(m: Message) {
    m.Text? && ContainsSub(m.text, "eof")
  }

  /** The messages `echo` consumes: up to and including the first "eof". */
  function UpToEof(ms: seq<Message>): (r: seq<Message>)
    ensures |r| <= |ms| && r == ms[..|r|]
    ensures forall k :: 0 <= k < |r| - 1 ==> !IsEof(r[k])
    ensures |r| < |ms| ==> |r| > 0 && IsEof(r[|r| - 1])
  {
    if ms == [] then []
    else if IsEof(ms[0]) then [ms[0]]
    else [ms[0]] + UpToEof(ms[1..])
  }

  /** Handling message i either ends the consumed messages there (an
      "eof") or moves the boundary one message further. */
  lemma UpToEofStep(ms: seq<Message>, i: nat)
    requires i < |ms|
    ensures IsEof(ms[i]) ==> ms[..i] + UpToEof(ms[i..]) == ms[..i + 1]
    ensures !IsEof(ms[i]) ==> ms[..i] + UpToEof(ms[i..]) == ms[..i + 1] + UpToEof(ms[i + 1..])
  {
    assert ms[i..][0] == ms[i];
    assert ms[i..][1..] == ms[i + 1..];
    assert ms[..i + 1] == ms[..i] + [ms[i]];
  }

  /** When the loop stops, the consumed messages are exactly `UpToEof`. */
  lemma UpToEofDone(ms: seq<Message>, i: nat, closed: bool)
    requires i <= |ms| && (closed || i == |ms|)
    requires UpToEof(ms) == ms[..i] + (if closed then [] else UpToEof(ms[i..]))
    ensures UpToEof(ms) == ms[..i]
  {
    if !closed {
      assert ms[i..] == [];
    }
  }

  /** The reply `echo` sends for one message, if any. */
  function MessageReply(m: Message, exportName: string): seq<string> {
    if m.Binary? then [] else if IsEof(m) then [exportName] else ["control message unknown"]
  }

  /** The replies `echo` sends for the messages it handled. */
  function Replies(ms: seq<Message>, exportName: string): seq<string> {
    if ms == [] then [] else Replies(ms[..|ms| - 1], exportName) + MessageReply(ms[|ms| - 1], exportName)
  }

  lemma RepliesStep(ms: seq<Message>, i: nat, exportName: string)
    requires i < |ms|
    ensures Replies(ms[..i + 1], exportName) == Replies(ms[..i], exportName) + MessageReply(ms[i], exportName)
  {
    assert ms[..i + 1][..i] == ms[..i];
  }

  /** Seconds of received audio not yet transcribed, minus the partial
      threshold's own duration. */
  function Latency(received: nat, transcribed: nat, partialThreshold: real): real {
    Seconds(received as real) - Seconds(transcribed as real) - Seconds(partialThreshold)
  }

  /** `adjust_threshold_on_latency`: above 4 s of latency the partial threshold
      grows (to at most the final threshold), below 1 s it shrinks (to at
      least one second of audio), otherwise it stays. */
  function AdjustThreshold(received: nat, transcribed: nat, p: real): (r: real)
    ensures PartialThresholdFloor <= p <= FinalThreshold ==> PartialThresholdFloor <= r <= FinalThreshold
    ensures var d := Latency(received, transcribed, p);
      && (d > (FinalTranscriptionTimeout - 2) as real && 0.0 <= p ==> p <= r || r == FinalThreshold)
      && (d > (FinalTranscriptionTimeout - 2) as real && 0.0 < p < FinalThreshold ==> p < r)
      && (d < FinalTranscriptionTimeout as real / 6.0 && PartialThresholdFloor <= p ==> r <= p)
      && (d < FinalTranscriptionTimeout as real / 6.0 && PartialThresholdFloor < p ==> r < p)
      && ((FinalTranscriptionTimeout as real / 6.0 <= d <= (FinalTranscriptionTimeout - 2) as real) ==> r == p)
  {
    var d := Latency(received, transcribed, p);
    var grown := if d > (FinalTranscriptionTimeout - 2) as real then
        (if p * 1.5 > FinalThreshold then FinalThreshold else p * 1.5)
      else p;
    if d < FinalTranscriptionTimeout as real / 6.0 then
      (if grown * 0.75 < PartialThresholdFloor then PartialThresholdFloor else grown * 0.75)
    else grown
  }

  class Stream {
    const id: int
    var closeStream: bool
    var recentlyAddedChunkCache: seq<Byte>
    var chunkCache: seq<Byte>
    var overallTranscribedBytes: seq<Byte>
    var overallAudioBytes: seq<Byte>
    const finalTreshold: real
    var partialTreshold: real

    /** Every transcription requested so far. */
    ghost var requested: seq<Request>

    /** Every received byte is in exactly one request's recent-cache argument
        or still in the recent cache, and likewise for final requests and the
        long cache; the recent cache is the tail of the long cache. */
    ghost predicate Valid()
      reads this
    {
      finalTreshold == FinalThreshold &&
      PartialThresholdFloor <= partialTreshold <= finalTreshold &&
      Conserved(requested, chunkCache, recentlyAddedChunkCache, overallAudioBytes)
    }

    constructor (id: int)
      ensures Valid() && !closeStream && this.id == id
      ensures chunkCache == [] && recentlyAddedChunkCache == [] && requested == []
      ensures overallAudioBytes == [] && overallTranscribedBytes == []
      ensures partialTreshold == PartialThresholdFloor
    {
      this.id := id;
      closeStream := false;
      recentlyAddedChunkCache := [];
      chunkCache := [];
      overallTranscribedBytes := [];
      overallAudioBytes := [];
      finalTreshold := FinalThreshold;
      partialTreshold := PartialThresholdFloor;
      requested := [];
    }

    /** The binary branch of `echo`; the returned requests stand for the
        scheduled `transcribe_all_chunk_cache` / `transcribe_chunk_partial`
        calls, in order. */
    method HandleBinary(message: seq<Byte>) returns (requests: seq<Request>)
      requires Valid()
      modifies this
      ensures Valid()
      ensures var (c, rs) := Dispatch(Caches(old(chunkCache), old(recentlyAddedChunkCache)), message, finalTreshold, old(partialTreshold));
        chunkCache == c.chunkCache && recentlyAddedChunkCache == c.recent && requests == rs
      ensures overallAudioBytes == old(overallAudioBytes) + message
      ensures requested == old(requested) + requests
      ensures partialTreshold == old(partialTreshold) && closeStream == old(closeStream)
      ensures overallTranscribedBytes == old(overallTranscribedBytes)
    {
      ghost var before := Caches(chunkCache, recentlyAddedChunkCache);
      chunkCache := chunkCache + message;
      recentlyAddedChunkCache := recentlyAddedChunkCache + message;
      overallAudioBytes := overallAudioBytes + message;
      requests := [];
      if |chunkCache| as real >= finalTreshold {
        requests := requests + [Final(chunkCache, recentlyAddedChunkCache)];
        recentlyAddedChunkCache := [];
        chunkCache := [];
      }
      if |recentlyAddedChunkCache| as real >= partialTreshold {
        requests := requests + [Partial(chunkCache, recentlyAddedChunkCache)];
        recentlyAddedChunkCache := [];
      }
      ghost var (c, rs) := Dispatch(before, message, finalTreshold, partialTreshold);
      assert c.chunkCache == chunkCache && c.recent == recentlyAddedChunkCache && rs == requests;
      DispatchConserves(requested, before, message, old(overallAudioBytes), finalTreshold, partialTreshold);
      requested := requested + requests;
    }

    /** The text branch of `echo`: "eof" answers with the export name and
        ends the stream; any other text is answered and changes nothing. */
    method HandleText(message: string, exportName: string) returns (reply: string)
      requires Valid()
      modifies this
      ensures Valid()
      ensures reply == (if ContainsSub(message, "eof") then exportName else "control message unknown")
      ensures closeStream == (old(closeStream) || ContainsSub(message, "eof"))
      ensures chunkCache == old(chunkCache) && recentlyAddedChunkCache == old(recentlyAddedChunkCache)
      ensures overallAudioBytes == old(overallAudioBytes) && requested == old(requested)
      ensures partialTreshold == old(partialTreshold)
      ensures overallTranscribedBytes == old(overallTranscribedBytes)
    {
      if ContainsSub(message, "eof") {
        reply := exportName;
        closeStream := true;
      } else {
        reply := "control message unknown";
      }
    }

    /** One received message. */
    method HandleMessage(m: Message, exportName: string) returns (requests: seq<Request>, reply: seq<string>)
      requires Valid()
      modifies this
      ensures Valid()
      ensures overallAudioBytes == old(overallAudioBytes) + MessageBytes(m)
      ensures reply == MessageReply(m, exportName)
      ensures closeStream == (old(closeStream) || IsEof(m))
      ensures requested == old(requested) + requests
      ensures partialTreshold == old(partialTreshold)
      ensures overallTranscribedBytes == old(overallTranscribedBytes)
    {
      if m.Binary? {
        requests := HandleBinary(m.data);
        reply := [];
      } else {
        var r := HandleText(m.text, exportName);
        requests := [];
        reply := [r];
      }
    }

    /** `echo` over the messages the client sends before the connection
        closes; a closed connection ends the loop. `exportName` is the name
        the export of the recording receives. */
    method Echo(messages: seq<Message>, exportName: string) returns (requests: seq<Request>, replies: seq<string>)
      requires Valid()
      modifies this
      ensures Valid() && closeStream
      ensures partialTreshold == old(partialTreshold)
      ensures overallTranscribedBytes == old(overallTranscribedBytes)
      ensures requested == old(requested) + requests
      ensures old(closeStream) ==>
        requests == [] && replies == [] && overallAudioBytes == old(overallAudioBytes)
      ensures !old(closeStream) ==>
        overallAudioBytes == old(overallAudioBytes) + BinaryBytes(UpToEof(messages)) &&
        replies == Replies(UpToEof(messages), exportName)
    {
      requests := [];
      replies := [];
      if closeStream {
        return;
      }
      requests, replies := EchoLoop(messages, exportName);
    }

    /** The loop of `echo` on an open stream: messages are handled until one
        ends the stream or none is left. */
    method EchoLoop(messages: seq<Message>, exportName: string) returns (requests: seq<Request>, replies: seq<string>)
      requires Valid() && !closeStream
      modifies this
      ensures Valid() && closeStream
      ensures partialTreshold == old(partialTreshold)
      ensures overallTranscribedBytes == old(overallTranscribedBytes)
      ensures requested == old(requested) + requests
      ensures overallAudioBytes == old(overallAudioBytes) + BinaryBytes(UpToEof(messages))
      ensures replies == Replies(UpToEof(messages), exportName)
    {
      requests := [];
      replies := [];
      var i := 0;
      assert messages[..0] == [] && messages[0..] == messages;
      while !closeStream && i < |messages|
        invariant Valid()
        invariant 0 <= i <= |messages|
        invariant partialTreshold == old(partialTreshold)
        invariant overallTranscribedBytes == old(overallTranscribedBytes)
        invariant requested == old(requested) + requests
        invariant overallAudioBytes == old(overallAudioBytes) + BinaryBytes(messages[..i])
        invariant replies == Replies(messages[..i], exportName)
        invariant UpToEof(messages) == messages[..i] + (if closeStream then [] else UpToEof(messages[i..]))
      {
        requests, replies := EchoStep(messages, i, exportName, old(overallAudioBytes), old(requested), requests, replies);
        i := i + 1;
      }
      UpToEofDone(messages, i, closeStream);
      closeStream := true;
    }

    /** One turn of the `echo` loop: message i is handled and the loop's
        record of what was consumed moves past it. */
    method EchoStep(messages: seq<Message>, i: nat, exportName: string, ghost startAudio: seq<Byte>,
                    ghost startRequested: seq<Request>, requests: seq<Request>, replies: seq<string>)
      returns (requests': seq<Request>, replies': seq<string>)
      requires Valid() && !closeStream && i < |messages|
      requires requested == startRequested + requests
      requires overallAudioBytes == startAudio + BinaryBytes(messages[..i])
      requires replies == Replies(messages[..i], exportName)
      requires UpToEof(messages) == messages[..i] + UpToEof(messages[i..])
      modifies this
      ensures Valid()
      ensures partialTreshold == old(partialTreshold)
      ensures overallTranscribedBytes == old(overallTranscribedBytes)
      ensures requested == startRequested + requests'
      ensures overallAudioBytes == startAudio + BinaryBytes(messages[..i + 1])
      ensures replies' == Replies(messages[..i + 1], exportName)
      ensures UpToEof(messages) == messages[..i + 1] + (if closeStream then [] else UpToEof(messages[i + 1..]))
    {
      var m := messages[i];
      BinaryBytesStep(messages, i);
      RepliesStep(messages, i, exportName);
      UpToEofStep(messages, i);
      var rs, reply := HandleMessage(m, exportName);
      ConcatAssoc(startAudio, BinaryBytes(messages[..i]), MessageBytes(m));
      ConcatAssoc(startRequested, requests, rs);
      requests' := requests + rs;
      replies' := replies + reply;
    }

    /** The bookkeeping of a completed `transcribe_all_chunk_cache` /
        `transcribe_chunk_partial`: the threshold is adjusted first, then the
        recent-cache argument is counted as transcribed. A failed
        transcription call instead ends the stream. The result is the start
        offset, in seconds, that a final adds to its word times. */
    method TranscriptionDone(recentCache: seq<Byte>, transcriptionFailed: bool) returns (offsetSeconds: real)
      requires Valid()
      modifies this
      ensures Valid()
      ensures chunkCache == old(chunkCache) && recentlyAddedChunkCache == old(recentlyAddedChunkCache)
      ensures overallAudioBytes == old(overallAudioBytes) && requested == old(requested)
      ensures transcriptionFailed ==>
        closeStream && partialTreshold == old(partialTreshold) &&
        overallTranscribedBytes == old(overallTranscribedBytes)
      ensures !transcriptionFailed ==>
        closeStream == old(closeStream) &&
        partialTreshold == AdjustThreshold(|overallAudioBytes|, |old(overallTranscribedBytes)|, old(partialTreshold)) &&
        overallTranscribedBytes == old(overallTranscribedBytes) + recentCache &&
        offsetSeconds == Seconds((|old(overallTranscribedBytes)| - |recentCache|) as real)
    {
      offsetSeconds := 0.0;
      if transcriptionFailed {
        closeStream := true;
        return;
      }
      AdjustThresholdOnLatency();
      offsetSeconds := Seconds(|overallTranscribedBytes| as real) - Seconds(|recentCache| as real);
      overallTranscribedBytes := overallTranscribedBytes + recentCache;
    }

    method AdjustThresholdOnLatency()
      requires Valid()
      modifies this
      ensures Valid()
      ensures partialTreshold == AdjustThreshold(|overallAudioBytes|, |overallTranscribedBytes|, old(partialTreshold))
      ensures chunkCache == old(chunkCache) && recentlyAddedChunkCache == old(recentlyAddedChunkCache)
      ensures overallAudioBytes == old(overallAudioBytes) && requested == old(requested)
      ensures overallTranscribedBytes == old(overallTranscribedBytes) && closeStream == old(closeStream)
    {
      var secondsReceived := Seconds(|overallAudioBytes| as real);
      var secondsTranscribed := Seconds(|overallTranscribedBytes| as real);
      var difference := secondsReceived - secondsTranscribed;
      var excludePartial := difference - Seconds(partialTreshold);
      var threshold := partialTreshold;
      if excludePartial > (FinalTranscriptionTimeout - 2) as real {
        threshold := threshold * 1.5;
        if threshold > finalTreshold {
          threshold := finalTreshold;
        }
      }
      if excludePartial < FinalTranscriptionTimeout as real / 6.0 {
        threshold := threshold * 0.75;
        if threshold < PartialThresholdFloor {
          threshold := PartialThresholdFloor;
        }
      }
      partialTreshold := threshold;
    }
  }
}
