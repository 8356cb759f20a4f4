/** The Vosk-like websocket ASR server (src/api/websocket/websockets_app.py):
    the same cache and threshold dispatch as the stream class, a different
    latency rule, and one server object shared by all connections. */
module WebSocketApp {
  import opened TextUtil
  import opened ChunkDispatch

  /** Seconds of received audio not yet transcribed. */
  function Latency(received: nat, transcribed: nat): real {
    Seconds(received as real) - Seconds(transcribed as real)
  }

  /** `adjust_threshold_on_latency`: above 6 s of latency the partial
      threshold grows (to at most the final threshold), below 1.5 s it
      shrinks (to at least one second of audio), otherwise it stays. */
  function AdjustThreshold(received: nat, transcribed: nat, p: real): (r: real)
    ensures PartialThresholdFloor <= p <= FinalThreshold ==> PartialThresholdFloor <= r <= FinalThreshold
    ensures var d := Latency(received, transcribed);
      && (d > FinalTranscriptionTimeout as real && 0.0 <= p ==> p <= r || r == FinalThreshold)
      && (d > FinalTranscriptionTimeout as real && 0.0 < p < FinalThreshold ==> p < r)
      && (d < FinalTranscriptionTimeout as real / 4.0 && PartialThresholdFloor <= p ==> r <= p)
      && (d < FinalTranscriptionTimeout as real / 4.0 && PartialThresholdFloor < p ==> r < p)
      && ((FinalTranscriptionTimeout as real / 4.0 <= d <= FinalTranscriptionTimeout as real) ==> r == p)
  {
    var d := Latency(received, transcribed);
    var grown := if d > FinalTranscriptionTimeout as real then
        (if p * 1.5 > FinalThreshold then FinalThreshold else p * 1.5)
      else p;
    if d < FinalTranscriptionTimeout as real / 4.0 then
      (if grown * 0.75 < PartialThresholdFloor then PartialThresholdFloor else grown * 0.75)
    else grown
  }

  /** The replies of one connection: every non-binary message is answered
      "wrong data type". */
  function Replies(ms: seq<Message>): seq<string> {
    if ms == [] then []
    else Replies(ms[..|ms| - 1]) + (if ms[|ms| - 1].Binary? then [] else ["wrong data type"])
  }

  lemma RepliesStep(ms: seq<Message>, i: nat)
    requires i < |ms|
    ensures Replies(ms[..i + 1]) == Replies(ms[..i]) + (if ms[i].Binary? then [] else ["wrong data type"])
  {
    assert ms[..i + 1][..i] == ms[..i];
  }

  class WebSocketServer {
    const port: int
    const host: string
    var recentlyAddedChunkCache: seq<Byte>
    var chunkCache: seq<Byte>
    var overallTranscribedBytes: seq<Byte>
    var overallAudioBytes: seq<Byte>
    const finalTreshold: real
    var partialTreshold: real

    /** Every byte received over all connections, and every transcription
        requested, since the server object was built. */
    ghost var received: seq<Byte>
    ghost var requested: seq<Request>

    ghost predicate Valid()
      reads this
    {
      finalTreshold == FinalThreshold &&
      PartialThresholdFloor <= partialTreshold <= finalTreshold &&
      Conserved(requested, chunkCache, recentlyAddedChunkCache, received)
    }

    constructor (port: int, host: string)
      ensures Valid() && this.port == port && this.host == host
      ensures chunkCache == [] && recentlyAddedChunkCache == [] && requested == [] && received == []
      ensures overallAudioBytes == [] && overallTranscribedBytes == []
      ensures partialTreshold == PartialThresholdFloor
    {
      this.port := port;
      this.host := host;
      recentlyAddedChunkCache := [];
      chunkCache := [];
      overallTranscribedBytes := [];
      overallAudioBytes := [];
      finalTreshold := FinalThreshold;
      partialTreshold := PartialThresholdFloor;
      received := [];
      requested := [];
    }

    /** The binary branch of `echo`. */
    method HandleBinary(message: seq<Byte>) returns (requests: seq<Request>)
      requires Valid()
      modifies this
      ensures Valid()
      ensures var (c, rs) := Dispatch(Caches(old(chunkCache), old(recentlyAddedChunkCache)), message, finalTreshold, old(partialTreshold));
        chunkCache == c.chunkCache && recentlyAddedChunkCache == c.recent && requests == rs
      ensures overallAudioBytes == old(overallAudioBytes) + message
      ensures received == old(received) + message
      ensures requested == old(requested) + requests
      ensures partialTreshold == old(partialTreshold)
      ensures overallTranscribedBytes == old(overallTranscribedBytes)
    {
      ghost var before := Caches(chunkCache, recentlyAddedChunkCache);
      chunkCache := chunkCache + message;
      recentlyAddedChunkCache := recentlyAddedChunkCache + message;
      overallAudioBytes := overallAudioBytes + message;
      requests := [];
      if |chunkCache| as real >= finalTreshold {
        requests := requests + [Final(chunkCache, recentlyAddedChunkCache)];
        recentlyAddedChunkCache := [];
        chunkCache := [];
      }
      if |recentlyAddedChunkCache| as real >= partialTreshold {
        requests := requests + [Partial(chunkCache, recentlyAddedChunkCache)];
        recentlyAddedChunkCache := [];
      }
      ghost var (c, rs) := Dispatch(before, message, finalTreshold, partialTreshold);
      assert c.chunkCache == chunkCache && c.recent == recentlyAddedChunkCache && rs == requests;
      DispatchConserves(requested, before, message, received, finalTreshold, partialTreshold);
      requested := requested + requests;
      received := received + message;
    }

    /** `echo` for one connection, over the messages received until the
        client leaves. Only the overall byte counters restart; the caches and
        the partial threshold carry over from earlier connections. */
    method Echo(messages: seq<Message>) returns (requests: seq<Request>, replies: seq<string>)
      requires Valid()
      modifies this
      ensures Valid()
      ensures overallAudioBytes == BinaryBytes(messages) && overallTranscribedBytes == []
      ensures received == old(received) + BinaryBytes(messages)
      ensures requested == old(requested) + requests
      ensures replies == Replies(messages)
      ensures partialTreshold == old(partialTreshold)
    {
      overallAudioBytes := [];
      overallTranscribedBytes := [];
      requests := [];
      replies := [];
      var i := 0;
      while i < |messages|
        invariant Valid()
        invariant 0 <= i <= |messages|
        invariant partialTreshold == old(partialTreshold) && overallTranscribedBytes == []
        invariant requested == old(requested) + requests
        invariant overallAudioBytes == BinaryBytes(messages[..i])
        invariant received == old(received) + BinaryBytes(messages[..i])
        invariant replies == Replies(messages[..i])
      {
        requests, replies := EchoStep(messages, i, old(received), old(requested), requests, replies);
        i := i + 1;
      }
      assert messages[..i] == messages;
    }

    /** One turn of the `echo` loop. */
    method EchoStep(messages: seq<Message>, i: nat, ghost startReceived: seq<Byte>,
                    ghost startRequested: seq<Request>, requests: seq<Request>, replies: seq<string>)
      returns (requests': seq<Request>, replies': seq<string>)
      requires Valid() && i < |messages|
      requires requested == startRequested + requests
      requires overallAudioBytes == BinaryBytes(messages[..i])
      requires received == startReceived + BinaryBytes(messages[..i])
      requires replies == Replies(messages[..i])
      modifies this
      ensures Valid()
      ensures partialTreshold == old(partialTreshold)
      ensures overallTranscribedBytes == old(overallTranscribedBytes)
      ensures requested == startRequested + requests'
      ensures overallAudioBytes == BinaryBytes(messages[..i + 1])
      ensures received == startReceived + BinaryBytes(messages[..i + 1])
      ensures replies' == Replies(messages[..i + 1])
    {
      var m := messages[i];
      BinaryBytesStep(messages, i);
      RepliesStep(messages, i);
      if m.Binary? {
        var rs := HandleBinary(m.data);
        ConcatAssoc(startReceived, BinaryBytes(messages[..i]), m.data);
        ConcatAssoc(startRequested, requests, rs);
        requests' := requests + rs;
        replies' := replies;
      } else {
        requests' := requests;
        replies' := replies + ["wrong data type"];
      }
    }

    /** The bookkeeping of a completed transcription: the threshold is
        adjusted first, then the recent-cache argument counts as
        transcribed. */
    method TranscriptionDone(recentCache: seq<Byte>)
      requires Valid()
      modifies this
      ensures Valid()
      ensures partialTreshold == AdjustThreshold(|overallAudioBytes|, |old(overallTranscribedBytes)|, old(partialTreshold))
      ensures overallTranscribedBytes == old(overallTranscribedBytes) + recentCache
      ensures chunkCache == old(chunkCache) && recentlyAddedChunkCache == old(recentlyAddedChunkCache)
      ensures overallAudioBytes == old(overallAudioBytes)
      ensures received == old(received) && requested == old(requested)
    {
      AdjustThresholdOnLatency();
      overallTranscribedBytes := overallTranscribedBytes + recentCache;
    }

    method AdjustThresholdOnLatency()
      requires Valid()
      modifies this
      ensures Valid()
      ensures partialTreshold == AdjustThreshold(|overallAudioBytes|, |overallTranscribedBytes|, old(partialTreshold))
      ensures chunkCache == old(chunkCache) && recentlyAddedChunkCache == old(recentlyAddedChunkCache)
      ensures overallAudioBytes == old(overallAudioBytes) && overallTranscribedBytes == old(overallTranscribedBytes)
      ensures received == old(received) && requested == old(requested)
    {
      var secondsReceived := Seconds(|overallAudioBytes| as real);
      var secondsTranscribed := Seconds(|overallTranscribedBytes| as real);
      var difference := secondsReceived - secondsTranscribed;
      var threshold := partialTreshold;
      if difference > FinalTranscriptionTimeout as real {
        threshold := threshold * 1.5;
        if threshold > finalTreshold {
          threshold := finalTreshold;
        }
      }
      if difference < FinalTranscriptionTimeout as real / 4.0 {
        threshold := threshold * 0.75;
        if threshold < PartialThresholdFloor {
          threshold := PartialThresholdFloor;
        }
      }
      partialTreshold := threshold;
    }
  }
}
