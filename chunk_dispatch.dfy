/** The binary-message rule shared by the two websocket dispatchers
    (src/websocket/stream.py and src/api/websocket/websockets_app.py): each
    PCM message is appended to a long cache and a recent cache; a "final"
    transcription is requested when the long cache reaches the final
    threshold (both caches then restart), and a "partial" one when the recent
    cache reaches the partial threshold (only the recent cache restarts). */
module ChunkDispatch {
  type Byte = bv8

  /** 16000 Hz, 2 bytes per sample, 1 channel. */
  const BytesPerSecond: nat := 32000
  const FinalTranscriptionTimeout: nat := 6
  const PartialTranscriptionTimeout: nat := 1
  /** `BYTES_PER_SECOND * FINAL_TRANSCRIPTION_TIMEOUT`. */
  const FinalThreshold: real := 192000.0
  /** `BYTES_PER_SECOND * PARTIAL_TRANSCRIPTION_TIMEOUT`. */
  const PartialThresholdFloor: real := 32000.0

  /** A byte count (or byte threshold) as seconds of audio. */
  function Seconds(bytes: real): real {
    bytes / 32000.0
  }

  /** A scheduled transcription with the two caches it was given. */
  datatype Request =
    | Final(chunkCache: seq<Byte>, recentCache: seq<Byte>)
    | Partial(chunkCache: seq<Byte>, recentCache: seq<Byte>)

  /** What the websocket delivers: bytes or a string. */
  datatype Message = Binary(data: seq<Byte>) | Text(text: string)

  datatype Caches = Caches(chunkCache: seq<Byte>, recent: seq<Byte>)

  predicate IsSuffix<T(==)>(a: seq<T>, b: seq<T>) {
    |a| <= |b| && b[|b| - |a|..] == a
  }

  /** The recent-cache arguments of the requests, in order. */
  function Recents(rs: seq<Request>): seq<Byte> {
    if rs == [] then [] else Recents(rs[..|rs| - 1]) + rs[|rs| - 1].recentCache
  }

  /** The chunk-cache arguments of the final requests, in order. */
  function FinalChunks(rs: seq<Request>): seq<Byte> {
    if rs == [] then []
    else FinalChunks(rs[..|rs| - 1]) + (if rs[|rs| - 1].Final? then rs[|rs| - 1].chunkCache else [])
  }

  lemma {:induction false} RecentsConcat(a: seq<Request>, b: seq<Request>)
    ensures Recents(a + b) == Recents(a) + Recents(b)
    decreases |b|
  {
    if b == [] {
      assert a + b == a;
    } else {
      var b' := b[..|b| - 1];
      assert (a + b)[..|a + b| - 1] == a + b';
      RecentsConcat(a, b');
    }
  }

  lemma {:induction false} FinalChunksConcat(a: seq<Request>, b: seq<Request>)
    ensures FinalChunks(a + b) == FinalChunks(a) + FinalChunks(b)
    decreases |b|
  {
    if b == [] {
      assert a + b == a;
    } else {
      var b' := b[..|b| - 1];
      assert (a + b)[..|a + b| - 1] == a + b';
      FinalChunksConcat(a, b');
    }
  }

  /** Every received byte is in exactly one request's recent-cache argument
      or still in the recent cache, and likewise for final requests and the
      long cache; the recent cache is the tail of the long cache. */
  predicate Conserved(requested: seq<Request>, chunkCache: seq<Byte>, recent: seq<Byte>, received: seq<Byte>) {
    Recents(requested) + recent == received &&
    FinalChunks(requested) + chunkCache == received &&
    IsSuffix(recent, chunkCache)
  }

  /** One binary message. With positive thresholds, both caches end below
      their thresholds, no byte is lost or duplicated between the requests'
      arguments and the caches, and at most one final followed by at most one
      partial is requested. */
  function Dispatch(c: Caches, message: seq<Byte>, finalThreshold: real, partialThreshold: real): (r: (Caches, seq<Request>))
    requires 0.0 < finalThreshold && 0.0 < partialThreshold
    ensures |r.0.chunkCache| as real < finalThreshold
    ensures |r.0.recent| as real < partialThreshold
    ensures Recents(r.1) + r.0.recent == c.recent + message
    ensures FinalChunks(r.1) + r.0.chunkCache == c.chunkCache + message
  {
    var chunk := c.chunkCache + message;
    var recent := c.recent + message;
    var afterFinal :=
      if |chunk| as real >= finalThreshold then (Caches([], []), [Final(chunk, recent)])
      else (Caches(chunk, recent), []);
    assert Recents(afterFinal.1) + afterFinal.0.recent == recent by {
      if afterFinal.1 != [] {
        assert Recents(afterFinal.1) == Recents([]) + recent;
      }
    }
    assert FinalChunks(afterFinal.1) + afterFinal.0.chunkCache == chunk by {
      if afterFinal.1 != [] {
        assert FinalChunks(afterFinal.1) == FinalChunks([]) + chunk;
      }
    }
    var cc := afterFinal.0;
    if |cc.recent| as real >= partialThreshold then
      var rs := afterFinal.1 + [Partial(cc.chunkCache, cc.recent)];
      assert rs[..|rs| - 1] == afterFinal.1;
      (Caches(cc.chunkCache, []), rs)
    else
      afterFinal
  }

  /** The recent cache stays the tail of the long cache. */
  lemma DispatchKeepsSuffix(c: Caches, message: seq<Byte>, finalThreshold: real, partialThreshold: real)
    requires 0.0 < finalThreshold && 0.0 < partialThreshold
    requires IsSuffix(c.recent, c.chunkCache)
    ensures var r := Dispatch(c, message, finalThreshold, partialThreshold);
      IsSuffix(r.0.recent, r.0.chunkCache)
  {
    var chunk := c.chunkCache + message;
    var recent := c.recent + message;
    if |chunk| as real < finalThreshold {
      assert chunk[|chunk| - |recent|..] == c.chunkCache[|c.chunkCache| - |c.recent|..] + message;
    }
  }

  /** At most one final followed by at most one partial is requested, and a
      final exactly when the long cache with the message reaches the final
      threshold. */
  lemma DispatchShape(c: Caches, message: seq<Byte>, finalThreshold: real, partialThreshold: real)
    requires 0.0 < finalThreshold && 0.0 < partialThreshold
    ensures var r := Dispatch(c, message, finalThreshold, partialThreshold);
      |r.1| <= 2 && forall k :: 1 <= k < |r.1| ==> r.1[k].Partial?
    ensures var r := Dispatch(c, message, finalThreshold, partialThreshold);
      (exists k :: 0 <= k < |r.1| && r.1[k].Final?) <==> |c.chunkCache + message| as real >= finalThreshold
  {
    var r := Dispatch(c, message, finalThreshold, partialThreshold);
    if |c.chunkCache + message| as real >= finalThreshold {
      assert r.1[0].Final?;
    }
  }

  /** Appending a batch of requests whose recent-cache arguments, followed
      by the new recent cache, are the old recent cache plus the message. */
  lemma RecentsStep(requested: seq<Request>, rs: seq<Request>, recent: seq<Byte>, recent': seq<Byte>,
                    message: seq<Byte>)
    requires Recents(rs) + recent' == recent + message
    ensures Recents(requested + rs) + recent' == (Recents(requested) + recent) + message
  {
    RecentsConcat(requested, rs);
    assert (Recents(requested) + Recents(rs)) + recent' == Recents(requested) + (Recents(rs) + recent');
    assert Recents(requested) + (recent + message) == (Recents(requested) + recent) + message;
  }

  lemma FinalChunksStep(requested: seq<Request>, rs: seq<Request>, chunk: seq<Byte>, chunk': seq<Byte>,
                        message: seq<Byte>)
    requires FinalChunks(rs) + chunk' == chunk + message
    ensures FinalChunks(requested + rs) + chunk' == (FinalChunks(requested) + chunk) + message
  {
    FinalChunksConcat(requested, rs);
    assert (FinalChunks(requested) + FinalChunks(rs)) + chunk' == FinalChunks(requested) + (FinalChunks(rs) + chunk');
    assert FinalChunks(requested) + (chunk + message) == (FinalChunks(requested) + chunk) + message;
  }

  /** Dispatching a message keeps the conservation of received bytes. */
  lemma DispatchConserves(requested: seq<Request>, c: Caches, message: seq<Byte>, received: seq<Byte>,
                          finalThreshold: real, partialThreshold: real)
    requires 0.0 < finalThreshold && 0.0 < partialThreshold
    requires Conserved(requested, c.chunkCache, c.recent, received)
    ensures var r := Dispatch(c, message, finalThreshold, partialThreshold);
      Conserved(requested + r.1, r.0.chunkCache, r.0.recent, received + message)
  {
    var r := Dispatch(c, message, finalThreshold, partialThreshold);
    DispatchKeepsSuffix(c, message, finalThreshold, partialThreshold);
    RecentsStep(requested, r.1, c.recent, r.0.recent, message);
    FinalChunksStep(requested, r.1, c.chunkCache, r.0.chunkCache, message);
  }

  function MessageBytes(m: Message): seq<Byte> {
    if m.Binary? then m.data else []
  }

  /** The bytes of the binary messages, in order. */
  function BinaryBytes(ms: seq<Message>): seq<Byte> {
    if ms == [] then []
    else BinaryBytes(ms[..|ms| - 1]) + MessageBytes(ms[|ms| - 1])
  }

  lemma BinaryBytesStep(ms: seq<Message>, i: nat)
    requires i < |ms|
    ensures BinaryBytes(ms[..i + 1]) == BinaryBytes(ms[..i]) + MessageBytes(ms[i])
  {
    assert ms[..i + 1][..i] == ms[..i];
  }
}
