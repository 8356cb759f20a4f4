/** The Vosk-style websocket server of the faster-whisper example
    (example/vosk/faster_whisper_vosk_websocket_server.py): every binary
    chunk extends a sliding window of recent audio and the whole recording;
    the window is transcribed for partials and for the final. */
module VoskServer {
  import opened TextUtil
  import opened ChunkDispatch
  import opened Arith

  /** Number of chunks the moving window spans. */
  const MovingChunkCacheSize: nat := 100

  /** A message of the Vosk protocol. For a text message, `configSampleRate`
      is `config.sample_rate` of the message read as JSON (used only when the
      text contains "config"). */
  datatype VoskMessage = Chunk(data: seq<Byte>) | Control(text: string, configSampleRate: int)

  /** What is sent back: the audio handed to the recogniser for a partial or
      for the final, nothing for a partial on an empty window, or the empty
      final `{"result": [], "text": ""}`. */
  datatype Reply =
    | PartialOf(audio: seq<Byte>)
    | NoPartial
    | FinalOf(audio: seq<Byte>)
    | EmptyFinal

  datatype ServerState = ServerState(moving: seq<Byte>, all: seq<Byte>, sampleRate: int)

  /** The window after a chunk: append it, then drop as many bytes from the
      front as the chunk has once the window reaches `size` chunk lengths. */
  function Slide(moving: seq<Byte>, chunk: seq<Byte>, size: nat): (r: seq<Byte>)
    ensures IsSuffix(r, moving + chunk)
    ensures |moving + chunk| >= |chunk| * size ==> |r| == |moving|
    ensures |moving + chunk| < |chunk| * size ==> r == moving + chunk
  {
    var m := moving + chunk;
    if |m| >= |chunk| * size then m[|chunk|..] else m
  }

  /** With chunks of one length L, a window of n whole chunks, n at most
      size-1, becomes a window of n' whole chunks, n' at most size-1. */
  lemma SlideBound(moving: seq<Byte>, chunk: seq<Byte>, size: nat, n: nat) returns (n': nat)
    requires |chunk| > 0 && size >= 1
    requires |moving| == n * |chunk| && n <= size - 1
    ensures n' <= size - 1 && |Slide(moving, chunk, size)| == n' * |chunk|
  {
    var L := |chunk|;
    assert |moving + chunk| == (n + 1) * L;
    if |moving + chunk| >= L * size {
      n' := n;
    } else {
      if n + 1 >= size {
        MulMonotone(size, n + 1, L);
      }
      n' := n + 1;
    }
  }

  /** Appending to the recording and sliding the window keeps the window a
      suffix of the recording. */
  lemma SlideKeepsSuffix(moving: seq<Byte>, all: seq<Byte>, chunk: seq<Byte>, size: nat)
    requires IsSuffix(moving, all)
    ensures IsSuffix(Slide(moving, chunk, size), all + chunk)
  {
    var m := moving + chunk;
    var a := all + chunk;
    assert a[|a| - |m|..] == all[|all| - |moving|..] + chunk;
    var r := Slide(moving, chunk, size);
    assert a[|a| - |r|..] == m[|m| - |r|..];
  }

  /** One message. */
  function Step(s: ServerState, m: VoskMessage): (r: (ServerState, seq<Reply>))
    ensures m.Chunk? ==> r.0.all == s.all + m.data && |r.1| == 1 && r.0.sampleRate == s.sampleRate
    ensures m.Control? && ContainsSub(m.text, "config") ==> r == (s.(sampleRate := m.configSampleRate), [])
    ensures m.Control? && !ContainsSub(m.text, "config") && ContainsSub(m.text, "eof") ==>
      r.0 == ServerState([], [], s.sampleRate) && r.1 == [if |s.all| > 0 then FinalOf(s.moving) else EmptyFinal]
    ensures m.Control? && !ContainsSub(m.text, "config") && !ContainsSub(m.text, "eof") ==> r == (s, [])
  {
    match m
    case Chunk(data) =>
      var moving := Slide(s.moving, data, MovingChunkCacheSize);
      (ServerState(moving, s.all + data, s.sampleRate), [if |moving| > 0 then PartialOf(moving) else NoPartial])
    case Control(text, rate) =>
      if ContainsSub(text, "config") then (s.(sampleRate := rate), [])
      else if ContainsSub(text, "eof") then
        (ServerState([], [], s.sampleRate), [if |s.all| > 0 then FinalOf(s.moving) else EmptyFinal])
      else (s, [])
  }

  /** Every message keeps the window a suffix of the recording. */
  lemma StepKeepsSuffix(s: ServerState, m: VoskMessage)
    requires IsSuffix(s.moving, s.all)
    ensures IsSuffix(Step(s, m).0.moving, Step(s, m).0.all)
  {
    if m.Chunk? {
      SlideKeepsSuffix(s.moving, s.all, m.data, MovingChunkCacheSize);
    }
  }

  /** A connection: the messages in order, with the replies they produce. */
  function Run(s: ServerState, ms: seq<VoskMessage>): (ServerState, seq<Reply>) {
    if ms == [] then (s, [])
    else
      var (s1, r1) := Run(s, ms[..|ms| - 1]);
      var (s2, r2) := Step(s1, ms[|ms| - 1]);
      (s2, r1 + r2)
  }

  /** With all messages chunks of one length L, the window never exceeds
      size-1 chunks. */
  lemma {:induction false} RunBound(s: ServerState, ms: seq<VoskMessage>, L: nat)
    requires L > 0 && |s.moving| == 0
    requires forall k :: 0 <= k < |ms| ==> ms[k].Chunk? && |ms[k].data| == L
    ensures |Run(s, ms).0.moving| <= (MovingChunkCacheSize - 1) * L
  {
    var n := RunWholeChunks(s, ms, L);
    MulMonotone(n, MovingChunkCacheSize - 1, L);
  }

  /** The window of such a run is a whole number of chunks, at most size-1. */
  lemma {:induction false} RunWholeChunks(s: ServerState, ms: seq<VoskMessage>, L: nat) returns (n: nat)
    requires L > 0 && |s.moving| == 0
    requires forall k :: 0 <= k < |ms| ==> ms[k].Chunk? && |ms[k].data| == L
    ensures n <= MovingChunkCacheSize - 1 && |Run(s, ms).0.moving| == n * L
  {
    if ms == [] {
      n := 0;
    } else {
      var init := ms[..|ms| - 1];
      var n0 := RunWholeChunks(s, init, L);
      var s1 := Run(s, init).0;
      n := SlideBound(s1.moving, ms[|ms| - 1].data, MovingChunkCacheSize, n0);
    }
  }

  lemma {:induction false} RunKeepsSuffix(s: ServerState, ms: seq<VoskMessage>)
    requires IsSuffix(s.moving, s.all)
    ensures IsSuffix(Run(s, ms).0.moving, Run(s, ms).0.all)
  {
    if ms != [] {
      RunKeepsSuffix(s, ms[..|ms| - 1]);
      StepKeepsSuffix(Run(s, ms[..|ms| - 1]).0, ms[|ms| - 1]);
    }
  }

  class VoskWebSocketServer {
    var movingChunkCache: seq<Byte>
    var allChunkCache: seq<Byte>
    const movingChunkCacheSize: nat
    var sampleRate: int
    const numChannels: nat
    const sampwidth: nat

    function State(): ServerState
      reads this
    {
      ServerState(movingChunkCache, allChunkCache, sampleRate)
    }

    ghost predicate Valid()
      reads this
    {
      movingChunkCacheSize == MovingChunkCacheSize && IsSuffix(movingChunkCache, allChunkCache)
    }

    constructor ()
      ensures Valid() && State() == ServerState([], [], 16000)
      ensures numChannels == 1 && sampwidth == 2
    {
      movingChunkCache := [];
      allChunkCache := [];
      movingChunkCacheSize := 100;
      sampleRate := 16000;
      numChannels := 1;
      sampwidth := 2;
    }

    /** `transcribe_chunk_partial`: the reply names the window handed to the
        recogniser, if it is non-empty. */
    method TranscribeChunkPartial(chunk: seq<Byte>) returns (reply: Reply)
      requires Valid()
      modifies this
      ensures Valid()
      ensures (State(), [reply]) == Step(old(State()), Chunk(chunk))
    {
      SlideKeepsSuffix(movingChunkCache, allChunkCache, chunk, movingChunkCacheSize);
      movingChunkCache := movingChunkCache + chunk;
      allChunkCache := allChunkCache + chunk;
      if |movingChunkCache| >= |chunk| * movingChunkCacheSize {
        movingChunkCache := movingChunkCache[|chunk|..];
      }
      if |movingChunkCache| > 0 {
        reply := PartialOf(movingChunkCache);
      } else {
        reply := NoPartial;
      }
    }

    /** `transcribe_all_chunk_cache`: the final transcribes the window, not
        the whole recording. */
    method TranscribeAllChunkCache() returns (reply: Reply)
      ensures reply == (if |allChunkCache| > 0 then FinalOf(movingChunkCache) else EmptyFinal)
    {
      if |allChunkCache| > 0 {
        return FinalOf(movingChunkCache);
      }
      return EmptyFinal;
    }

    /** One message of `echo`: a chunk asks for a partial, a config message
        sets the sample rate, and "eof" asks for the final and clears both
        caches. */
    method HandleMessage(m: VoskMessage) returns (out: seq<Reply>)
      requires Valid()
      modifies this
      ensures Valid()
      ensures (State(), out) == Step(old(State()), m)
    {
      ghost var s := State();
      out := [];
      match m {
        case Chunk(data) =>
          var reply := TranscribeChunkPartial(data);
          out := [reply];
        case Control(text, rate) =>
          if ContainsSub(text, "config") {
            sampleRate := rate;
          } else if ContainsSub(text, "eof") {
            var reply := TranscribeAllChunkCache();
            out := [reply];
            movingChunkCache := [];
            allChunkCache := [];
          }
      }
      StepKeepsSuffix(s, m);
    }

    /** `echo` over the messages of one connection. */
    method Echo(messages: seq<VoskMessage>) returns (replies: seq<Reply>)
      requires Valid()
      modifies this
      ensures Valid()
      ensures (State(), replies) == Run(old(State()), messages)
    {
      replies := [];
      var i := 0;
      while i < |messages|
        invariant Valid() && 0 <= i <= |messages|
        invariant (State(), replies) == Run(old(State()), messages[..i])
      {
        assert messages[..i + 1][..i] == messages[..i];
        var out := HandleMessage(messages[i]);
        replies := replies + out;
        i := i + 1;
      }
      assert messages[..i] == messages;
    }
  }
}
