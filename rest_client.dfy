/** The browser client of the REST API (example/frontend-testing/rest.js):
    the upload form, the rendering of a transcript as one tooltip span per
    word, and the status poll that runs on an interval timer until the
    transcription is finished or failed. The DOM is modelled by the few
    values the poll writes. */
module RestClient {
  import opened Wrappers
  import opened TextUtil

  // ---------------------------------------------------------------------
  // Rendering a transcript

  /** A word of the transcript; its start and end are kept as the text the
      template literal prints for them. */
  datatype Word = Word(text: string, start: string, end: string)
  datatype Segment = Segment(words: seq<Word>)

  /** `text.replace(/\s/g, '&nbsp;')`: every whitespace character becomes
      the entity, everything else is kept. */
  function EscapeSpaces(s: string): (r: string)
    ensures forall i :: 0 <= i < |r| ==> !IsJsSpace(r[i])
    ensures |r| >= |s|
  {
    if s == [] then ""
    else (if IsJsSpace(s[0]) then "&nbsp;" else [s[0]]) + EscapeSpaces(s[1..])
  }

  /** Escaping works character by character: it distributes over
      concatenation ... */
  lemma {:induction false} EscapeSpacesAppend(a: string, b: string)
    ensures EscapeSpaces(a + b) == EscapeSpaces(a) + EscapeSpaces(b)
  {
    if a == [] {
      assert a + b == b;
    } else {
      assert (a + b)[0] == a[0];
      assert (a + b)[1..] == a[1..] + b;
      EscapeSpacesAppend(a[1..], b);
      var h := if IsJsSpace(a[0]) then "&nbsp;" else [a[0]];
      assert EscapeSpaces(a + b) == h + EscapeSpaces((a + b)[1..]);
      assert EscapeSpaces(a) == h + EscapeSpaces(a[1..]);
      ConcatAssoc(h, EscapeSpaces(a[1..]), EscapeSpaces(b));
    }
  }

  /** ... and text without whitespace is left as it is. */
  lemma {:induction false} EscapeSpacesWithoutSpace(s: string)
    requires forall i :: 0 <= i < |s| ==> !IsJsSpace(s[i])
    ensures EscapeSpaces(s) == s
  {
    if s != [] {
      EscapeSpacesWithoutSpace(s[1..]);
    }
  }

  /** Each whitespace character adds the five further characters of
      `&nbsp;`. */
  function SpaceCount(s: string): nat {
    if s == [] then 0 else (if IsJsSpace(s[0]) then 1 else 0) + SpaceCount(s[1..])
  }

  lemma {:induction false} EscapeSpacesLength(s: string)
    ensures |EscapeSpaces(s)| == |s| + 5 * SpaceCount(s)
  {
    if s != [] {
      EscapeSpacesLength(s[1..]);
    }
  }

  const TooltipOpen := "<span class=\"tooltip\">"
  const TooltipTextOpen := "<span class=\"tooltiptext\">"
  const SpansClose := "</span></span>"

  /** The span of one word: its escaped text, one `&nbsp;` more when
      white space is asked for, and `start-end` as the tooltip. */
  function Span(w: Word, addWhiteSpaces: bool): string {
    TooltipOpen + EscapeSpaces(w.text) + (if addWhiteSpaces then "&nbsp;" else "") +
      TooltipTextOpen + w.start + "-" + w.end + SpansClose
  }

  function SegmentSpans(segment: Segment, addWhiteSpaces: bool): (r: seq<string>)
    ensures |r| == |segment.words|
    ensures forall j :: 0 <= j < |r| ==> r[j] == Span(segment.words[j], addWhiteSpaces)
  {
    seq(|segment.words|, j requires 0 <= j < |segment.words| => Span(segment.words[j], addWhiteSpaces))
  }

  /** The spans of one segment's words, in order. */
  function RenderedSegment(segment: Segment, addWhiteSpaces: bool): string {
    Flatten(SegmentSpans(segment, addWhiteSpaces))
  }

  /** The spans of all words, segment after segment, in word order. */
  function Rendered(segments: seq<Segment>, addWhiteSpaces: bool): string {
    if segments == [] then ""
    else
      var n := |segments| - 1;
      Rendered(segments[..n], addWhiteSpaces) + RenderedSegment(segments[n], addWhiteSpaces)
  }

  lemma RenderedStep(segments: seq<Segment>, i: nat, addWhiteSpaces: bool)
    requires i < |segments|
    ensures Rendered(segments[..i + 1], addWhiteSpaces) ==
      Rendered(segments[..i], addWhiteSpaces) + RenderedSegment(segments[i], addWhiteSpaces)
  {
    assert segments[..i + 1][..i] == segments[..i];
  }

  function WordCount(segments: seq<Segment>): nat {
    if segments == [] then 0 else WordCount(segments[..|segments| - 1]) + |segments[|segments| - 1].words|
  }

  /** `translateResponseToTimestampedText`: the buffer grows by one span per
      word, in segment order and then word order. */
  method TimestampedText(segments: seq<Segment>, addWhiteSpaces: bool) returns (buffer: string)
    ensures buffer == Rendered(segments, addWhiteSpaces)
  {
    buffer := "";
    var i := 0;
    while i < |segments|
      invariant i <= |segments|
      invariant buffer == Rendered(segments[..i], addWhiteSpaces)
    {
      buffer := AppendSegmentSpans(buffer, segments[i], addWhiteSpaces);
      RenderedStep(segments, i, addWhiteSpaces);
      i := i + 1;
    }
    assert segments[..i] == segments;
  }

  /** The inner loop of `translateResponseToTimestampedText`: one span per
      word of the segment is appended to the buffer. */
  method AppendSegmentSpans(buffer0: string, segment: Segment, addWhiteSpaces: bool) returns (buffer: string)
    ensures buffer == buffer0 + RenderedSegment(segment, addWhiteSpaces)
  {
    ghost var spans := SegmentSpans(segment, addWhiteSpaces);
    buffer := buffer0;
    var j := 0;
    while j < |segment.words|
      invariant j <= |segment.words|
      invariant buffer == buffer0 + Flatten(spans[..j])
    {
      var span := Span(segment.words[j], addWhiteSpaces);
      FlattenStep(spans, j);
      ConcatAssoc(buffer0, Flatten(spans[..j]), span);
      buffer := buffer + span;
      j := j + 1;
    }
    assert spans[..j] == spans;
  }

  lemma FlattenStep(spans: seq<string>, j: nat)
    requires j < |spans|
    ensures Flatten(spans[..j + 1]) == Flatten(spans[..j]) + spans[j]
  {
    assert spans[..j + 1] == spans[..j] + [spans[j]];
    FlattenAppend(spans[..j], spans[j]);
  }

  lemma FlattenSingle(x: string)
    ensures Flatten([x]) == x
  {
    assert [x][1..] == [];
  }

  /** Rendering a list of segments is rendering each part in turn. */
  lemma {:induction false} RenderedConcat(a: seq<Segment>, b: seq<Segment>, addWhiteSpaces: bool)
    ensures Rendered(a + b, addWhiteSpaces) == Rendered(a, addWhiteSpaces) + Rendered(b, addWhiteSpaces)
  {
    if b == [] {
      assert a + b == a;
    } else {
      var n := |b| - 1;
      var last := b[n];
      SplitLast(a, b);
      RenderedSnoc(a + b[..n], last, addWhiteSpaces);
      RenderedConcat(a, b[..n], addWhiteSpaces);
      RenderedSnoc(b[..n], last, addWhiteSpaces);
      ConcatAssoc(Rendered(a, addWhiteSpaces), Rendered(b[..n], addWhiteSpaces), RenderedSegment(last, addWhiteSpaces));
    }
  }

  lemma SplitLast<T>(a: seq<T>, b: seq<T>)
    requires b != []
    ensures a + b == (a + b[..|b| - 1]) + [b[|b| - 1]]
    ensures b == b[..|b| - 1] + [b[|b| - 1]]
  {
  }

  lemma RenderedSnoc(xs: seq<Segment>, x: Segment, addWhiteSpaces: bool)
    ensures Rendered(xs + [x], addWhiteSpaces) == Rendered(xs, addWhiteSpaces) + RenderedSegment(x, addWhiteSpaces)
  {
    assert (xs + [x])[..|xs|] == xs;
  }

  /** Segments without words render to nothing, and so does an empty list. */
  lemma {:induction false} RenderedNoWords(segments: seq<Segment>, addWhiteSpaces: bool)
    requires WordCount(segments) == 0
    ensures Rendered(segments, addWhiteSpaces) == ""
  {
    if segments != [] {
      var n := |segments| - 1;
      RenderedNoWords(segments[..n], addWhiteSpaces);
      assert RenderedSegment(segments[n], addWhiteSpaces) == "";
    }
  }

  /** Asking for white space adds exactly one `&nbsp;` (six characters)
      per word and nothing else. */
  lemma {:induction false} RenderedWhiteSpaceLength(segments: seq<Segment>)
    ensures |Rendered(segments, true)| == |Rendered(segments, false)| + 6 * WordCount(segments)
  {
    if segments != [] {
      var n := |segments| - 1;
      RenderedWhiteSpaceLength(segments[..n]);
      FlattenLengthDiff(SegmentSpans(segments[n], true), SegmentSpans(segments[n], false));
      assert |RenderedSegment(segments[n], true)| == |RenderedSegment(segments[n], false)| + 6 * |segments[n].words|;
    }
  }

  lemma {:induction false} FlattenLengthDiff(a: seq<string>, b: seq<string>)
    requires |a| == |b|
    requires forall k :: 0 <= k < |a| ==> |a[k]| == |b[k]| + 6
    ensures |Flatten(a)| == |Flatten(b)| + 6 * |a|
  {
    if a != [] {
      FlattenLengthDiff(a[1..], b[1..]);
    }
  }

  /** The space inside "a b" becomes the entity. */
  lemma EscapeExample()
    ensures EscapeSpaces("a b") == "a&nbsp;b"
  {
    EscapeSpacesAppend("a", " b");
    EscapeSpacesAppend(" ", "b");
    assert "a" + " b" == "a b" && " " + "b" == " b";
  }

  /** One segment of one word renders to that word's span. */
  lemma {:induction false} SingleWordRendered(w: Word, addWhiteSpaces: bool)
    ensures Rendered([Segment([w])], addWhiteSpaces) == Span(w, addWhiteSpaces)
  {
    var s := [Segment([w])];
    assert s[..0] == [];
    assert SegmentSpans(s[0], addWhiteSpaces) == [Span(w, addWhiteSpaces)];
    FlattenSingle(Span(w, addWhiteSpaces));
  }

  /** A single word whose text holds a space: the space is escaped and the
      tooltip shows its times. */
  lemma OneWordExample()
    ensures Rendered([Segment([Word("a b", "0", "1")])], false) ==
      TooltipOpen + "a&nbsp;b" + TooltipTextOpen + "0-1" + SpansClose
  {
    SingleWordRendered(Word("a b", "0", "1"), false);
    EscapeExample();
    assert "0" + "-" + "1" == "0-1";
  }

  // ---------------------------------------------------------------------
  // The upload form

  datatype FormValue = File(name: string) | Field(value: string)

  class FormData {
    var entries: seq<(string, FormValue)>

    constructor ()
      ensures entries == []
    {
      entries := [];
    }

    method Append(key: string, value: FormValue)
      modifies this
      ensures entries == old(entries) + [(key, value)]
    {
      entries := entries + [(key, value)];
    }
  }

  const DefaultLanguage := "en"
  const DefaultModel := "large-v3"

  /** `createFormData`: the file, then language "en", then model
      "large-v3", in that order. */
  method CreateFormData(file: string) returns (formData: FormData)
    ensures fresh(formData)
    ensures formData.entries == [("file", File(file)), ("language", Field(DefaultLanguage)), ("model", Field(DefaultModel))]
  {
    formData := new FormData();
    formData.Append("file", File(file));
    formData.Append("language", Field(DefaultLanguage));
    formData.Append("model", Field(DefaultModel));
  }

  // ---------------------------------------------------------------------
  // Polling the transcription status

  /** The status JSON of one poll; `transcript` is absent (or has no
      segments) until the transcription is finished. */
  datatype StatusData = StatusData(status: string, transcript: Option<seq<Segment>>)

  /** How one poll's fetch ends: rejected (network failure or a body that
      is not JSON), an HTTP error status, or the parsed status. */
  datatype PollOutcome = Rejected | NotOk(httpStatus: int) | Received(data: StatusData)

  /** What the transcription container shows. */
  datatype Display = Blank | Text(text: string) | Html(html: string)

  const FailedText := "Transcription failed"
  const InProgressText := "Transcription in progress"

  /** The page state one `requestTranscriptionText` call drives. */
  class Poller {
    var timerActive: bool
    var loadingInactive: bool
    var spinnerShown: bool
    var translationActive: bool
    var display: Display
    var buffer: Option<StatusData>

    /** Polling stops only with a final result on the page: the failure
        text, or the rendered transcript that is also kept in the
        buffer. */
    predicate Valid()
      reads this
    {
      !timerActive ==>
        display == Text(FailedText) ||
        (buffer.Some? && buffer.value.transcript.Some? && display == Html(Rendered(buffer.value.transcript.value, false)))
    }

    /** `requestTranscriptionText`: the spinner is shown, the translation
        panel hidden and the interval timer started. */
    constructor (loadingInactive: bool, display: Display, buffer: Option<StatusData>)
      ensures Valid()
      ensures timerActive && spinnerShown && !translationActive
      ensures this.loadingInactive == loadingInactive && this.display == display && this.buffer == buffer
    {
      this.loadingInactive := loadingInactive;
      this.display := display;
      this.buffer := buffer;
      spinnerShown := true;
      translationActive := false;
      timerActive := true;
    }

    /** `handleResponse`. A finished status hides the loader, renders the
        transcript without extra white space, keeps the data, shows the
        translation panel and stops the timer; reading the segments of a
        missing transcript raises after the loader is hidden. A failed
        status hides the loader, shows the failure and stops the timer;
        "in_query" shows progress; any other status changes nothing. */
    method HandleResponse(data: StatusData) returns (raised: bool)
      modifies this
      ensures raised <==> data.status == "finished" && data.transcript.None?
      ensures data.status == "finished" && data.transcript.Some? ==>
        loadingInactive && display == Html(Rendered(data.transcript.value, false)) && buffer == Some(data) &&
        translationActive && !timerActive && spinnerShown == old(spinnerShown)
      ensures data.status == "finished" && data.transcript.None? ==>
        loadingInactive && display == old(display) && buffer == old(buffer) &&
        translationActive == old(translationActive) && timerActive == old(timerActive) && spinnerShown == old(spinnerShown)
      ensures data.status == "failed" ==>
        loadingInactive && display == Text(FailedText) && !timerActive &&
        buffer == old(buffer) && translationActive == old(translationActive) && spinnerShown == old(spinnerShown)
      ensures data.status == "in_query" ==>
        display == Text(InProgressText) && timerActive == old(timerActive) && loadingInactive == old(loadingInactive) &&
        buffer == old(buffer) && translationActive == old(translationActive) && spinnerShown == old(spinnerShown)
      ensures data.status !in {"finished", "failed", "in_query"} ==>
        display == old(display) && timerActive == old(timerActive) && loadingInactive == old(loadingInactive) &&
        buffer == old(buffer) && translationActive == old(translationActive) && spinnerShown == old(spinnerShown)
    {
      raised := false;
      if data.status == "finished" {
        loadingInactive := true;
        if data.transcript.None? {
          return true;
        }
        var html := TimestampedText(data.transcript.value, false);
        display := Html(html);
        buffer := Some(data);
        translationActive := true;
        timerActive := false;
      } else if data.status == "failed" {
        loadingInactive := true;
        display := Text(FailedText);
        timerActive := false;
      } else if data.status == "in_query" {
        display := Text(InProgressText);
      }
    }

    /** `pollTranscription`, one timer tick: a rejected fetch, an HTTP
        error or an exception in `handleResponse` all end in the catch,
        which stops the timer and shows the failure. Ticks happen only
        while the timer runs, and after each one polling has stopped only
        with a final result on the page. */
    method Poll(outcome: PollOutcome)
      requires timerActive
      modifies this
      ensures Valid()
      ensures !timerActive <==>
        !outcome.Received? || outcome.data.status == "finished" || outcome.data.status == "failed"
      ensures (!outcome.Received? || (outcome.data.status == "finished" && outcome.data.transcript.None?)) ==>
        display == Text(FailedText)
      ensures outcome.Received? && outcome.data.status == "finished" && outcome.data.transcript.Some? ==>
        display == Html(Rendered(outcome.data.transcript.value, false)) && translationActive
    {
      if outcome.Received? {
        var raised := HandleResponse(outcome.data);
        if !raised {
          return;
        }
      }
      timerActive := false;
      display := Text(FailedText);
    }
  }

  /** A whole polling session: ticks until the timer stops or the outcomes
      run out. The result is how many outcomes were consumed; when the
      timer has stopped, the page shows the final result. */
  method PollUntilSettled(p: Poller, outcomes: seq<PollOutcome>) returns (ticks: nat)
    requires p.timerActive
    modifies p
    ensures ticks <= |outcomes|
    ensures p.Valid()
    ensures !p.timerActive ==> ticks >= 1 && Settles(outcomes[ticks - 1])
    ensures p.timerActive ==> ticks == |outcomes| && forall k :: 0 <= k < |outcomes| ==> !Settles(outcomes[k])
  {
    ticks := 0;
    while ticks < |outcomes| && p.timerActive
      invariant ticks <= |outcomes|
      invariant p.Valid()
      invariant p.timerActive ==> forall k :: 0 <= k < ticks ==> !Settles(outcomes[k])
      invariant !p.timerActive ==> ticks >= 1 && Settles(outcomes[ticks - 1])
    {
      p.Poll(outcomes[ticks]);
      ticks := ticks + 1;
    }
  }

  /** The outcomes that stop the timer. */
  predicate Settles(outcome: PollOutcome) {
    !outcome.Received? || outcome.data.status == "finished" || outcome.data.status == "failed"
  }
}
