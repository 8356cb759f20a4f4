/** Reshaping recogniser output into plain records
    (src/helper/segment_info_parser.py): words and segments of a
    transcription become dictionaries with fixed keys, modelled here as
    datatypes whose fields are those keys. */
module SegmentInfoParser {
  import opened Wrappers
  import opened TextUtil

  /** The `word` attribute of a recogniser word: a string, or any other
      object (None, a number, ...). */
  datatype WordValue = Text(s: string) | NotText

  datatype RawWord = RawWord(start: real, end: real, word: WordValue, probability: real)

  /** The dictionary {start, end, word, probability}. */
  datatype WordDict = WordDict(start: real, end: real, word: string, probability: real)

  datatype RawSegment = RawSegment(
    id: int, seek: int, start: real, end: real, text: string, tokens: seq<int>,
    temperature: real, avgLogprob: real, compressionRatio: real, noSpeechProb: real,
    words: Option<seq<RawWord>>)

  /** The dictionary of one segment: the same keys, with the words parsed. */
  datatype SegmentDict = SegmentDict(
    id: int, seek: int, start: real, end: real, text: string, tokens: seq<int>,
    temperature: real, avgLogprob: real, compressionRatio: real, noSpeechProb: real,
    words: seq<WordDict>)

  /** A dataclass of options, as the field map `asdict` produces. */
  datatype Options = Options(fields: map<string, string>)

  datatype Info = Info(
    language: string, languageProbability: real, duration: real, durationAfterVad: real,
    allLanguageProbs: seq<(string, real)>,
    transcriptionOptions: Option<Options>, vadOptions: Option<Options>)

  /** The info dictionary: the language probabilities are left out. */
  datatype InfoDict = InfoDict(
    language: string, languageProbability: real, duration: real, durationAfterVad: real,
    transcriptionOptions: Option<map<string, string>>, vadOptions: Option<map<string, string>>)

  /** The combined dictionary: exactly the keys "segments" and "info". */
  datatype Combined = Combined(segments: seq<SegmentDict>, info: InfoDict)

  // ---------------------------------------------------------------------
  // Words

  /** The dictionaries of the words whose `word` is a string, in order. */
  function KeptWords(ws: seq<RawWord>): seq<WordDict> {
    if ws == [] then []
    else
      var n := |ws| - 1;
      KeptWords(ws[..n]) + (if ws[n].word.Text? then [WordDict(ws[n].start, ws[n].end, ws[n].word.s, ws[n].probability)] else [])
  }

  /** `parse_segment_words_to_dict`: None gives no words; otherwise the loop
      skips every word whose `word` is not a string. */
  method ParseSegmentWords(wordsArray: Option<seq<RawWord>>) returns (r: seq<WordDict>)
    ensures wordsArray.None? ==> r == []
    ensures wordsArray.Some? ==> r == KeptWords(wordsArray.value)
  {
    r := [];
    if wordsArray.None? {
      return;
    }
    var ws := wordsArray.value;
    var i := 0;
    while i < |ws|
      invariant i <= |ws|
      invariant r == KeptWords(ws[..i])
    {
      assert ws[..i + 1][..i] == ws[..i];
      if !ws[i].word.Text? {
        i := i + 1;
        continue;
      }
      r := r + [WordDict(ws[i].start, ws[i].end, ws[i].word.s, ws[i].probability)];
      i := i + 1;
    }
    assert ws[..i] == ws;
  }

  /** The parse of two runs of words is the two parses in order: order is
      kept and every word is parsed on its own. */
  lemma {:induction false} KeptWordsAppend(a: seq<RawWord>, b: seq<RawWord>)
    ensures KeptWords(a + b) == KeptWords(a) + KeptWords(b)
    decreases |b|
  {
    if b == [] {
      assert a + b == a;
    } else {
      var n := |b| - 1;
      assert (a + b)[..|a| + n] == a + b[..n];
      KeptWordsAppend(a, b[..n]);
      var last := if b[n].word.Text? then [WordDict(b[n].start, b[n].end, b[n].word.s, b[n].probability)] else [];
      ConcatAssoc(KeptWords(a), KeptWords(b[..n]), last);
    }
  }

  /** One word: kept with the same start, end, text and probability when its
      `word` is a string, dropped otherwise. */
  lemma KeptWordsSingle(w: RawWord)
    ensures w.word.Text? ==> KeptWords([w]) == [WordDict(w.start, w.end, w.word.s, w.probability)]
    ensures w.word.NotText? ==> KeptWords([w]) == []
  {
    assert [w][..0] == [];
  }

  /** When every word is a string, every word is kept, in place, with the
      same values. */
  lemma {:induction false} KeptWordsAllText(ws: seq<RawWord>)
    requires forall k :: 0 <= k < |ws| ==> ws[k].word.Text?
    ensures |KeptWords(ws)| == |ws|
    ensures forall k :: 0 <= k < |ws| ==>
      KeptWords(ws)[k] == WordDict(ws[k].start, ws[k].end, ws[k].word.s, ws[k].probability)
  {
    if ws != [] {
      KeptWordsAllText(ws[..|ws| - 1]);
    }
  }

  /** No more words come out than went in. */
  lemma {:induction false} KeptWordsBound(ws: seq<RawWord>)
    ensures |KeptWords(ws)| <= |ws|
  {
    if ws != [] {
      KeptWordsBound(ws[..|ws| - 1]);
    }
  }

  // ---------------------------------------------------------------------
  // Segments

  function SegmentToDict(s: RawSegment, words: seq<WordDict>): SegmentDict {
    SegmentDict(s.id, s.seek, s.start, s.end, s.text, s.tokens, s.temperature, s.avgLogprob,
      s.compressionRatio, s.noSpeechProb, words)
  }

  function ParsedWords(w: Option<seq<RawWord>>): seq<WordDict> {
    if w.None? then [] else KeptWords(w.value)
  }

  /** `parse_transcription_segments_to_dict`: `list(segment)` runs before
      the None check, so None fails with a TypeError and the check never
      fires; otherwise one dictionary per segment, in order, with the
      segment's own values and its words parsed. */
  method ParseTranscriptionSegments(segment: Option<seq<RawSegment>>) returns (r: Result<seq<SegmentDict>>)
    ensures r.Err? <==> segment.None?
    ensures r.Ok? ==> |r.value| == |segment.value|
    ensures r.Ok? ==> forall k :: 0 <= k < |r.value| ==>
      r.value[k] == SegmentToDict(segment.value[k], ParsedWords(segment.value[k].words))
  {
    if segment.None? {
      return Err("TypeError: 'NoneType' object is not iterable");
    }
    var segmentsArray := segment.value;
    var out: seq<SegmentDict> := [];
    var i := 0;
    while i < |segmentsArray|
      invariant i <= |segmentsArray| && |out| == i
      invariant forall k :: 0 <= k < i ==>
        out[k] == SegmentToDict(segmentsArray[k], ParsedWords(segmentsArray[k].words))
    {
      var words := ParseSegmentWords(segmentsArray[i].words);
      out := out + [SegmentToDict(segmentsArray[i], words)];
      i := i + 1;
    }
    r := Ok(out);
  }

  /** `parse_transcription_info_to_dict`: the info fields without the
      language probabilities, and each options object as its field map. */
  function ParseTranscriptionInfo(info: Info): (r: InfoDict)
    ensures r.language == info.language && r.languageProbability == info.languageProbability
    ensures r.duration == info.duration && r.durationAfterVad == info.durationAfterVad
    ensures r.transcriptionOptions.None? <==> info.transcriptionOptions.None?
    ensures info.transcriptionOptions.Some? ==> r.transcriptionOptions.value == info.transcriptionOptions.value.fields
    ensures r.vadOptions.None? <==> info.vadOptions.None?
    ensures info.vadOptions.Some? ==> r.vadOptions.value == info.vadOptions.value.fields
  {
    InfoDict(info.language, info.languageProbability, info.duration, info.durationAfterVad,
      if info.transcriptionOptions.Some? then Some(info.transcriptionOptions.value.fields) else None,
      if info.vadOptions.Some? then Some(info.vadOptions.value.fields) else None)
  }

  /** `parse_segments_and_info_to_dict`: the segments (materialised as a
      list first, so never None) and the info side by side. */
  method ParseSegmentsAndInfo(segments: seq<RawSegment>, info: Info) returns (r: Combined)
    ensures |r.segments| == |segments|
    ensures forall k :: 0 <= k < |segments| ==>
      r.segments[k] == SegmentToDict(segments[k], ParsedWords(segments[k].words))
    ensures r.info == ParseTranscriptionInfo(info)
  {
    var parsed := ParseTranscriptionSegments(Some(segments));
    r := Combined(parsed.value, ParseTranscriptionInfo(info));
  }

  // ---------------------------------------------------------------------
  // The stable-whisper result

  datatype StableWord = StableWord(word: string, start: real, end: real, probability: real)
  datatype StableSegment = StableSegment(text: string, start: real, end: real, words: seq<StableWord>)

  /** A word with its key `word` renamed to `text`. */
  datatype TextWord = TextWord(text: string, start: real, end: real, probability: real)
  datatype ListSegment = ListSegment(text: string, start: real, end: real, words: seq<TextWord>)
  datatype SegmentList = SegmentList(text: string, segments: seq<ListSegment>)

  function SegmentTexts(segs: seq<StableSegment>): (r: seq<string>)
    ensures |r| == |segs|
    ensures forall k :: 0 <= k < |segs| ==> r[k] == segs[k].text
  {
    seq(|segs|, k requires 0 <= k < |segs| => segs[k].text)
  }

  function Renamed(w: StableWord): TextWord {
    TextWord(w.word, w.start, w.end, w.probability)
  }

  /** `parse_segment_list`: the text is the segment texts run together in
      order, and every segment keeps its text and timing, with each word's
      `word` renamed to `text` and its timing and probability kept. */
  method ParseSegmentList(segmentList: seq<StableSegment>) returns (r: SegmentList)
    ensures r.text == Flatten(SegmentTexts(segmentList))
    ensures |r.segments| == |segmentList|
    ensures forall k :: 0 <= k < |segmentList| ==>
      r.segments[k].text == segmentList[k].text && r.segments[k].start == segmentList[k].start &&
      r.segments[k].end == segmentList[k].end && |r.segments[k].words| == |segmentList[k].words|
    ensures forall k, j :: 0 <= k < |segmentList| && 0 <= j < |segmentList[k].words| ==>
      j < |r.segments[k].words| && r.segments[k].words[j] == Renamed(segmentList[k].words[j])
  {
    var text := "";
    var segments: seq<ListSegment> := [];
    var i := 0;
    while i < |segmentList|
      invariant i <= |segmentList| && |segments| == i
      invariant text == Flatten(SegmentTexts(segmentList[..i]))
      invariant forall k :: 0 <= k < i ==> segments[k] == ListSegment(segmentList[k].text,
        segmentList[k].start, segmentList[k].end, RenamedWords(segmentList[k].words))
    {
      var segment := segmentList[i];
      assert SegmentTexts(segmentList[..i + 1]) == SegmentTexts(segmentList[..i]) + [segment.text];
      FlattenAppend(SegmentTexts(segmentList[..i]), segment.text);
      text := text + segment.text;
      var words: seq<TextWord> := [];
      var j := 0;
      while j < |segment.words|
        invariant j <= |segment.words| && |words| == j
        invariant forall m :: 0 <= m < j ==> words[m] == Renamed(segment.words[m])
      {
        var word := segment.words[j];
        words := words + [TextWord(word.word, word.start, word.end, word.probability)];
        j := j + 1;
      }
      assert words == RenamedWords(segment.words);
      segments := segments + [ListSegment(segment.text, segment.start, segment.end, words)];
      i := i + 1;
    }
    assert segmentList[..i] == segmentList;
    r := SegmentList(text, segments);
  }

  function RenamedWords(ws: seq<StableWord>): (r: seq<TextWord>)
    ensures |r| == |ws|
    ensures forall k :: 0 <= k < |ws| ==> r[k] == Renamed(ws[k])
  {
    seq(|ws|, k requires 0 <= k < |ws| => Renamed(ws[k]))
  }

  /** The words of the example in the tests: the two non-string words are
      dropped and "test" is kept with its values. */
  lemma NonStringWordsDropped()
    ensures KeptWords([RawWord(0.0, 1.0, NotText, 0.9), RawWord(1.0, 2.0, NotText, 0.95),
      RawWord(2.0, 3.0, Text("test"), 0.97)]) == [WordDict(2.0, 3.0, "test", 0.97)]
  {
    var ws := [RawWord(0.0, 1.0, NotText, 0.9), RawWord(1.0, 2.0, NotText, 0.95), RawWord(2.0, 3.0, Text("test"), 0.97)];
    assert ws == [ws[0]] + [ws[1]] + [ws[2]];
    KeptWordsAppend([ws[0]] + [ws[1]], [ws[2]]);
    KeptWordsAppend([ws[0]], [ws[1]]);
    KeptWordsSingle(ws[0]);
    KeptWordsSingle(ws[1]);
    KeptWordsSingle(ws[2]);
  }
}
