/** Turning a forced alignment into a transcript segment
    (`get_segments_from_alignment` in src/helper/forced_alignment.py): blank
    alignment words are skipped, a punctuation token is glued onto the
    previous output word, and every other word becomes an output word that
    starts and ends at its alignment start time. */
module ForcedAlignment {
  import opened Wrappers
  import opened TextUtil

  /** The aligner's output: parallel lists of words and their times. */
  datatype Alignment = Alignment(words: seq<string>, wordStartTimes: seq<real>, wordEndTimes: seq<real>, sentenceDuration: real)

  /** `align_sentence` builds the three lists from the same word boundaries,
      so they always have the same length. */
  predicate Parallel(a: Alignment) {
    |a.wordStartTimes| == |a.words| && |a.wordEndTimes| == |a.words|
  }

  datatype Word = Word(start: real, end: real, word: string, probability: real)

  /** The fields of the returned segment this procedure sets; the others are
      constants (seek 0, no tokens, zero scores). */
  datatype Segment = Segment(id: nat, words: seq<Word>, start: real, end: real, text: string)

  const Terminating: seq<string> := [".", ",", "!", "?"]

  /** The probability every output word is given. */
  const WordProbability: real := 0.99

  function Max(a: real, b: real): (r: real)
    ensures r >= a && r >= b && (r == a || r == b)
  {
    if a >= b then a else b
  }

  /** A stripped alignment word that becomes an output word of its own. */
  predicate IsContent(stripped: string) {
    stripped != "" && stripped !in Terminating
  }

  /** One turn of the loop on the words built so far. */
  function Step(acc: seq<Word>, w: string, start: real, end: real): (r: seq<Word>)
    ensures |r| == |acc| + (if IsContent(Strip(w)) then 1 else 0)
    ensures |acc| > 0 ==> r[..|acc| - 1] == acc[..|acc| - 1]
    ensures IsContent(Strip(w)) ==> r == acc + [Word(start, start, Strip(w), WordProbability)]
  {
    var stripped := Strip(w);
    if |stripped| == 0 then acc
    else if stripped in Terminating then
      if |acc| > 0 then
        var last := acc[|acc| - 1];
        acc[..|acc| - 1] + [last.(word := last.word + stripped, end := Max(last.end, end))]
      else acc
    else acc + [Word(start, start, stripped, WordProbability)]
  }

  /** The loop from word `from` on, starting with the output `acc`. */
  function FoldFrom(acc: seq<Word>, a: Alignment, from: nat): seq<Word>
    requires Parallel(a) && from <= |a.words|
    decreases |a.words| - from
  {
    if from == |a.words| then acc
    else FoldFrom(Step(acc, a.words[from], a.wordStartTimes[from], a.wordEndTimes[from]), a, from + 1)
  }

  /** The output words of the whole loop. */
  function Folded(a: Alignment): seq<Word>
    requires Parallel(a)
  {
    FoldFrom([], a, 0)
  }

  /** `get_segments_from_alignment`: the loop over the alignment words, then
      the segment, whose timing reads the first start and the last end time
      (an IndexError for an empty alignment). */
  method GetSegmentFromAlignment(a: Alignment, rawText: string) returns (r: Result<Segment>)
    requires Parallel(a)
    ensures r.Err? <==> a.words == []
    ensures r.Ok? ==> r.value == Segment(|rawText|, Folded(a), a.wordStartTimes[0], a.wordEndTimes[|a.wordEndTimes| - 1], rawText)
  {
    var words: seq<Word> := [];
    var i := 0;
    while i < |a.words|
      invariant i <= |a.words|
      invariant FoldFrom(words, a, i) == Folded(a)
    {
      assert FoldFrom(words, a, i) == FoldFrom(Step(words, a.words[i], a.wordStartTimes[i], a.wordEndTimes[i]), a, i + 1);
      words := StepWords(words, a.words[i], a.wordStartTimes[i], a.wordEndTimes[i]);
      i := i + 1;
    }
    assert FoldFrom(words, a, i) == words;
    if |a.wordEndTimes| == 0 || |a.wordStartTimes| == 0 {
      return Err("IndexError: list index out of range");
    }
    r := Ok(Segment(|rawText|, words, a.wordStartTimes[0], a.wordEndTimes[|a.wordEndTimes| - 1], rawText));
  }

  /** One turn of the loop: a blank word is skipped, a punctuation token is
      glued onto the last output word (and dropped before any), and any
      other word is appended. */
  method StepWords(words: seq<Word>, w: string, start: real, end: real) returns (words': seq<Word>)
    ensures words' == Step(words, w, start, end)
  {
    words' := words;
    var stripped := Strip(w);
    if |stripped| == 0 {
      return;
    }
    if stripped in Terminating {
      if |words'| > 0 {
        var last := words'[|words'| - 1];
        words' := words'[..|words'| - 1] + [last.(word := last.word + stripped, end := Max(last.end, end))];
      }
      return;
    }
    words' := words' + [Word(start, start, stripped, WordProbability)];
  }

  // ---------------------------------------------------------------------
  // Properties of the output words

  /** The number of alignment words from `from` on that become output words. */
  function ContentCount(a: Alignment, from: nat): nat
    requires from <= |a.words|
    decreases |a.words| - from
  {
    if from == |a.words| then 0
    else (if IsContent(Strip(a.words[from])) then 1 else 0) + ContentCount(a, from + 1)
  }

  lemma {:induction false} ContentCountBound(a: Alignment, from: nat)
    requires from <= |a.words|
    ensures ContentCount(a, from) <= |a.words| - from
    decreases |a.words| - from
  {
    if from < |a.words| {
      ContentCountBound(a, from + 1);
    }
  }

  /** Exactly one output word per content word: blank words are skipped and
      punctuation never makes a word of its own (before any word it is
      dropped), so there are at most as many output words as alignment
      words. */
  lemma {:induction false} FoldedLength(a: Alignment)
    requires Parallel(a)
    ensures |Folded(a)| == ContentCount(a, 0) <= |a.words|
  {
    FoldFromLength([], a, 0);
    ContentCountBound(a, 0);
  }

  lemma {:induction false} FoldFromLength(acc: seq<Word>, a: Alignment, from: nat)
    requires Parallel(a) && from <= |a.words|
    ensures |FoldFrom(acc, a, from)| == |acc| + ContentCount(a, from)
    decreases |a.words| - from
  {
    if from < |a.words| {
      FoldFromLength(Step(acc, a.words[from], a.wordStartTimes[from], a.wordEndTimes[from]), a, from + 1);
    }
  }

  /** The loop only ever appends words or changes the last one: the words
      before the last one are final. */
  lemma {:induction false} FoldFromKeepsEarlier(acc: seq<Word>, a: Alignment, from: nat)
    requires Parallel(a) && from <= |a.words| && |acc| > 0
    ensures |FoldFrom(acc, a, from)| >= |acc|
    ensures FoldFrom(acc, a, from)[..|acc| - 1] == acc[..|acc| - 1]
    decreases |a.words| - from
  {
    if from < |a.words| {
      var next := Step(acc, a.words[from], a.wordStartTimes[from], a.wordEndTimes[from]);
      FoldFromKeepsEarlier(next, a, from + 1);
      assert FoldFrom(acc, a, from)[..|acc| - 1] == FoldFrom(next, a, from + 1)[..|next| - 1][..|acc| - 1];
    }
  }

  /** What every output word looks like: a non-empty text, the fixed
      probability, and an end time no earlier than its start time. */
  predicate WellShaped(ws: seq<Word>) {
    forall k :: 0 <= k < |ws| ==> ws[k].word != "" && ws[k].probability == WordProbability && ws[k].start <= ws[k].end
  }

  lemma {:induction false} FoldFromWellShaped(acc: seq<Word>, a: Alignment, from: nat)
    requires Parallel(a) && from <= |a.words| && WellShaped(acc)
    ensures WellShaped(FoldFrom(acc, a, from))
    decreases |a.words| - from
  {
    if from < |a.words| {
      var next := Step(acc, a.words[from], a.wordStartTimes[from], a.wordEndTimes[from]);
      assert WellShaped(next);
      FoldFromWellShaped(next, a, from + 1);
    }
  }

  /** Every output word has a non-empty text, probability 0.99 and an end no
      earlier than its start. */
  lemma FoldedWellShaped(a: Alignment)
    requires Parallel(a)
    ensures WellShaped(Folded(a))
  {
    FoldFromWellShaped([], a, 0);
  }

  /** A content word followed by a punctuation token becomes one output word:
      the stripped word with the punctuation glued on, starting at the
      word's start and ending at the later of its start and the
      punctuation's end. */
  lemma PunctuationGlued(acc: seq<Word>, w: string, p: string, start: real, s2: real, e1: real, e2: real)
    requires IsContent(Strip(w)) && Strip(p) in Terminating
    ensures Step(Step(acc, w, start, e1), p, s2, e2) ==
      acc + [Word(start, Max(start, e2), Strip(w) + Strip(p), WordProbability)]
  {
    var once := Step(acc, w, start, e1);
    assert once[..|once| - 1] == acc;
  }

  /** The output words' texts run together. */
  function AllText(ws: seq<Word>): string {
    if ws == [] then "" else AllText(ws[..|ws| - 1]) + ws[|ws| - 1].word
  }

  /** The stripped alignment words from `from` on, run together. */
  function StrippedFrom(a: Alignment, from: nat): string
    requires from <= |a.words|
    decreases |a.words| - from
  {
    if from == |a.words| then "" else Strip(a.words[from]) + StrippedFrom(a, from + 1)
  }

  lemma StepText(acc: seq<Word>, w: string, start: real, end: real)
    requires acc != []
    ensures AllText(Step(acc, w, start, end)) == AllText(acc) + Strip(w)
  {
    var r := Step(acc, w, start, end);
    var n := |acc| - 1;
    if Strip(w) == "" {
      assert AllText(acc) + Strip(w) == AllText(acc);
    } else if Strip(w) in Terminating {
      assert r[..n] == acc[..n];
      ConcatAssoc(AllText(acc[..n]), acc[n].word, Strip(w));
    } else {
      assert r[..|acc|] == acc;
    }
  }

  /** No text is lost once the first word exists: the output texts run
      together are the stripped alignment words run together. */
  lemma {:induction false} FoldFromText(acc: seq<Word>, a: Alignment, from: nat)
    requires Parallel(a) && from <= |a.words| && acc != []
    ensures AllText(FoldFrom(acc, a, from)) == AllText(acc) + StrippedFrom(a, from)
    decreases |a.words| - from
  {
    if from < |a.words| {
      var next := Step(acc, a.words[from], a.wordStartTimes[from], a.wordEndTimes[from]);
      assert FoldFrom(acc, a, from) == FoldFrom(next, a, from + 1);
      StepText(acc, a.words[from], a.wordStartTimes[from], a.wordEndTimes[from]);
      FoldFromText(next, a, from + 1);
      assert StrippedFrom(a, from) == Strip(a.words[from]) + StrippedFrom(a, from + 1);
      ConcatAssoc(AllText(acc), Strip(a.words[from]), StrippedFrom(a, from + 1));
    }
  }

  /** The index of the first alignment word at or after `from` that becomes
      an output word, or the number of words when there is none. */
  function FirstContent(a: Alignment, from: nat): (r: nat)
    requires from <= |a.words|
    ensures from <= r <= |a.words|
    ensures r < |a.words| ==> IsContent(Strip(a.words[r]))
    decreases |a.words| - from
  {
    if from == |a.words| || IsContent(Strip(a.words[from])) then from else FirstContent(a, from + 1)
  }

  /** The output text is the alignment text from the first content word on:
      only punctuation and blanks before it are lost. */
  lemma FoldedText(a: Alignment)
    requires Parallel(a)
    ensures var first := FirstContent(a, 0);
      AllText(Folded(a)) == if first == |a.words| then "" else StrippedFrom(a, first)
  {
    var first := FirstContent(a, 0);
    LeadingDropped(a, 0);
    if first < |a.words| {
      TextFromFirstContent(a, first);
    }
  }

  /** From a content word on, with nothing built yet, the output text is
      the stripped alignment text. */
  lemma TextFromFirstContent(a: Alignment, first: nat)
    requires Parallel(a) && first < |a.words| && IsContent(Strip(a.words[first]))
    ensures AllText(FoldFrom([], a, first)) == StrippedFrom(a, first)
  {
    var start := [Word(a.wordStartTimes[first], a.wordStartTimes[first], Strip(a.words[first]), WordProbability)];
    assert FoldFrom([], a, first) == FoldFrom(start, a, first + 1);
    FoldFromText(start, a, first + 1);
    assert AllText(start) == Strip(a.words[first]);
  }

  /** Words before the first content word leave the output empty. */
  lemma {:induction false} LeadingDropped(a: Alignment, from: nat)
    requires Parallel(a) && from <= |a.words|
    ensures FoldFrom([], a, from) == FoldFrom([], a, FirstContent(a, from))
    decreases |a.words| - from
  {
    if from < |a.words| && !IsContent(Strip(a.words[from])) {
      SkipBeforeFirst(a, from);
      LeadingDropped(a, from + 1);
    }
  }

  lemma SkipBeforeFirst(a: Alignment, from: nat)
    requires Parallel(a) && from < |a.words| && !IsContent(Strip(a.words[from]))
    ensures FoldFrom([], a, from) == FoldFrom([], a, from + 1)
  {
    var next := Step([], a.words[from], a.wordStartTimes[from], a.wordEndTimes[from]);
    assert |next| == 0;
  }
}
