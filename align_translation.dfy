/** Proportional alignment of a translation onto the words of a transcript
    (src/helper/align_translation_segments.py). Original word i covers the
    fraction range [i/N, (i+1)/N) of the text and translated token j covers
    [j/M, (j+1)/M); a two-pointer walk hands every token to the words its
    range overlaps. All four range ends are compared after multiplying by
    N*M, so word i spans [i*M, (i+1)*M) and token j spans [j*N, (j+1)*N). */
module AlignTranslation {
  import opened TextUtil
  import opened Arith

  // ---------------------------------------------------------------------
  // The distribution the walk computes

  /** ceil(i*m/n): the first token whose range starts at or after the start
      of word i. */
  function FirstToken(i: nat, n: nat, m: nat): nat
    requires n > 0
  {
    (i * m + n - 1) / n
  }

  /** A token j starts inside or after word i exactly when j >= FirstToken(i). */
  lemma FirstTokenSpec(i: nat, n: nat, m: nat, j: nat)
    requires n > 0
    ensures j >= FirstToken(i, n, m) <==> Mul(j, n) >= Mul(i, m)
  {
    MulIsProduct(j, n);
    MulIsProduct(i, m);
    FirstTokenProduct(i, n, m, j);
  }

  lemma FirstTokenProduct(i: nat, n: nat, m: nat, j: nat)
    requires n > 0
    ensures j >= FirstToken(i, n, m) <==> j * n >= i * m
  {
    var f := FirstToken(i, n, m);
    var a := i * m + n - 1;
    assert a == f * n + a % n;
    if j >= f {
      MulMonotone(f, j, n);
    } else {
      MulMonotone(j, f - 1, n);
      assert (f - 1) * n == f * n - n;
    }
  }

  lemma FirstTokenMonotone(i: nat, k: nat, n: nat, m: nat)
    requires n > 0 && i <= k
    ensures FirstToken(i, n, m) <= FirstToken(k, n, m)
  {
    var fk := FirstToken(k, n, m);
    FirstTokenProduct(k, n, m, fk);
    MulMonotone(i, k, m);
    FirstTokenProduct(i, n, m, fk);
  }

  lemma FirstTokenAtEnd(n: nat, m: nat)
    requires n > 0
    ensures FirstToken(0, n, m) == 0
    ensures FirstToken(n, n, m) == m
  {
    FirstTokenProduct(n, n, m, m);
    if m > 0 {
      FirstTokenProduct(n, n, m, m - 1);
      assert (m - 1) * n == m * n - n;
    }
  }

  /** The tokens of word i: those whose range starts inside word i's range. */
  function WordTokens(tokens: seq<string>, n: nat, i: nat): (r: seq<string>)
    requires i < n
  {
    FirstTokenMonotone(i, i + 1, n, |tokens|);
    FirstTokenMonotone(i + 1, n, n, |tokens|);
    FirstTokenAtEnd(n, |tokens|);
    tokens[FirstToken(i, n, |tokens|)..FirstToken(i + 1, n, |tokens|)]
  }

  /** The tokens assigned to each of the n words. */
  function Distribution(tokens: seq<string>, n: nat): (r: seq<seq<string>>)
    ensures |r| == n
    ensures forall i :: 0 <= i < n ==> r[i] == WordTokens(tokens, n, i)
  {
    seq(n, i requires 0 <= i < n => WordTokens(tokens, n, i))
  }

  lemma {:induction false} DistributionPrefix(tokens: seq<string>, n: nat, k: nat)
    requires 0 < n && k <= n
    ensures FirstToken(k, n, |tokens|) <= |tokens|
    ensures Flatten(Distribution(tokens, n)[..k]) == tokens[..FirstToken(k, n, |tokens|)]
  {
    var m := |tokens|;
    FirstTokenMonotone(k, n, n, m);
    FirstTokenAtEnd(n, m);
    if k > 0 {
      var d := Distribution(tokens, n);
      DistributionPrefix(tokens, n, k - 1);
      FirstTokenMonotone(k - 1, k, n, m);
      assert d[..k] == d[..k - 1] + [d[k - 1]];
      FlattenAppend(d[..k - 1], d[k - 1]);
      assert tokens[..FirstToken(k - 1, n, m)] + tokens[FirstToken(k - 1, n, m)..FirstToken(k, n, m)]
        == tokens[..FirstToken(k, n, m)];
    }
  }

  /** Every translated token is handed to exactly one word, in order: the
      words' token lists, concatenated, are the translation's tokens. */
  lemma DistributionIsPartition(tokens: seq<string>, n: nat)
    requires n > 0
    ensures Flatten(Distribution(tokens, n)) == tokens
  {
    DistributionPrefix(tokens, n, n);
    FirstTokenAtEnd(n, |tokens|);
    assert Distribution(tokens, n)[..n] == Distribution(tokens, n);
  }

  // ---------------------------------------------------------------------
  // The two-pointer walk

  /** The walk of `align_segments` over N original words and the M
      translated tokens, filling `aligned_tokens_per_word`. */
  method Distribute(tokens: seq<string>, n: nat) returns (aligned: seq<seq<string>>)
    requires n > 0
    ensures aligned == Distribution(tokens, n)
  {
    var m := |tokens|;
    aligned := seq(n, _ => []);
    var i: nat, j: nat := 0, 0;
    FirstTokenAtEnd(n, m);
    while i < n && j < m
      invariant i <= n && j <= m && |aligned| == n
      invariant FirstToken(i, n, m) <= j
      invariant i < n ==> j <= FirstToken(i + 1, n, m) && aligned[i] == tokens[FirstToken(i, n, m)..j]
      invariant forall k :: 0 <= k < i ==> aligned[k] == WordTokens(tokens, n, k)
      invariant forall k :: i < k < n ==> aligned[k] == []
      decreases (n - i) + (m - j)
    {
      aligned, i, j := WalkStep(tokens, n, aligned, i, j);
    }
    WalkEnd(tokens, n, aligned, i, j);
  }

  /** The comparisons of one turn, in terms of the first tokens of the words:
      the ranges overlap exactly when token j starts before word i ends, and
      word i ends first exactly when token j + 1 starts at or after its end. */
  lemma RangeFacts(i: nat, j: nat, n: nat, m: nat)
    requires 0 < n && i < n && j < m
    requires FirstToken(i, n, m) <= j
    ensures Mul(j, n) < Mul(i + 1, m) <==> j < FirstToken(i + 1, n, m)
    ensures Mul(i + 1, m) <= Mul(j + 1, n) <==> j + 1 >= FirstToken(i + 1, n, m)
    ensures Mul(i, m) <= Mul(j, n) < Mul(j + 1, n)
    ensures Mul(i, m) < Mul(i + 1, m)
  {
    FirstTokenSpec(i + 1, n, m, j);
    FirstTokenSpec(i + 1, n, m, j + 1);
    FirstTokenSpec(i, n, m, j);
  }

  /** One turn of the walk, with the walk's invariant before and after. */
  method WalkStep(tokens: seq<string>, n: nat, aligned: seq<seq<string>>, i: nat, j: nat)
    returns (aligned': seq<seq<string>>, i': nat, j': nat)
    requires n > 0 && i < n && j < |tokens| && |aligned| == n
    requires FirstToken(i, n, |tokens|) <= j <= FirstToken(i + 1, n, |tokens|)
    requires aligned[i] == tokens[FirstToken(i, n, |tokens|)..j]
    requires forall k :: 0 <= k < i ==> aligned[k] == WordTokens(tokens, n, k)
    requires forall k :: i < k < n ==> aligned[k] == []
    ensures i' <= n && j' <= |tokens| && |aligned'| == n
    ensures FirstToken(i', n, |tokens|) <= j'
    ensures i' < n ==> j' <= FirstToken(i' + 1, n, |tokens|) && aligned'[i'] == tokens[FirstToken(i', n, |tokens|)..j']
    ensures forall k :: 0 <= k < i' ==> aligned'[k] == WordTokens(tokens, n, k)
    ensures forall k :: i' < k < n ==> aligned'[k] == []
    ensures (n - i') + (|tokens| - j') < (n - i) + (|tokens| - j)
  {
    var m := |tokens|;
    // Both ranges scaled by n*m.
    var iStart: int, iEnd: int := Mul(i, m), Mul(i + 1, m);
    var jStart: int, jEnd: int := Mul(j, n), Mul(j + 1, n);
    var overlapStart := if iStart >= jStart then iStart else jStart;
    var overlapEnd := if iEnd <= jEnd then iEnd else jEnd;
    var overlap := overlapEnd - overlapStart;
    RangeFacts(i, j, n, m);
    ghost var f, f1 := FirstToken(i, n, m), FirstToken(i + 1, n, m);
    FirstTokenMonotone(i + 1, i + 2, n, m);
    aligned', i', j' := aligned, i, j;
    if overlap > 0 {
      aligned' := aligned'[i := aligned'[i] + [tokens[j]]];
      assert tokens[f..j] + [tokens[j]] == tokens[f..j + 1];
      j' := j + 1;
    }
    if iEnd <= jEnd {
      assert j' == f1;
      i' := i + 1;
    }
    if iEnd >= jEnd && overlap <= 0 {
      // A token that ends where the word starts is never skipped: the
      // source's `j += 1` here is unreachable.
      assert false;
    }
  }

  /** When the walk stops every token has been handed out. */
  lemma WalkEnd(tokens: seq<string>, n: nat, aligned: seq<seq<string>>, i: nat, j: nat)
    requires n > 0 && i <= n && j <= |tokens| && |aligned| == n
    requires !(i < n && j < |tokens|)
    requires FirstToken(i, n, |tokens|) <= j
    requires i < n ==> j <= FirstToken(i + 1, n, |tokens|) && aligned[i] == tokens[FirstToken(i, n, |tokens|)..j]
    requires forall k :: 0 <= k < i ==> aligned[k] == WordTokens(tokens, n, k)
    requires forall k :: i < k < n ==> aligned[k] == []
    ensures aligned == Distribution(tokens, n)
  {
    var m := |tokens|;
    FirstTokenAtEnd(n, m);
    if i < n {
      assert j == m;
      FirstTokenMonotone(i + 1, n, n, m);
      forall k | i < k <= n
        ensures FirstToken(k, n, m) == m
      {
        FirstTokenMonotone(i + 1, k, n, m);
        FirstTokenMonotone(k, n, n, m);
      }
      assert aligned[i] == WordTokens(tokens, n, i);
    }
  }

  /** Six words and three tokens: each token lands on the word whose range
      contains the token's start, so words 0, 2 and 4 receive "Hallo",
      "Welt" and "Test" and the others stay empty. */
  lemma SixWordsThreeTokens()
    ensures Distribution(["Hallo", "Welt", "Test"], 6) == [["Hallo"], [], ["Welt"], [], ["Test"], []]
  {
    SixWordsWord0();
    SixWordsWord1();
    SixWordsWord2();
    SixWordsWord3();
    SixWordsWord4();
    SixWordsWord5();
  }

  lemma SixWordsWord0()
    ensures Distribution(["Hallo", "Welt", "Test"], 6)[0] == ["Hallo"]
  {
    WordTokensBetween(["Hallo", "Welt", "Test"], 6, 0, 0, 1);
  }

  lemma SixWordsWord1()
    ensures Distribution(["Hallo", "Welt", "Test"], 6)[1] == []
  {
    WordTokensBetween(["Hallo", "Welt", "Test"], 6, 1, 1, 1);
  }

  lemma SixWordsWord2()
    ensures Distribution(["Hallo", "Welt", "Test"], 6)[2] == ["Welt"]
  {
    WordTokensBetween(["Hallo", "Welt", "Test"], 6, 2, 1, 2);
  }

  lemma SixWordsWord3()
    ensures Distribution(["Hallo", "Welt", "Test"], 6)[3] == []
  {
    WordTokensBetween(["Hallo", "Welt", "Test"], 6, 3, 2, 2);
  }

  lemma SixWordsWord4()
    ensures Distribution(["Hallo", "Welt", "Test"], 6)[4] == ["Test"]
  {
    WordTokensBetween(["Hallo", "Welt", "Test"], 6, 4, 2, 3);
  }

  lemma SixWordsWord5()
    ensures Distribution(["Hallo", "Welt", "Test"], 6)[5] == []
  {
    LastWordFirstToken();
    LastWordEmpty(["Hallo", "Welt", "Test"], 6);
  }

  lemma LastWordFirstToken()
    ensures FirstToken(5, 6, 3) == 3
  {
  }

  /** The last word receives nothing when its range starts at or after the
      start of the last token's successor. */
  lemma LastWordEmpty(tokens: seq<string>, n: nat)
    requires n > 0 && FirstToken(n - 1, n, |tokens|) == |tokens|
    ensures Distribution(tokens, n)[n - 1] == []
  {
    FirstTokenAtEnd(n, |tokens|);
    assert Distribution(tokens, n)[n - 1] == WordTokens(tokens, n, n - 1);
  }

  lemma WordTokensBetween(tokens: seq<string>, n: nat, i: nat, a: nat, b: nat)
    requires i < n && FirstToken(i, n, |tokens|) == a && FirstToken(i + 1, n, |tokens|) == b
    ensures a <= b <= |tokens| && Distribution(tokens, n)[i] == tokens[a..b]
  {
    FirstTokenMonotone(i, i + 1, n, |tokens|);
    FirstTokenMonotone(i + 1, n, n, |tokens|);
    FirstTokenAtEnd(n, |tokens|);
    assert Distribution(tokens, n)[i] == WordTokens(tokens, n, i);
  }

  // ---------------------------------------------------------------------
  // The transcript

  datatype Word = Word(text: string, start: real, end: real, probability: real)
  datatype Segment = Segment(text: string, start: real, end: real, words: seq<Word>)
  datatype Transcript = Transcript(text: string, segments: seq<Segment>)

  /** An HTTP error carries its status code and detail message. */
  datatype Result<T> = Ok(value: T) | Err(status: nat, detail: string)

  const AlignmentError := "Alignment not possible without translation or transcript"

  /** One entry of `flat_words`: the segment and position an original word
      came from, and the word. */
  datatype Entry = Entry(segmentIndex: nat, wordIndex: nat, word: Word)

  function SegmentEntries(s: nat, ws: seq<Word>): (r: seq<Entry>)
    ensures |r| == |ws|
    ensures forall k :: 0 <= k < |ws| ==> r[k] == Entry(s, k, ws[k])
  {
    seq(|ws|, k requires 0 <= k < |ws| => Entry(s, k, ws[k]))
  }

  /** The entries of the words of segments 0 .. s - 1, in transcript order. */
  function EntriesBefore(segs: seq<Segment>, s: nat): (r: seq<Entry>)
    requires s <= |segs|
    ensures forall k :: 0 <= k < |r| ==> r[k].segmentIndex < s
  {
    if s == 0 then [] else EntriesBefore(segs, s - 1) + SegmentEntries(s - 1, segs[s - 1].words)
  }

  function FlatEntries(segs: seq<Segment>): seq<Entry> {
    EntriesBefore(segs, |segs|)
  }

  /** The number of words in the segments before segment s: the flat index
      of segment s's first word. */
  function Offset(segs: seq<Segment>, s: nat): nat
    requires s <= |segs|
  {
    if s == 0 then 0 else Offset(segs, s - 1) + |segs[s - 1].words|
  }

  lemma {:induction false} EntriesBeforeLength(segs: seq<Segment>, s: nat)
    requires s <= |segs|
    ensures |EntriesBefore(segs, s)| == Offset(segs, s)
  {
    if s > 0 {
      EntriesBeforeLength(segs, s - 1);
    }
  }

  lemma {:induction false} OffsetMonotone(segs: seq<Segment>, s: nat, t: nat)
    requires s <= t <= |segs|
    ensures Offset(segs, s) <= Offset(segs, t)
    decreases t - s
  {
    if s < t {
      OffsetMonotone(segs, s, t - 1);
    }
  }

  /** A word with its text replaced and its timing and probability kept. */
  function Retexted(w: Word, text: string): (r: Word)
    ensures r.start == w.start && r.end == w.end && r.probability == w.probability
    ensures r.text == text
  {
    w.(text := text)
  }

  function RetextWords(ws: seq<Word>, texts: seq<string>): (r: seq<Word>)
    requires |texts| == |ws|
    ensures |r| == |ws|
    ensures forall k :: 0 <= k < |ws| ==> r[k] == Retexted(ws[k], texts[k])
  {
    seq(|ws|, k requires 0 <= k < |ws| => Retexted(ws[k], texts[k]))
  }

  /** The new words of segment s, appended in flat order as the fill loop
      does: entry k gets the text texts[k]. */
  function Filled(es: seq<Entry>, texts: seq<string>, s: nat): seq<Word>
    requires |es| == |texts|
  {
    if es == [] then []
    else
      var n := |es| - 1;
      Filled(es[..n], texts[..n], s) + (if es[n].segmentIndex == s then [Retexted(es[n].word, texts[n])] else [])
  }

  lemma {:induction false} FilledConcat(a: seq<Entry>, ta: seq<string>, b: seq<Entry>, tb: seq<string>, s: nat)
    requires |a| == |ta| && |b| == |tb|
    ensures Filled(a + b, ta + tb, s) == Filled(a, ta, s) + Filled(b, tb, s)
    decreases |b|
  {
    if b == [] {
      assert a + b == a && ta + tb == ta;
    } else {
      var n := |b| - 1;
      assert (a + b)[..|a| + n] == a + b[..n];
      assert (ta + tb)[..|a| + n] == ta + tb[..n];
      FilledConcat(a, ta, b[..n], tb[..n], s);
      ConcatAssoc(Filled(a, ta, s), Filled(b[..n], tb[..n], s),
        if b[n].segmentIndex == s then [Retexted(b[n].word, tb[n])] else []);
    }
  }

  lemma {:induction false} FilledSegment(t: nat, ws: seq<Word>, texts: seq<string>, s: nat)
    requires |texts| == |ws|
    ensures Filled(SegmentEntries(t, ws), texts, s) == if t == s then RetextWords(ws, texts) else []
    decreases |ws|
  {
    if ws != [] {
      var n := |ws| - 1;
      assert SegmentEntries(t, ws)[..n] == SegmentEntries(t, ws[..n]);
      FilledSegment(t, ws[..n], texts[..n], s);
      if t == s {
        assert RetextWords(ws, texts) == RetextWords(ws[..n], texts[..n]) + [Retexted(ws[n], texts[n])];
      }
    }
  }

  /** Segment s's new words are its own words, retexted with the texts at
      its flat positions. */
  lemma {:induction false} FilledBefore(segs: seq<Segment>, k: nat, texts: seq<string>, s: nat)
    requires k <= |segs| && |texts| == Offset(segs, k)
    ensures |EntriesBefore(segs, k)| == |texts|
    ensures s < k ==> Offset(segs, s + 1) <= |texts|
    ensures s < k ==>
      Filled(EntriesBefore(segs, k), texts, s) == RetextWords(segs[s].words, texts[Offset(segs, s)..Offset(segs, s + 1)])
    ensures k <= s ==> Filled(EntriesBefore(segs, k), texts, s) == []
  {
    EntriesBeforeLength(segs, k);
    if k <= s {
      FilledAbsent(EntriesBefore(segs, k), texts, s);
    } else {
      FilledOwnSegment(segs, k, texts, s);
    }
  }

  /** No entry of segment s, no new word for it. */
  lemma {:induction false} FilledAbsent(es: seq<Entry>, texts: seq<string>, s: nat)
    requires |es| == |texts|
    requires forall k :: 0 <= k < |es| ==> es[k].segmentIndex != s
    ensures Filled(es, texts, s) == []
  {
    if es != [] {
      FilledAbsent(es[..|es| - 1], texts[..|es| - 1], s);
    }
  }

  /** Segment s's new words, for s among the first k segments. */
  lemma {:induction false} FilledOwnSegment(segs: seq<Segment>, k: nat, texts: seq<string>, s: nat)
    requires s < k <= |segs| && |texts| == Offset(segs, k)
    ensures |EntriesBefore(segs, k)| == |texts| && Offset(segs, s + 1) <= |texts|
    ensures Filled(EntriesBefore(segs, k), texts, s) == RetextWords(segs[s].words, texts[Offset(segs, s)..Offset(segs, s + 1)])
    decreases k, 1
  {
    if s < k - 1 {
      FilledEarlierSegment(segs, k, texts, s);
    } else {
      FilledSegmentItself(segs, k, texts, s);
    }
  }

  /** Entries of other segments after the ones considered add nothing. */
  lemma FilledWithout(a: seq<Entry>, ta: seq<string>, b: seq<Entry>, tb: seq<string>, s: nat)
    requires |a| == |ta| && |b| == |tb|
    requires forall k :: 0 <= k < |b| ==> b[k].segmentIndex != s
    ensures Filled(a + b, ta + tb, s) == Filled(a, ta, s)
  {
    FilledConcat(a, ta, b, tb, s);
    FilledAbsent(b, tb, s);
    assert Filled(a, ta, s) + [] == Filled(a, ta, s);
  }

  /** After entries of other segments, segment s's own entries give its
      retexted words. */
  lemma FilledOnly(a: seq<Entry>, ta: seq<string>, ws: seq<Word>, tb: seq<string>, s: nat)
    requires |a| == |ta| && |ws| == |tb|
    requires forall k :: 0 <= k < |a| ==> a[k].segmentIndex != s
    ensures Filled(a + SegmentEntries(s, ws), ta + tb, s) == RetextWords(ws, tb)
  {
    FilledConcat(a, ta, SegmentEntries(s, ws), tb, s);
    FilledAbsent(a, ta, s);
    FilledSegment(s, ws, tb, s);
    assert [] + RetextWords(ws, tb) == RetextWords(ws, tb);
  }

  lemma {:induction false} FilledEarlierSegment(segs: seq<Segment>, k: nat, texts: seq<string>, s: nat)
    requires s < k - 1 && k <= |segs| && |texts| == Offset(segs, k)
    ensures |EntriesBefore(segs, k)| == |texts| && Offset(segs, s + 1) <= |texts|
    ensures Filled(EntriesBefore(segs, k), texts, s) == RetextWords(segs[s].words, texts[Offset(segs, s)..Offset(segs, s + 1)])
    decreases k, 0
  {
    EntriesBeforeLength(segs, k);
    EntriesBeforeLength(segs, k - 1);
    var o := Offset(segs, k - 1);
    var a, b := Offset(segs, s), Offset(segs, s + 1);
    var before := EntriesBefore(segs, k - 1);
    var own := SegmentEntries(k - 1, segs[k - 1].words);
    assert EntriesBefore(segs, k) == before + own;
    assert texts == texts[..o] + texts[o..];
    assert Filled(before, texts[..o], s) == RetextWords(segs[s].words, texts[a..b]) by {
      OffsetMonotone(segs, s + 1, k - 1);
      FilledOwnSegment(segs, k - 1, texts[..o], s);
      assert texts[..o][a..b] == texts[a..b];
    }
    FilledWithout(before, texts[..o], own, texts[o..], s);
  }

  lemma {:induction false} FilledSegmentItself(segs: seq<Segment>, k: nat, texts: seq<string>, s: nat)
    requires s == k - 1 && 0 < k <= |segs| && |texts| == Offset(segs, k)
    ensures |EntriesBefore(segs, k)| == |texts| && Offset(segs, s + 1) <= |texts|
    ensures Filled(EntriesBefore(segs, k), texts, s) == RetextWords(segs[s].words, texts[Offset(segs, s)..Offset(segs, s + 1)])
  {
    EntriesBeforeLength(segs, k);
    EntriesBeforeLength(segs, k - 1);
    var o := Offset(segs, k - 1);
    assert texts == texts[..o] + texts[o..];
    assert texts[o..] == texts[Offset(segs, s)..Offset(segs, s + 1)];
    FilledOnly(EntriesBefore(segs, k - 1), texts[..o], segs[s].words, texts[o..], s);
  }

  // ---------------------------------------------------------------------
  // The new transcript

  /** The texts of the words that are not empty, in order. */
  function NonEmptyTexts(ws: seq<Word>): (r: seq<string>)
    ensures |r| <= |ws|
    ensures forall k :: 0 <= k < |r| ==> r[k] != ""
  {
    if ws == [] then []
    else (if ws[0].text != "" then [ws[0].text] else []) + NonEmptyTexts(ws[1..])
  }

  /** A segment's text: its non-empty word texts joined by single spaces. */
  function SegmentText(ws: seq<Word>): string {
    JoinSpace(NonEmptyTexts(ws))
  }

  /** Each word's tokens joined by single spaces ("" for a word without). */
  function Joined(aligned: seq<seq<string>>): (r: seq<string>)
    ensures |r| == |aligned|
    ensures forall k :: 0 <= k < |aligned| ==> r[k] == JoinSpace(aligned[k])
  {
    seq(|aligned|, k requires 0 <= k < |aligned| => JoinSpace(aligned[k]))
  }

  /** The new segments: original timing, the filled words, and the text
      made from those words. */
  function Rebuilt(segs: seq<Segment>, texts: seq<string>): (r: seq<Segment>)
    requires |texts| == |FlatEntries(segs)|
    ensures |r| == |segs|
    ensures forall s :: 0 <= s < |segs| ==> r[s] == RebuiltAt(segs, texts, s)
  {
    seq(|segs|, s requires 0 <= s < |segs| => RebuiltAt(segs, texts, s))
  }

  /** New segment s: its filled words and the text made from them. */
  function RebuiltAt(segs: seq<Segment>, texts: seq<string>, s: nat): Segment
    requires |texts| == |FlatEntries(segs)| && s < |segs|
  {
    var ws := Filled(FlatEntries(segs), texts, s);
    Segment(SegmentText(ws), segs[s].start, segs[s].end, ws)
  }

  /** What `align_segments` returns, or the HTTP error it raises. */
  function Align(original: Transcript, translatedText: string): Result<Transcript> {
    var segs := original.segments;
    var n := |FlatEntries(segs)|;
    if n == 0 || Strip(translatedText) == "" then Err(400, AlignmentError)
    else Ok(Transcript(translatedText, Rebuilt(segs, Joined(Distribution(Split(translatedText), n)))))
  }

  /** `align_segments`: collect the words, reject an empty transcript or a
      blank translation, distribute the tokens, then build the new segments
      and their texts. */
  method AlignSegments(original: Transcript, translatedText: string) returns (r: Result<Transcript>)
    ensures r == Align(original, translatedText)
  {
    var segs := original.segments;
    var flat := CollectEntries(segs);
    if |flat| == 0 || Strip(translatedText) == "" {
      return Err(400, AlignmentError);
    }
    var tokens := Split(translatedText);
    var aligned := Distribute(tokens, |flat|);
    var filled := FillSegments(segs, flat, aligned);
    var out := FixTexts(filled);
    r := Ok(Transcript(translatedText, out));
    assert out == Rebuilt(segs, Joined(aligned));
  }

  /** The nested loop that builds `flat_words`. */
  method CollectEntries(segs: seq<Segment>) returns (flat: seq<Entry>)
    ensures flat == FlatEntries(segs)
  {
    flat := [];
    var s := 0;
    while s < |segs|
      invariant s <= |segs|
      invariant flat == EntriesBefore(segs, s)
    {
      var ws := segs[s].words;
      var k := 0;
      while k < |ws|
        invariant k <= |ws|
        invariant flat == EntriesBefore(segs, s) + SegmentEntries(s, ws[..k])
      {
        assert SegmentEntries(s, ws[..k + 1]) == SegmentEntries(s, ws[..k]) + [Entry(s, k, ws[k])];
        ConcatAssoc(EntriesBefore(segs, s), SegmentEntries(s, ws[..k]), [Entry(s, k, ws[k])]);
        flat := flat + [Entry(s, k, ws[k])];
        k := k + 1;
      }
      assert ws[..k] == ws;
      s := s + 1;
    }
  }

  /** The loop that creates one empty segment per original segment, then the
      loop that appends every word, retexted, to its segment. */
  method FillSegments(segs: seq<Segment>, flat: seq<Entry>, aligned: seq<seq<string>>) returns (out: seq<Segment>)
    requires flat == FlatEntries(segs) && |aligned| == |flat|
    ensures |out| == |segs|
    ensures forall s :: 0 <= s < |segs| ==>
      out[s] == Segment("", segs[s].start, segs[s].end, Filled(flat, Joined(aligned), s))
  {
    out := [];
    var s := 0;
    while s < |segs|
      invariant s <= |segs| && |out| == s
      invariant forall t :: 0 <= t < s ==> out[t] == Segment("", segs[t].start, segs[t].end, [])
    {
      out := out + [Segment("", segs[s].start, segs[s].end, [])];
      s := s + 1;
    }
    ghost var texts := Joined(aligned);
    var idx := 0;
    while idx < |flat|
      invariant idx <= |flat| && |out| == |segs|
      invariant forall t :: 0 <= t < |segs| ==>
        out[t] == Segment("", segs[t].start, segs[t].end, Filled(flat[..idx], texts[..idx], t))
    {
      out := FillStep(segs, flat, texts, out, idx, JoinSpace(aligned[idx]));
      idx := idx + 1;
    }
    assert flat[..idx] == flat && texts[..idx] == texts;
  }

  /** One turn of the fill loop: entry idx's word, with its new text, is
      appended to the words of its own segment. */
  method FillStep(segs: seq<Segment>, flat: seq<Entry>, ghost texts: seq<string>, out: seq<Segment>, idx: nat, text: string)
    returns (out': seq<Segment>)
    requires |flat| == |texts| && idx < |flat| && |out| == |segs|
    requires flat[idx].segmentIndex < |segs| && text == texts[idx]
    requires forall t :: 0 <= t < |segs| ==>
      out[t] == Segment("", segs[t].start, segs[t].end, Filled(flat[..idx], texts[..idx], t))
    ensures |out'| == |segs|
    ensures forall t :: 0 <= t < |segs| ==>
      out'[t] == Segment("", segs[t].start, segs[t].end, Filled(flat[..idx + 1], texts[..idx + 1], t))
  {
    var e := flat[idx];
    var seg := out[e.segmentIndex];
    out' := out[e.segmentIndex := seg.(words := seg.words + [Retexted(e.word, text)])];
    assert flat[..idx + 1][..idx] == flat[..idx];
    assert texts[..idx + 1][..idx] == texts[..idx];
  }

  /** The loop that sets every segment's text from its words. */
  method FixTexts(filled: seq<Segment>) returns (out: seq<Segment>)
    ensures |out| == |filled|
    ensures forall s :: 0 <= s < |filled| ==> out[s] == filled[s].(text := SegmentText(filled[s].words))
  {
    out := filled;
    var s := 0;
    while s < |out|
      invariant |out| == |filled| && s <= |out|
      invariant forall t :: 0 <= t < s ==> out[t] == filled[t].(text := SegmentText(filled[t].words))
      invariant forall t :: s <= t < |out| ==> out[t] == filled[t]
    {
      out := out[s := out[s].(text := JoinSpace(NonEmptyTexts(out[s].words)))];
      s := s + 1;
    }
  }

  // ---------------------------------------------------------------------
  // Properties of the new transcript

  /** The HTTP 400 error is raised exactly when the transcript has no words
      or the translation is blank. */
  lemma AlignFailsExactly(original: Transcript, translatedText: string)
    ensures Align(original, translatedText).Err? <==>
      Offset(original.segments, |original.segments|) == 0 || IsBlank(translatedText)
    ensures Align(original, translatedText).Err? ==> Align(original, translatedText) == Err(400, AlignmentError)
  {
    EntriesBeforeLength(original.segments, |original.segments|);
    SplitEmptyIffBlank(translatedText);
  }

  /** Segment s of the new transcript: the original's timing, its own words
      retexted with the texts of their flat positions, and the text made
      from those words. */
  lemma RebuiltSegment(segs: seq<Segment>, texts: seq<string>, s: nat)
    requires |texts| == Offset(segs, |segs|) == |FlatEntries(segs)| && s < |segs|
    ensures Offset(segs, s) + |segs[s].words| <= |texts|
    ensures var ws := RetextWords(segs[s].words, texts[Offset(segs, s)..Offset(segs, s) + |segs[s].words|]);
      Rebuilt(segs, texts)[s] == Segment(SegmentText(ws), segs[s].start, segs[s].end, ws)
  {
    FilledBefore(segs, |segs|, texts, s);
    assert Offset(segs, s + 1) == Offset(segs, s) + |segs[s].words|;
  }

  /** The new transcript has the translation as its text and the original's
      shape: the same segments with the same timing, the same number of
      words with the same timing and probability, and each segment's text
      made from its non-empty word texts. */
  lemma AlignKeepsStructure(original: Transcript, translatedText: string)
    requires Align(original, translatedText).Ok?
    ensures var r := Align(original, translatedText).value;
      r.text == translatedText && |r.segments| == |original.segments|
    ensures var r := Align(original, translatedText).value;
      forall s :: 0 <= s < |original.segments| ==>
        r.segments[s].start == original.segments[s].start && r.segments[s].end == original.segments[s].end &&
        |r.segments[s].words| == |original.segments[s].words| &&
        r.segments[s].text == JoinSpace(NonEmptyTexts(r.segments[s].words))
    ensures var r := Align(original, translatedText).value;
      forall s, w :: 0 <= s < |original.segments| && 0 <= w < |original.segments[s].words| ==>
        w < |r.segments[s].words| &&
        r.segments[s].words[w].start == original.segments[s].words[w].start &&
        r.segments[s].words[w].end == original.segments[s].words[w].end &&
        r.segments[s].words[w].probability == original.segments[s].words[w].probability
  {
    var segs := original.segments;
    EntriesBeforeLength(segs, |segs|);
    var texts := Joined(Distribution(Split(translatedText), Offset(segs, |segs|)));
    assert Align(original, translatedText).value.segments == Rebuilt(segs, texts);
    forall s | 0 <= s < |segs| {
      RebuiltShape(segs, texts, s);
    }
  }

  /** Segment s of the rebuilt transcript keeps the original segment's
      timing and its words' timing and probability, and takes its text from
      its own words. */
  lemma RebuiltShape(segs: seq<Segment>, texts: seq<string>, s: nat)
    requires |texts| == Offset(segs, |segs|) == |FlatEntries(segs)| && s < |segs|
    ensures var seg := Rebuilt(segs, texts)[s];
      seg.start == segs[s].start && seg.end == segs[s].end &&
      |seg.words| == |segs[s].words| && seg.text == JoinSpace(NonEmptyTexts(seg.words)) &&
      forall w :: 0 <= w < |segs[s].words| ==>
        seg.words[w].start == segs[s].words[w].start &&
        seg.words[w].end == segs[s].words[w].end &&
        seg.words[w].probability == segs[s].words[w].probability
  {
    RebuiltSegment(segs, texts, s);
  }

  /** Every translated token is handed out exactly once and in order: the
      per-word token lists, concatenated in flat word order, are the
      translation's tokens. */
  lemma AlignUsesEveryToken(original: Transcript, translatedText: string)
    requires Align(original, translatedText).Ok?
    ensures var n := Offset(original.segments, |original.segments|);
      n > 0 && Flatten(Distribution(Split(translatedText), n)) == Split(translatedText)
  {
    EntriesBeforeLength(original.segments, |original.segments|);
    DistributionIsPartition(Split(translatedText), Offset(original.segments, |original.segments|));
  }

  /** Word w of segment s gets the token list of flat position Offset(s) + w:
      its text is those tokens joined by single spaces, and it splits back
      into exactly those tokens. */
  lemma AlignWordTokens(original: Transcript, translatedText: string, s: nat, w: nat)
    requires Align(original, translatedText).Ok?
    requires s < |original.segments| && w < |original.segments[s].words|
    ensures var segs := original.segments; var n := Offset(segs, |segs|);
      n > 0 && Offset(segs, s) + w < n &&
      var r := Align(original, translatedText).value;
      var tokens := Distribution(Split(translatedText), n)[Offset(segs, s) + w];
      w < |r.segments[s].words| &&
      r.segments[s].words[w].text == JoinSpace(tokens) &&
      Split(r.segments[s].words[w].text) == tokens
  {
    var segs := original.segments;
    var n := Offset(segs, |segs|);
    var i := Offset(segs, s) + w;
    var d := Distribution(Split(translatedText), n);
    var r := Align(original, translatedText).value;
    assert n > 0 && i < n && w < |r.segments[s].words| && r.segments[s].words[w].text == JoinSpace(d[i]) by {
      EntriesBeforeLength(segs, |segs|);
      var texts := Joined(d);
      assert r.segments == Rebuilt(segs, texts);
      RebuiltWord(segs, texts, s, w);
    }
    assert Split(JoinSpace(d[i])) == d[i] by {
      SplitJoinedTokens(Split(translatedText), n, i);
    }
  }

  /** In the rebuilt segments word w of segment s has the text of flat
      position Offset(s) + w. */
  lemma RebuiltWord(segs: seq<Segment>, texts: seq<string>, s: nat, w: nat)
    requires |texts| == Offset(segs, |segs|) == |FlatEntries(segs)|
    requires s < |segs| && w < |segs[s].words|
    ensures Offset(segs, s) + w < |texts|
    ensures w < |Rebuilt(segs, texts)[s].words| && Rebuilt(segs, texts)[s].words[w].text == texts[Offset(segs, s) + w]
  {
    FilledBefore(segs, |segs|, texts, s);
    assert texts[Offset(segs, s)..Offset(segs, s + 1)][w] == texts[Offset(segs, s) + w];
  }

  /** A word's token list joined by spaces splits back into that list. */
  lemma SplitJoinedTokens(tokens: seq<string>, n: nat, i: nat)
    requires i < n
    requires forall k :: 0 <= k < |tokens| ==> tokens[k] != [] && NoPySpace(tokens[k])
    ensures Split(JoinSpace(Distribution(tokens, n)[i])) == Distribution(tokens, n)[i]
  {
    var m := |tokens|;
    FirstTokenMonotone(i, i + 1, n, m);
    FirstTokenMonotone(i + 1, n, n, m);
    FirstTokenAtEnd(n, m);
    var d := Distribution(tokens, n)[i];
    assert d == tokens[FirstToken(i, n, m)..FirstToken(i + 1, n, m)];
    SplitJoinSpace(d);
  }
}
