/** The local-agreement policy of the streaming transcriber
    (src/helper/local_agreement.py): a word is confirmed once two successive
    hypotheses agree on it, position by position, after canonicalisation;
    confirmed words are later flushed up to the last sentence end. */
module LocalAgreement {
  import opened Wrappers
  import opened TextUtil

  /** A recognised word with its time span in seconds. */
  datatype Word = Word(start: real, end: real, word: string, probability: real)

  /** `symbol in text` for the three sentence terminators. */
  predicate HasSentenceEnd(text: string) {
    '.' in text || '?' in text || '!' in text
  }

  /** The words of a word list, in order. */
  function Texts(ws: seq<Word>): (r: seq<string>)
    ensures |r| == |ws|
    ensures forall k :: 0 <= k < |ws| ==> r[k] == ws[k].word
  {
    if ws == [] then [] else [ws[0].word] + Texts(ws[1..])
  }

  /** The words strictly after time `t`, in order (the comprehension
      `[w for w in incoming if w.start > t]`). */
  function StartingAfter(ws: seq<Word>, t: real): (r: seq<Word>)
    ensures |r| <= |ws|
    ensures forall k :: 0 <= k < |r| ==> r[k].start > t
  {
    if ws == [] then []
    else if ws[0].start > t then [ws[0]] + StartingAfter(ws[1..], t)
    else StartingAfter(ws[1..], t)
  }

  /** Filtering invents no word: every kept word is an incoming one. */
  lemma {:induction false} StartingAfterFromInput(ws: seq<Word>, t: real)
    ensures forall w :: w in StartingAfter(ws, t) ==> w in ws
  {
    if ws != [] {
      StartingAfterFromInput(ws[1..], t);
    }
  }

  /** Filtering keeps exactly the words that start after `t`. */
  lemma {:induction false} StartingAfterKeeps(ws: seq<Word>, t: real)
    ensures (forall k :: 0 <= k < |ws| ==> ws[k].start > t) <==> StartingAfter(ws, t) == ws
  {
    if ws != [] {
      StartingAfterKeeps(ws[1..], t);
      if ws[0].start <= t {
        assert |StartingAfter(ws, t)| < |ws|;
      } else {
        assert (forall k :: 0 <= k < |ws| ==> ws[k].start > t)
          <==> (forall k :: 0 <= k < |ws[1..]| ==> ws[1..][k].start > t);
      }
    }
  }

  /** The incoming hypothesis after dropping the words that overlap the
      confirmed text (more than 0.1 s before the last confirmed end). */
  function Admitted(incoming: seq<Word>, confirmed: seq<Word>): seq<Word> {
    if |confirmed| > 0 then StartingAfter(incoming, confirmed[|confirmed| - 1].end - 0.1)
    else incoming
  }

  /** The words whose end lies after `t`, in their order. */
  function EndingAfter(ws: seq<Word>, t: real): (r: seq<Word>)
    ensures |r| <= |ws|
    ensures forall k :: 0 <= k < |r| ==> r[k].end > t
    ensures forall w :: w in r <==> w in ws && w.end > t
  {
    if ws == [] then []
    else if ws[0].end > t then [ws[0]] + EndingAfter(ws[1..], t)
    else EndingAfter(ws[1..], t)
  }

  /** Index of the last word containing a sentence terminator, or -1. */
  function LastSentenceEnd(ws: seq<Word>): (r: int)
    ensures -1 <= r < |ws|
    ensures r >= 0 ==> HasSentenceEnd(ws[r].word)
    ensures forall k :: r < k < |ws| ==> !HasSentenceEnd(ws[k].word)
  {
    if ws == [] then -1
    else if HasSentenceEnd(ws[|ws| - 1].word) then |ws| - 1
    else LastSentenceEnd(ws[..|ws| - 1])
  }

  /** Python's clamping of a slice bound `n` against a list of length `len`:
      a negative bound counts from the end. */
  function SliceBound(n: int, len: nat): (k: nat)
    ensures k <= len
    ensures 0 <= n <= len ==> k == n
    ensures n > len ==> k == len
    ensures n < 0 ==> k == (if len + n < 0 then 0 else len + n)
  {
    if n < 0 then (if len + n < 0 then 0 else len + n)
    else if n > len then len
    else n
  }

  /** The backward index loop of `flush_at_sentence_end`. */
  method FindLastSentenceEnd(ws: seq<Word>) returns (ind: int)
    ensures ind == LastSentenceEnd(ws)
  {
    var i := |ws| - 1;
    ind := -1;
    while i >= 0
      invariant -1 <= i < |ws|
      invariant LastSentenceEnd(ws) == LastSentenceEnd(ws[..i + 1])
      decreases i
    {
      if HasSentenceEnd(ws[i].word) {
        ind := i;
        return;
      }
      assert ws[..i + 1][..i] == ws[..i];
      i := i - 1;
    }
  }

  class LocalAgreement {
    var unconfirmed: seq<Word>
    var confirmed: seq<Word>
    var confirmedContainsSentenceEnd: bool

    constructor ()
      ensures unconfirmed == [] && confirmed == [] && !confirmedContainsSentenceEnd
    {
      unconfirmed := [];
      confirmed := [];
      confirmedContainsSentenceEnd := false;
    }

    /** `clear`: forget both hypotheses and the sentence-end flag. */
    method Clear()
      modifies this
      ensures unconfirmed == [] && confirmed == [] && !confirmedContainsSentenceEnd
    {
      unconfirmed := [];
      confirmed := [];
      confirmedContainsSentenceEnd := false;
    }

    /** `flush_confirmed(word_count)`: hand out the first `word_count`
        confirmed words (all of them when no count is given) and keep the
        rest. The flag always ends False: the source tests whether a
        terminator string is an element of the list of words, which it never
        is. */
    method FlushConfirmed(wordCount: Option<int>) returns (flushed: seq<Word>)
      modifies this
      ensures var k := if wordCount.None? then |old(confirmed)| else SliceBound(wordCount.value, |old(confirmed)|);
        flushed == old(confirmed)[..k] && confirmed == old(confirmed)[k..]
      ensures flushed + confirmed == old(confirmed)
      ensures wordCount.None? ==> flushed == old(confirmed) && confirmed == []
      ensures unconfirmed == old(unconfirmed)
      ensures !confirmedContainsSentenceEnd
    {
      var k := if wordCount.None? then |confirmed| else SliceBound(wordCount.value, |confirmed|);
      flushed := confirmed[..k];
      assert flushed + confirmed[k..] == confirmed;
      confirmed := confirmed[k..];
      confirmedContainsSentenceEnd := false;
    }

    /** `flush_at_sentence_end`: search from the back for the last confirmed
        word holding `.`, `?` or `!`; flush through it, or flush nothing. */
    method FlushAtSentenceEnd() returns (flushed: seq<Word>)
      modifies this
      ensures var r := LastSentenceEnd(old(confirmed));
        if r < 0 then
          flushed == [] && confirmed == old(confirmed)
          && confirmedContainsSentenceEnd == old(confirmedContainsSentenceEnd)
        else
          flushed == old(confirmed)[..r + 1] && confirmed == old(confirmed)[r + 1..]
          && !confirmedContainsSentenceEnd
      ensures flushed + confirmed == old(confirmed)
      ensures forall k :: 0 <= k < |confirmed| ==> !HasSentenceEnd(confirmed[k].word)
      ensures unconfirmed == old(unconfirmed)
    {
      var ind := FindLastSentenceEnd(confirmed);
      if ind < 0 {
        assert confirmed[..0] == [];
        return [];
      }
      ghost var before := confirmed;
      flushed := FlushConfirmedFlagged(Some(ind + 1));
      assert forall k :: 0 <= k < |confirmed| ==> confirmed[k] == before[ind + 1 + k];
    }

    /** `flush_confirmed` as evidently intended: the same split, with the
        flag recomputed from the words that stay confirmed. */
    method FlushConfirmedFlagged(wordCount: Option<int>) returns (flushed: seq<Word>)
      modifies this
      ensures var k := if wordCount.None? then |old(confirmed)| else SliceBound(wordCount.value, |old(confirmed)|);
        flushed == old(confirmed)[..k] && confirmed == old(confirmed)[k..]
      ensures flushed + confirmed == old(confirmed)
      ensures unconfirmed == old(unconfirmed)
      ensures confirmedContainsSentenceEnd <==> exists k :: 0 <= k < |confirmed| && HasSentenceEnd(confirmed[k].word)
    {
      var k := if wordCount.None? then |confirmed| else SliceBound(wordCount.value, |confirmed|);
      flushed := confirmed[..k];
      assert flushed + confirmed[k..] == confirmed;
      confirmed := confirmed[k..];
      var ind := FindLastSentenceEnd(confirmed);
      confirmedContainsSentenceEnd := ind >= 0;
    }

    /** `merge(incoming)`: drop the incoming words that overlap the confirmed
        text, confirm the prefix on which the incoming and the previous
        hypotheses agree, and keep the rest as the new unconfirmed
        hypothesis. `confirmed` only ever grows. */
    method Merge(incoming: seq<Word>) returns (result: seq<Word>)
      modifies this
      ensures var admitted := Admitted(incoming, old(confirmed));
        var n := CanonicalPrefixLength(Texts(admitted), Texts(old(unconfirmed)));
        && confirmed == old(confirmed) + admitted[..n]
        && unconfirmed == admitted[n..]
        && confirmedContainsSentenceEnd ==
             (if n > 0 && !old(confirmedContainsSentenceEnd)
              then HasSentenceEnd(JoinSpace(Texts(admitted[..n])))
              else old(confirmedContainsSentenceEnd))
      ensures result == confirmed
    {
      var words := incoming;
      if |confirmed| > 0 {
        words := StartingAfter(incoming, confirmed[|confirmed| - 1].end - 0.1);
      }
      var commonPrefix, ind := GetCommonPrefix(words);
      if |commonPrefix| > 0 && !confirmedContainsSentenceEnd {
        var commonPrefixText := JoinSpace(Texts(commonPrefix));
        confirmedContainsSentenceEnd := HasSentenceEnd(commonPrefixText);
      }
      confirmed := confirmed + commonPrefix;
      if |commonPrefix| < |words| {
        unconfirmed := words[ind..];
      } else {
        unconfirmed := [];
      }
      result := confirmed;
    }

    /** `get_common_prefix(new)`: the index loop that walks the new words and
        `unconfirmed` while their canonical words agree. */
    method GetCommonPrefix(newWords: seq<Word>) returns (prefix: seq<Word>, i: nat)
      ensures i == CanonicalPrefixLength(Texts(newWords), Texts(unconfirmed))
      ensures prefix == newWords[..i]
    {
      i := 0;
      while i < |newWords| && i < |unconfirmed| && Canonical(newWords[i].word) == Canonical(unconfirmed[i].word)
        invariant i <= |newWords| && i <= |unconfirmed|
        invariant forall k :: 0 <= k < i ==> Canonical(newWords[k].word) == Canonical(unconfirmed[k].word)
      {
        i := i + 1;
      }
      prefix := newWords[..i];
    }

    /** `get_confirmed_text(cutoff)`: the confirmed words ending after
        `cutoff + 0.01`, joined by single spaces. */
    /** `get_confirmed_text`: the confirmed words ending more than 0.01 s
        after the cutoff, joined by spaces. */
    function ConfirmedText(cutoff: real): (r: string)
      reads this
      ensures (forall k :: 0 <= k < |confirmed| ==> confirmed[k].end > cutoff + 0.01) ==>
        r == JoinSpace(Texts(confirmed))
      ensures (forall k :: 0 <= k < |confirmed| ==> confirmed[k].end <= cutoff + 0.01) ==> r == ""
    {
      assert (forall k :: 0 <= k < |confirmed| ==> confirmed[k].end > cutoff + 0.01) ==>
          EndingAfter(confirmed, cutoff + 0.01) == confirmed by {
        if forall k :: 0 <= k < |confirmed| ==> confirmed[k].end > cutoff + 0.01 {
          ConfirmedTextAll(confirmed, cutoff);
        }
      }
      ConfirmedTextNone(confirmed, cutoff);
      JoinSpace(Texts(EndingAfter(confirmed, cutoff + 0.01)))
    }
  }

  /** With the default cutoff 0.0, a confirmed list whose words all end after
      0.01 s is rendered whole. */
  lemma {:induction false} ConfirmedTextAll(ws: seq<Word>, cutoff: real)
    requires forall k :: 0 <= k < |ws| ==> ws[k].end > cutoff + 0.01
    ensures EndingAfter(ws, cutoff + 0.01) == ws
  {
    if ws != [] {
      ConfirmedTextAll(ws[1..], cutoff);
    }
  }

  /** A confirmed list whose words all end by the cutoff renders as "". */
  lemma {:induction false} ConfirmedTextNone(ws: seq<Word>, cutoff: real)
    ensures (forall k :: 0 <= k < |ws| ==> ws[k].end <= cutoff + 0.01) ==> EndingAfter(ws, cutoff + 0.01) == []
  {
    if ws != [] && forall k :: 0 <= k < |ws| ==> ws[k].end <= cutoff + 0.01 {
      ConfirmedTextNone(ws[1..], cutoff);
    }
  }

  /** The filter works piecewise, so it keeps the order of the words. */
  lemma {:induction false} EndingAfterAppend(a: seq<Word>, b: seq<Word>, t: real)
    ensures EndingAfter(a + b, t) == EndingAfter(a, t) + EndingAfter(b, t)
  {
    if a == [] {
      assert a + b == b;
    } else {
      assert (a + b)[0] == a[0] && (a + b)[1..] == a[1..] + b;
      EndingAfterAppend(a[1..], b, t);
    }
  }

  /** The i-th word of the example hypotheses: one second per word, ending
      0.1 s before the next word starts. */
  function SampleWord(i: nat, text: string, probability: real): Word {
    Word(i as real, (i + 1) as real - 0.1, text, probability)
  }

  /** The three hypotheses of the worked example: the first guesses "Error"
      for the third word, the second and third extend "This is a test". */
  function Partial1(): seq<Word> {
    [SampleWord(0, "This", 0.9), SampleWord(1, "is", 0.9), SampleWord(2, "Error", 0.1)]
  }

  function Partial2(): seq<Word> {
    [SampleWord(0, "This", 0.9), SampleWord(1, "is", 0.9), SampleWord(2, "a", 0.9), SampleWord(3, "test", 0.9)]
  }

  function Partial3(): seq<Word> {
    [SampleWord(0, "This", 0.9), SampleWord(1, "is", 0.9), SampleWord(2, "a", 0.9), SampleWord(3, "test", 0.9),
     SampleWord(4, "sentence", 0.9), SampleWord(5, "for", 0.9), SampleWord(6, "local", 0.9), SampleWord(7, "agreement", 0.9)]
  }

  /** The second hypothesis agrees with the first on "This is" only. */
  lemma SecondAgreement()
    ensures CanonicalPrefixLength(Texts(Partial2()), Texts(Partial1())) == 2
  {
    Partial1Texts();
    Partial2Texts();
    SampleCanonical();
    var a, b := ["This", "is", "a", "test"], ["This", "is", "Error"];
    assert a[1..] == ["is", "a", "test"] && b[1..] == ["is", "Error"];
    assert a[1..][1..] == ["a", "test"] && b[1..][1..] == ["Error"];
  }

  lemma Partial1Texts()
    ensures Texts(Partial1()) == ["This", "is", "Error"]
  {
  }

  /** The canonical forms of the example's words. */
  lemma SampleCanonical()
    ensures Canonical("This") == "this" && Canonical("is") == "is"
    ensures Canonical("a") == "a" && Canonical("Error") == "error"
  {
    CanonicalThis();
    CanonicalError();
    CanonicalOfAz("is");
    CanonicalOfAz("a");
  }

  lemma CanonicalThis()
    ensures Canonical("This") == "this"
  {
    CanonicalCapitalised('T', "his");
    assert "This" == ['T'] + "his";
  }

  lemma CanonicalError()
    ensures Canonical("Error") == "error"
  {
    CanonicalCapitalised('E', "rror");
    assert "Error" == ['E'] + "rror";
  }

  /** A capital followed by small letters canonicalises to the word in
      small letters. */
  lemma CanonicalCapitalised(c: char, rest: string)
    requires 'A' <= c <= 'Z'
    requires forall i :: 0 <= i < |rest| ==> IsLowerAz(rest[i])
    ensures Canonical([c] + rest) == [(c as int - 'A' as int + 'a' as int) as char] + rest
  {
    CanonicalAppend([c], rest);
    CanonicalChar(c);
    CanonicalOfAz(rest);
  }

  /** The overlap filter of the third merge keeps the words from 2 s on. */
  lemma ThirdAdmitted()
    ensures Admitted(Partial3(), Partial2()[..2]) == Partial3()[2..]
  {
    Partial3Starts();
    var confirmed := Partial2()[..2];
    assert confirmed[|confirmed| - 1].end - 0.1 == 1.8;
    AdmittedAfterOverlap(Partial3(), confirmed, 2);
  }

  /** When the incoming words up to `n` start within 0.1 s of the last
      confirmed end (or before it) and the others after, the filter drops
      exactly the first `n`. */
  lemma AdmittedAfterOverlap(incoming: seq<Word>, confirmed: seq<Word>, n: nat)
    requires |confirmed| > 0 && n <= |incoming|
    requires forall k :: 0 <= k < n ==> incoming[k].start <= confirmed[|confirmed| - 1].end - 0.1
    requires forall k :: n <= k < |incoming| ==> incoming[k].start > confirmed[|confirmed| - 1].end - 0.1
    ensures Admitted(incoming, confirmed) == incoming[n..]
  {
    StartingAfterSplit(incoming, confirmed[|confirmed| - 1].end - 0.1, n);
  }

  /** Word k of the third hypothesis starts at k seconds. */
  lemma Partial3Starts()
    ensures |Partial3()| == 8
    ensures forall k :: 0 <= k < 8 ==> Partial3()[k].start == k as real
  {
  }

  lemma {:induction false} StartingAfterSplit(ws: seq<Word>, t: real, n: nat)
    requires n <= |ws|
    requires forall k :: 0 <= k < n ==> ws[k].start <= t
    requires forall k :: n <= k < |ws| ==> ws[k].start > t
    ensures StartingAfter(ws, t) == ws[n..]
  {
    if n == 0 {
      StartingAfterKeeps(ws, t);
    } else {
      StartingAfterSplit(ws[1..], t, n - 1);
      assert ws[1..][n - 1..] == ws[n..];
    }
  }

  /** The admitted words agree with the pending "a test". */
  lemma ThirdAgreement()
    ensures CanonicalPrefixLength(Texts(Partial3()[2..]), Texts(Partial2()[2..])) == 2
  {
  }

  /** The third merge confirms "a test" behind "This is". */
  lemma ThirdConfirmed()
    ensures Partial2()[..2] + Partial3()[2..][..2] == Partial2()
  {
    var p2, p3 := Partial2(), Partial3();
    assert p3[..4] == p2;
    SplitAt(p3, 2, 4);
  }

  lemma SplitAt<T>(s: seq<T>, i: nat, j: nat)
    requires i <= j <= |s|
    ensures s[..i] + s[i..][..j - i] == s[..j]
  {
  }

  /** The confirmed text of the example after the second merge. */
  lemma SecondText()
    ensures JoinSpace(Texts(EndingAfter(Partial2()[..2], 0.0 + 0.01))) == "This is"
  {
    SecondPrefix();
    var ws := [SampleWord(0, "This", 0.9), SampleWord(1, "is", 0.9)];
    assert EndingAfter(ws, 0.0 + 0.01) == ws by {
      assert forall k :: 0 <= k < |ws| ==> ws[k].end > 0.0 + 0.01;
      ConfirmedTextAll(ws, 0.0);
    }
    assert Texts(ws) == ["This", "is"];
    assert JoinSpace(["This", "is"]) == "This is" by {
      assert ["This", "is"][1..] == ["is"];
    }
  }

  lemma SecondPrefix()
    ensures Partial2()[..2] == [SampleWord(0, "This", 0.9), SampleWord(1, "is", 0.9)]
  {
  }

  /** The confirmed text of the example after the third merge. */
  lemma ThirdText()
    ensures JoinSpace(Texts(EndingAfter(Partial2(), 0.0 + 0.01))) == "This is a test"
  {
    Partial2Kept();
    Partial2Texts();
    JoinedTest();
  }

  /** Every word of the second hypothesis ends after 0.01 s. */
  lemma Partial2Kept()
    ensures EndingAfter(Partial2(), 0.0 + 0.01) == Partial2()
  {
    var ws := Partial2();
    assert forall k :: 0 <= k < |ws| ==> ws[k].end > 0.0 + 0.01;
    ConfirmedTextAll(ws, 0.0);
  }

  lemma Partial2Texts()
    ensures Texts(Partial2()) == ["This", "is", "a", "test"]
  {
  }

  lemma JoinedTest()
    ensures JoinSpace(["This", "is", "a", "test"]) == "This is a test"
  {
    var ts := ["This", "is", "a", "test"];
    assert ts[1..] == ["is", "a", "test"] && ts[1..][1..] == ["a", "test"] && ts[1..][1..][1..] == ["test"];
    assert JoinSpace(["a", "test"]) == "a test";
    assert JoinSpace(["is", "a", "test"]) == "is a test";
  }

  /** The worked example of the source's test: after three successive
      hypotheses the confirmed text reads "", then "This is", then
      "This is a test"; the disagreeing word "Error" is never confirmed. */
  method MergeScenario() returns (t1: string, t2: string, t3: string)
    ensures t1 == "" && t2 == "This is" && t3 == "This is a test"
  {
    var agreement := new LocalAgreement();
    var _ := agreement.Merge(Partial1());
    assert agreement.confirmed == [] && agreement.unconfirmed == Partial1();
    t1 := agreement.ConfirmedText(0.0);

    SecondAgreement();
    var _ := agreement.Merge(Partial2());
    assert agreement.confirmed == Partial2()[..2] && agreement.unconfirmed == Partial2()[2..];
    SecondText();
    t2 := agreement.ConfirmedText(0.0);

    ThirdAdmitted();
    ThirdAgreement();
    ThirdConfirmed();
    var _ := agreement.Merge(Partial3());
    assert agreement.confirmed == Partial2();
    ThirdText();
    t3 := agreement.ConfirmedText(0.0);
  }

  /** Flushing the first of two confirmed sentences leaves "Bye." confirmed,
      yet `flush_confirmed` as written reports no sentence end, while the
      intended flush reports one. */
  method FlushFlagScenario() returns (asWritten: bool, intended: bool, rest: seq<Word>)
    ensures rest == [SampleWord(1, "Bye.", 0.9)] && HasSentenceEnd(rest[0].word)
    ensures !asWritten && intended
  {
    var words := [SampleWord(0, "Hi.", 0.9), SampleWord(1, "Bye.", 0.9)];
    var a := new LocalAgreement();
    a.confirmed := words;
    a.confirmedContainsSentenceEnd := true;
    var _ := a.FlushConfirmed(Some(1));
    asWritten := a.confirmedContainsSentenceEnd;
    rest := a.confirmed;
    var b := new LocalAgreement();
    b.confirmed := words;
    b.confirmedContainsSentenceEnd := true;
    var _ := b.FlushConfirmedFlagged(Some(1));
    assert HasSentenceEnd(b.confirmed[0].word);
    intended := b.confirmedContainsSentenceEnd;
  }

  /** The source's clear test, for any hypothesis: merging the same words
      twice into a fresh agreement confirms all of them, and clearing
      empties the confirmed text again. */
  method RepeatScenario(ws: seq<Word>) returns (before: string, after: string)
    requires forall k :: 0 <= k < |ws| ==> ws[k].end > 0.01
    ensures before == JoinSpace(Texts(ws))
    ensures after == ""
  {
    var agreement := new LocalAgreement();
    var _ := agreement.Merge(ws);
    assert agreement.confirmed == [] && agreement.unconfirmed == ws;
    CanonicalPrefixOfItself(Texts(ws));
    var _ := agreement.Merge(ws);
    assert agreement.confirmed == ws;
    ConfirmedTextAll(ws, 0.0);
    before := agreement.ConfirmedText(0.0);
    agreement.Clear();
    after := agreement.ConfirmedText(0.0);
  }
}
