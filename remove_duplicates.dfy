/** Word de-duplication between two successive final transcripts
    (example/POC_remove_duplicates/remove_duplicate.py, and the same procedure
    with a window of 2 in the streaming server of that example): words at the
    start of the new text that also occur at the end of the previous text are
    dropped. */
module RemoveDuplicates {
  import opened TextUtil

  /** Window of the stand-alone function; the streaming server uses 2. */
  const Window: nat := 5
  const ServerWindow: nat := 2

  /** `ws[-n:]` for n > 0: the last n words, or all of them. */
  function LastWords(ws: seq<string>, n: nat): (r: seq<string>)
    ensures |r| <= n
    ensures |ws| <= n ==> r == ws
    ensures |ws| > n ==> r == ws[|ws| - n..]
  {
    if |ws| <= n then ws else ws[|ws| - n..]
  }

  /** `ws[:n]`. */
  function FirstWords(ws: seq<string>, n: nat): (r: seq<string>)
    ensures |r| == (if |ws| <= n then |ws| else n)
    ensures r == ws[..|r|]
  {
    if |ws| <= n then ws else ws[..n]
  }

  /** `ws[n:]`. */
  function LaterWords(ws: seq<string>, n: nat): (r: seq<string>)
    ensures FirstWords(ws, n) + r == ws
  {
    if |ws| <= n then [] else ws[n..]
  }

  /** The words of `ws` that do not occur in `drop`, in order. */
  function Keep(ws: seq<string>, drop: seq<string>): (r: seq<string>)
    ensures |r| <= |ws|
  {
    if ws == [] then []
    else if ws[0] in drop then Keep(ws[1..], drop)
    else [ws[0]] + Keep(ws[1..], drop)
  }

  /** What `Keep` keeps: exactly the words of `ws` outside `drop`. */
  lemma {:induction false} KeepMembers(ws: seq<string>, drop: seq<string>)
    ensures forall w :: w in Keep(ws, drop) <==> w in ws && w !in drop
  {
    if ws != [] {
      KeepMembers(ws[1..], drop);
      assert forall w :: w in ws <==> w == ws[0] || w in ws[1..];
    }
  }

  lemma {:induction false} KeepAppend(ws: seq<string>, w: string, drop: seq<string>)
    ensures Keep(ws + [w], drop) == Keep(ws, drop) + (if w in drop then [] else [w])
  {
    if ws == [] {
      assert [] + [w] == [w];
    } else {
      assert (ws + [w])[1..] == ws[1..] + [w];
      KeepAppend(ws[1..], w, drop);
    }
  }

  /** The words of the de-duplicated new text: the first `window` words of
      the new text without any word among the last `window` words of the
      previous text, then the remaining words of the new text untouched. */
  function Deduplicated(words1: seq<string>, words2: seq<string>, window: nat): seq<string> {
    Keep(FirstWords(words2, window), LastWords(words1, window)) + LaterWords(words2, window)
  }

  /** `list.remove(x)`: delete the first occurrence of `x`. */
  function RemoveFirst(ws: seq<string>, x: string): (r: seq<string>)
    requires x in ws
    ensures |r| == |ws| - 1
  {
    if ws[0] == x then ws[1..] else [ws[0]] + RemoveFirst(ws[1..], x)
  }

  lemma {:induction false} RemoveFirstAfter(p: seq<string>, x: string, q: seq<string>)
    requires x !in p
    ensures x in p + [x] + q
    ensures RemoveFirst(p + [x] + q, x) == p + q
  {
    if p != [] {
      assert (p + [x] + q)[1..] == p[1..] + [x] + q;
      RemoveFirstAfter(p[1..], x, q);
      assert p == [p[0]] + p[1..];
    }
  }

  /** `remove_duplicates(text1, text2)` with the window as a parameter: split
      both texts, remove from a copy of the head window every word found in
      the tail window of the previous text, then join the result with single
      spaces. */
  method RemoveDuplicates(text1: string, text2: string, window: nat) returns (r: string)
    requires window > 0
    ensures r == JoinSpace(Deduplicated(Split(text1), Split(text2), window))
  {
    var words1 := Split(text1);
    var words2 := Split(text2);
    var lastWords1 := LastWords(words1, window);
    var firstWords2 := FirstWords(words2, window);
    var newWords2 := firstWords2;
    var i := 0;
    while i < |firstWords2|
      invariant i <= |firstWords2|
      invariant newWords2 == Keep(firstWords2[..i], lastWords1) + firstWords2[i..]
    {
      newWords2 := RemoveStep(newWords2, firstWords2, i, lastWords1);
      i := i + 1;
    }
    assert firstWords2[..i] == firstWords2;
    assert firstWords2[i..] == [];
    assert newWords2 == Keep(firstWords2, lastWords1);
    var uniqueText2 := newWords2 + LaterWords(words2, window);
    r := JoinSpace(uniqueText2);
  }

  /** One turn of the removal loop: the i-th head word is removed from the
      copy when the tail window holds it. */
  method RemoveStep(newWords: seq<string>, head: seq<string>, i: nat, drop: seq<string>) returns (r: seq<string>)
    requires i < |head|
    requires newWords == Keep(head[..i], drop) + head[i..]
    ensures r == Keep(head[..i + 1], drop) + head[i + 1..]
  {
    var word := head[i];
    var kept := Keep(head[..i], drop);
    assert head[i..] == [word] + head[i + 1..];
    assert head[..i + 1] == head[..i] + [word];
    KeepAppend(head[..i], word, drop);
    if word in drop {
      KeepMembers(head[..i], drop);
      ConcatAssoc(kept, [word], head[i + 1..]);
      RemoveFirstAfter(kept, word, head[i + 1..]);
      r := RemoveFirst(newWords, word);
    } else {
      ConcatAssoc(kept, [word], head[i + 1..]);
      r := newWords;
    }
  }

  /** Words beyond the window are never removed: they end the result in
      their original order. */
  lemma LaterWordsSurvive(words1: seq<string>, words2: seq<string>, window: nat)
    ensures var d := Deduplicated(words1, words2, window);
      |d| >= |LaterWords(words2, window)|
      && d[|d| - |LaterWords(words2, window)|..] == LaterWords(words2, window)
  {
  }

  /** Removal is by value: no word of the result's head is in the previous
      text's tail window, and every head word that is not there survives. */
  lemma HeadRemovalByValue(words1: seq<string>, words2: seq<string>, window: nat)
    ensures var head := Keep(FirstWords(words2, window), LastWords(words1, window));
      && Deduplicated(words1, words2, window)[..|head|] == head
      && (forall w :: w in head <==> w in FirstWords(words2, window) && w !in LastWords(words1, window))
  {
    KeepMembers(FirstWords(words2, window), LastWords(words1, window));
  }

  lemma {:induction false} KeepNothing(ws: seq<string>)
    ensures Keep(ws, []) == ws
  {
    if ws != [] {
      KeepNothing(ws[1..]);
    }
  }

  /** An empty previous text removes nothing: the new text comes back with
      its whitespace normalised. */
  lemma EmptyPreviousKeepsAll(text1: string, text2: string, window: nat)
    requires Split(text1) == []
    ensures Deduplicated(Split(text1), Split(text2), window) == Split(text2)
  {
    KeepNothing(FirstWords(Split(text2), window));
  }

  /** The result text splits back into exactly the de-duplicated words, so
      any run of whitespace in the input becomes a single space. */
  lemma ResultSplitsIntoWords(text1: string, text2: string, window: nat)
    ensures var d := Deduplicated(Split(text1), Split(text2), window);
      Split(JoinSpace(d)) == d
  {
    var words1, words2 := Split(text1), Split(text2);
    var head, tail := FirstWords(words2, window), LastWords(words1, window);
    var d := Deduplicated(words1, words2, window);
    KeepMembers(head, tail);
    assert forall k :: 0 <= k < |d| ==> d[k] in words2;
    SplitJoinSpace(d);
  }

  /** The words of the two transcripts of the worked example; each
      transcript is these words separated by single spaces. */
  function ExamplePreviousWords(): seq<string> {
    ["Ich", "rufe", "nun", "auf", "den", "Tagesordnungspunkt.", "Punkt", "2.", "Abgabe", "einer",
     "Regierungserklärung", "durch", "den", "Bundeskanzler", "zum", "Europäischen"]
  }

  function ExampleNextWords(): seq<string> {
    ["Europäischen", "Rat", "am", "21.", "und", "22.", "März", "2024."]
  }

  predicate AreWords(ws: seq<string>) {
    forall k :: 0 <= k < |ws| ==> ws[k] != [] && NoPySpace(ws[k])
  }

  /** Letters, digits and the full stop: the characters of the example. */
  predicate PlainChar(c: char) {
    'A' <= c <= 'Z' || 'a' <= c <= 'z' || '0' <= c <= '9' || c == '.' || c == 'ä'
  }

  predicate PlainWords(ws: seq<string>) {
    forall k :: 0 <= k < |ws| ==> ws[k] != [] && forall i :: 0 <= i < |ws[k]| ==> PlainChar(ws[k][i])
  }

  lemma PlainWordsAreWords(ws: seq<string>)
    requires PlainWords(ws)
    ensures AreWords(ws)
  {
  }

  function ExamplePreviousHead(): seq<string> {
    ["Ich", "rufe", "nun", "auf", "den", "Tagesordnungspunkt.", "Punkt", "2."]
  }

  function ExamplePreviousRest(): seq<string> {
    ["Abgabe", "einer", "Regierungserklärung", "durch", "den", "Bundeskanzler", "zum", "Europäischen"]
  }

  lemma ExamplePreviousHeadPlain()
    ensures PlainWords(ExamplePreviousHead())
  {
  }

  lemma ExamplePreviousRestPlain()
    ensures PlainWords(ExamplePreviousRest())
  {
  }

  lemma PlainWordsConcat(a: seq<string>, b: seq<string>)
    requires PlainWords(a) && PlainWords(b)
    ensures PlainWords(a + b)
  {
    assert forall k :: |a| <= k < |a + b| ==> (a + b)[k] == b[k - |a|];
  }

  lemma ExamplePreviousAreWords()
    ensures AreWords(ExamplePreviousWords())
  {
    ExamplePreviousHeadPlain();
    ExamplePreviousRestPlain();
    PlainWordsConcat(ExamplePreviousHead(), ExamplePreviousRest());
    assert ExamplePreviousWords() == ExamplePreviousHead() + ExamplePreviousRest();
    PlainWordsAreWords(ExamplePreviousWords());
  }

  lemma ExampleNextAreWords()
    ensures AreWords(ExampleNextWords())
  {
    assert PlainWords(ExampleNextWords());
    PlainWordsAreWords(ExampleNextWords());
  }

  lemma ExampleWindows()
    ensures LastWords(ExamplePreviousWords(), Window) == ["durch", "den", "Bundeskanzler", "zum", "Europäischen"]
    ensures FirstWords(ExampleNextWords(), Window) == ["Europäischen", "Rat", "am", "21.", "und"]
    ensures LaterWords(ExampleNextWords(), Window) == ["22.", "März", "2024."]
  {
  }

  /** On the words of the worked example, only "Europäischen", which ends the
      previous text, is removed from the start of the next one. */
  lemma ExampleDeduplicated()
    ensures Deduplicated(ExamplePreviousWords(), ExampleNextWords(), Window)
      == ["Rat", "am", "21.", "und", "22.", "März", "2024."]
  {
    ExampleWindows();
    var tail := LastWords(ExamplePreviousWords(), Window);
    var head := FirstWords(ExampleNextWords(), Window);
    assert "Rat" !in tail && "am" !in tail && "21." !in tail && "und" !in tail;
    assert Keep(head[4..], tail) == ["und"];
    assert Keep(head[3..], tail) == ["21.", "und"];
    assert Keep(head[2..], tail) == ["am", "21.", "und"];
    assert Keep(head[1..], tail) == ["Rat", "am", "21.", "und"];
  }

  /** The worked example as text: the previous and the next transcript are
      their words separated by single spaces. */
  method ExampleScenario() returns (r: string)
    ensures r == JoinSpace(["Rat", "am", "21.", "und", "22.", "März", "2024."])
  {
    ExamplePreviousAreWords();
    ExampleNextAreWords();
    SplitJoinSpace(ExamplePreviousWords());
    SplitJoinSpace(ExampleNextWords());
    ExampleDeduplicated();
    r := RemoveDuplicates(JoinSpace(ExamplePreviousWords()), JoinSpace(ExampleNextWords()), Window);
  }
}
