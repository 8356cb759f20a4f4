/** The final-context detector of the streaming server
    (src/websocket/final_context_detector.py): it post-processes a final
    transcription that was made with the previous final's audio as context,
    and compares word lists after canonicalisation. */
module FinalContextDetector {
  import opened Wrappers
  import opened TextUtil

  /** One entry of a transcription's "result" list. */
  datatype ResultWord = ResultWord(conf: real, start: real, end: real, word: string)

  /** A transcription object: its "result" word list and its "text". */
  datatype Transcript = Transcript(result: seq<ResultWord>, text: string)

  function Words(ws: seq<ResultWord>): (r: seq<string>)
    ensures |r| == |ws|
    ensures forall k :: 0 <= k < |ws| ==> r[k] == ws[k].word
  {
    if ws == [] then [] else [ws[0].word] + Words(ws[1..])
  }

  /** `remove_first_final_words`: without a previous final (or with an empty
      one) the transcription is returned as it is. Otherwise the last word of
      the new transcription is read, which fails on an empty word list, and
      the transcription comes back with every word kept and its text rebuilt
      from the words. */
  function RemoveFirstFinalWords(lastFinal: Option<Transcript>, resultObject: Transcript, lengthOfFinalsInSec: int): (r: Result<Transcript>)
    ensures lastFinal.None? || lastFinal.value.result == [] ==> r == Ok(resultObject)
    ensures r.Err? <==> lastFinal.Some? && lastFinal.value.result != [] && resultObject.result == []
    ensures r.Ok? ==> r.value.result == resultObject.result
    ensures r.Ok? && lastFinal.Some? && lastFinal.value.result != [] ==>
      r.value.text == JoinSpace(Words(resultObject.result))
  {
    if lastFinal.None? || |lastFinal.value.result| == 0 then Ok(resultObject)
    else if |resultObject.result| == 0 then Err("IndexError: list index out of range")
    else Ok(Transcript(resultObject.result, JoinSpace(Words(resultObject.result))))
  }

  /** Applying the detector to its own output changes nothing more. */
  lemma RemoveFirstFinalWordsIdempotent(lastFinal: Option<Transcript>, resultObject: Transcript, lengthOfFinalsInSec: int)
    requires RemoveFirstFinalWords(lastFinal, resultObject, lengthOfFinalsInSec).Ok?
    ensures var once := RemoveFirstFinalWords(lastFinal, resultObject, lengthOfFinalsInSec).value;
      RemoveFirstFinalWords(lastFinal, once, lengthOfFinalsInSec) == Ok(once)
  {
  }

  /** The rebuilt text is consistent with the word list: splitting it on
      whitespace gives the words back, provided no word is empty or holds
      whitespace. */
  lemma RebuiltTextSplitsIntoWords(lastFinal: Option<Transcript>, resultObject: Transcript, lengthOfFinalsInSec: int)
    requires lastFinal.Some? && lastFinal.value.result != []
    requires resultObject.result != []
    requires forall k :: 0 <= k < |resultObject.result| ==>
      resultObject.result[k].word != [] && NoPySpace(resultObject.result[k].word)
    ensures var r := RemoveFirstFinalWords(lastFinal, resultObject, lengthOfFinalsInSec);
      r.Ok? && Split(r.value.text) == Words(resultObject.result)
  {
    SplitJoinSpace(Words(resultObject.result));
  }

  /** `common_prefix(a, b)`: the index loop that walks both lists while their
      canonical words agree, returning that prefix of `a`. */
  method CommonPrefix(a: seq<string>, b: seq<string>) returns (prefix: seq<string>)
    ensures prefix == a[..CanonicalPrefixLength(a, b)]
  {
    var i := 0;
    while i < |a| && i < |b| && Canonical(a[i]) == Canonical(b[i])
      invariant i <= |a| && i <= |b|
      invariant forall k :: 0 <= k < i ==> Canonical(a[k]) == Canonical(b[k])
    {
      i := i + 1;
    }
    prefix := a[..i];
  }
}
