/** Rejoining WordPiece sub-word tokens into words (`merge_subwords` in
    example/POC_translation_and_alignment/attempt_awesome_align.py): a token
    that starts with "##" continues the word being built, any other token
    starts a new one. */
module MergeSubwords {
  import opened TextUtil

  predicate IsSubword(token: string) {
    |token| >= 2 && token[..2] == "##"
  }

  /** What a token adds to the word being built. */
  function Piece(token: string): (r: string)
    ensures IsSubword(token) ==> token == "##" + r
    ensures !IsSubword(token) ==> r == token
  {
    if IsSubword(token) then token[2..] else token
  }

  /** The word list with the pending word closed, if it is not empty. */
  function Close(words: seq<string>, current: string): (r: seq<string>)
    ensures current == "" ==> r == words
    ensures current != "" ==> r == words + [current]
  {
    if current != "" then words + [current] else words
  }

  /** The loop from token i on, with the words so far and the pending word. */
  function MergeFrom(words: seq<string>, current: string, tokens: seq<string>, i: nat): seq<string>
    requires i <= |tokens|
    decreases |tokens| - i
  {
    if i == |tokens| then Close(words, current)
    else if IsSubword(tokens[i]) then MergeFrom(words, current + tokens[i][2..], tokens, i + 1)
    else MergeFrom(Close(words, current), tokens[i], tokens, i + 1)
  }

  function Merged(tokens: seq<string>): seq<string> {
    MergeFrom([], "", tokens, 0)
  }

  /** `merge_subwords`. */
  method MergeSubwordTokens(tokens: seq<string>) returns (words: seq<string>)
    ensures words == Merged(tokens)
  {
    words := [];
    var current := "";
    var i := 0;
    while i < |tokens|
      invariant i <= |tokens|
      invariant MergeFrom(words, current, tokens, i) == Merged(tokens)
    {
      var token := tokens[i];
      if |token| >= 2 && token[..2] == "##" {
        current := current + token[2..];
      } else {
        if current != "" {
          words := words + [current];
        }
        current := token;
      }
      i := i + 1;
    }
    if current != "" {
      words := words + [current];
    }
  }

  // ---------------------------------------------------------------------
  // Properties

  /** The pieces of the tokens from i on, run together. */
  function PiecesFrom(tokens: seq<string>, i: nat): string
    requires i <= |tokens|
    decreases |tokens| - i
  {
    if i == |tokens| then "" else Piece(tokens[i]) + PiecesFrom(tokens, i + 1)
  }

  lemma {:induction false} MergeFromText(words: seq<string>, current: string, tokens: seq<string>, i: nat)
    requires i <= |tokens|
    ensures Flatten(MergeFrom(words, current, tokens, i)) == Flatten(words) + current + PiecesFrom(tokens, i)
    decreases |tokens| - i
  {
    if i == |tokens| {
      ClosedText(words, current);
    } else {
      var rest := PiecesFrom(tokens, i + 1);
      assert PiecesFrom(tokens, i) == Piece(tokens[i]) + rest;
      if IsSubword(tokens[i]) {
        MergeFromText(words, current + tokens[i][2..], tokens, i + 1);
        Regroup(Flatten(words), current, tokens[i][2..], rest);
      } else {
        MergeFromText(Close(words, current), tokens[i], tokens, i + 1);
        ClosedText(words, current);
        ConcatAssoc(Flatten(words) + current, tokens[i], rest);
      }
    }
  }

  /** Closing the pending word appends its text. */
  lemma ClosedText(words: seq<string>, current: string)
    ensures Flatten(Close(words, current)) == Flatten(words) + current
  {
    if current != "" {
      FlattenAppend(words, current);
    } else {
      assert Flatten(words) + current == Flatten(words);
    }
  }

  lemma Regroup(f: string, c: string, p: string, r: string)
    ensures f + (c + p) + r == f + c + (p + r)
  {
    ConcatAssoc(f, c, p);
    ConcatAssoc(f + c, p, r);
  }

  /** Nothing is lost or added: the words run together are the tokens run
      together with their "##" prefixes removed. */
  lemma MergedText(tokens: seq<string>)
    ensures Flatten(Merged(tokens)) == PiecesFrom(tokens, 0)
  {
    MergeFromText([], "", tokens, 0);
  }

  predicate NoEmptyWord(words: seq<string>) {
    forall k :: 0 <= k < |words| ==> words[k] != ""
  }

  lemma {:induction false} MergeFromNoEmpty(words: seq<string>, current: string, tokens: seq<string>, i: nat)
    requires i <= |tokens| && NoEmptyWord(words)
    ensures NoEmptyWord(MergeFrom(words, current, tokens, i))
    decreases |tokens| - i
  {
    if i < |tokens| {
      if IsSubword(tokens[i]) {
        MergeFromNoEmpty(words, current + tokens[i][2..], tokens, i + 1);
      } else {
        MergeFromNoEmpty(Close(words, current), tokens[i], tokens, i + 1);
      }
    }
  }

  lemma {:induction false} MergeFromCount(words: seq<string>, current: string, tokens: seq<string>, i: nat)
    requires i <= |tokens|
    ensures |MergeFrom(words, current, tokens, i)| <= |words| + (if current != "" then 1 else 0) + (|tokens| - i)
    decreases |tokens| - i
  {
    if i < |tokens| {
      if IsSubword(tokens[i]) {
        MergeFromCount(words, current + tokens[i][2..], tokens, i + 1);
      } else {
        MergeFromCount(Close(words, current), tokens[i], tokens, i + 1);
      }
    }
  }

  /** No word is empty, there are no more words than tokens, and no tokens
      give no words. */
  lemma MergedShape(tokens: seq<string>)
    ensures NoEmptyWord(Merged(tokens))
    ensures |Merged(tokens)| <= |tokens|
    ensures tokens == [] ==> Merged(tokens) == []
  {
    MergeFromNoEmpty([], "", tokens, 0);
    MergeFromCount([], "", tokens, 0);
  }

  /** Bert's "play ##ing fine" becomes "playing fine". */
  lemma Example()
    ensures Merged(["play", "##ing", "fine"]) == ["playing", "fine"]
  {
    var t := ["play", "##ing", "fine"];
    assert t[0][..2][0] == 'p' && t[2][..2][0] == 'f';
    assert IsSubword(t[1]) && !IsSubword(t[0]) && !IsSubword(t[2]);
    assert t[1][2..] == "ing";
    calc {
      Merged(t);
      MergeFrom([], "play", t, 1);
      MergeFrom([], "play" + "ing", t, 2);
      { assert "play" + "ing" == "playing"; }
      MergeFrom(Close([], "playing"), "fine", t, 3);
      { assert Close([], "playing") == ["playing"]; }
      MergeFrom(["playing"], "fine", t, 3);
      Close(["playing"], "fine");
    }
  }
}
