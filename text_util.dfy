/** String and sequence helpers shared by the models: the whitespace classes of
    Python's `str.split`/`str.strip` and of JavaScript's `\s`, Python's
    `" ".join`, the ASCII part of `str.lower`, and the word canonicalisation that
    the transcript helpers use to compare words. */
module TextUtil {

  /** Characters Python's `str.split()` and `str.strip()` treat as whitespace. */
  predicate IsPySpace(c: char) {
    c == ' ' || ('\t' <= c <= '\r') || ('\U{1C}' <= c <= '\U{1F}') ||
    c == '\U{85}' || c == '\U{A0}' || c == '\U{1680}' ||
    ('\U{2000}' <= c <= '\U{200A}') || c == '\U{2028}' || c == '\U{2029}' ||
    c == '\U{202F}' || c == '\U{205F}' || c == '\U{3000}'
  }

  /** Characters JavaScript's regular-expression class `\s` matches. */
  predicate IsJsSpace(c: char) {
    c == ' ' || ('\t' <= c <= '\r') || c == '\U{A0}' || c == '\U{1680}' ||
    ('\U{2000}' <= c <= '\U{200A}') || c == '\U{2028}' || c == '\U{2029}' ||
    c == '\U{202F}' || c == '\U{205F}' || c == '\U{3000}' || c == '\U{FEFF}'
  }

  predicate NoPySpace(s: string) {
    forall i :: 0 <= i < |s| ==> !IsPySpace(s[i])
  }

  predicate IsBlank(s: string) {
    forall i :: 0 <= i < |s| ==> IsPySpace(s[i])
  }

  /** Length of the leading run of non-space characters of `s`. */
  function WordLength(s: string): (n: nat)
    ensures n <= |s|
    ensures NoPySpace(s[..n])
    ensures n < |s| ==> IsPySpace(s[n])
  {
    if s == [] || IsPySpace(s[0]) then 0
    else
      var n := WordLength(s[1..]);
      assert s[..n + 1] == [s[0]] + s[1..][..n];
      n + 1
  }

  /** Python's `s.split()` with no argument: the maximal runs of non-space
      characters, in order. */
  function Split(s: string): (r: seq<string>)
    ensures forall k :: 0 <= k < |r| ==> r[k] != [] && NoPySpace(r[k])
    decreases |s|
  {
    if s == [] then []
    else if IsPySpace(s[0]) then Split(s[1..])
    else
      var n := WordLength(s);
      [s[..n]] + Split(s[n..])
  }

  /** Python's `" ".join(ws)`. */
  function JoinSpace(ws: seq<string>): string {
    if |ws| == 0 then ""
    else if |ws| == 1 then ws[0]
    else ws[0] + " " + JoinSpace(ws[1..])
  }

  /** Concatenation of a sequence of sequences (Python's `"".join`, or the
      successive `+=` of a loop). */
  function Flatten<T>(ss: seq<seq<T>>): seq<T> {
    if ss == [] then [] else ss[0] + Flatten(ss[1..])
  }

  lemma ConcatAssoc<T>(a: seq<T>, b: seq<T>, c: seq<T>)
    ensures (a + b) + c == a + (b + c)
  {
  }

  lemma FlattenAppend<T>(ss: seq<seq<T>>, t: seq<T>)
    ensures Flatten(ss + [t]) == Flatten(ss) + t
  {
    if ss == [] {
      assert [] + [t] == [t];
    } else {
      assert (ss + [t])[1..] == ss[1..] + [t];
      FlattenAppend(ss[1..], t);
    }
  }

  lemma FlattenConcat<T>(a: seq<seq<T>>, b: seq<seq<T>>)
    ensures Flatten(a + b) == Flatten(a) + Flatten(b)
  {
    if a == [] {
      assert a + b == b;
    } else {
      assert (a + b)[1..] == a[1..] + b;
      FlattenConcat(a[1..], b);
    }
  }

  lemma SplitBlank(s: string)
    requires IsBlank(s)
    ensures Split(s) == []
  {
    if s != [] {
      SplitBlank(s[1..]);
    }
  }

  /** A string splits into no words exactly when it is blank, which is also
      exactly when `s.strip()` is empty. */
  lemma {:induction false} SplitEmptyIffBlank(s: string)
    ensures Split(s) == [] <==> IsBlank(s)
    ensures Strip(s) == "" <==> IsBlank(s)
    decreases |s|
  {
    if s == [] {
    } else if IsPySpace(s[0]) {
      SplitEmptyIffBlank(s[1..]);
      assert IsBlank(s) <==> IsBlank(s[1..]);
    } else {
      assert !IsBlank(s);
    }
  }

  lemma {:induction false} SplitOfWord(w: string, rest: string)
    requires w != [] && NoPySpace(w)
    requires rest == [] || IsPySpace(rest[0])
    ensures Split(w + rest) == [w] + Split(rest)
  {
    var s := w + rest;
    WordLengthOfWord(w, rest);
    assert s[..|w|] == w;
    assert s[|w|..] == rest;
  }

  lemma {:induction false} WordLengthOfWord(w: string, rest: string)
    requires NoPySpace(w)
    requires rest == [] || IsPySpace(rest[0])
    ensures WordLength(w + rest) == |w|
    decreases |w|
  {
    if w != [] {
      assert (w + rest)[1..] == w[1..] + rest;
      WordLengthOfWord(w[1..], rest);
    }
  }

  /** Round trip: splitting the space-joined words gives the words back, as
      long as no word is empty or contains whitespace. */
  lemma {:induction false} SplitJoinSpace(ws: seq<string>)
    requires forall k :: 0 <= k < |ws| ==> ws[k] != [] && NoPySpace(ws[k])
    ensures Split(JoinSpace(ws)) == ws
  {
    if |ws| == 0 {
    } else if |ws| == 1 {
      SplitOfWord(ws[0], "");
      assert ws[0] + "" == ws[0];
    } else {
      var rest := JoinSpace(ws[1..]);
      SplitJoinSpace(ws[1..]);
      assert ws[0] + " " + rest == ws[0] + (" " + rest);
      SplitOfWord(ws[0], " " + rest);
      assert (" " + rest)[1..] == rest;
    }
  }

  /** Python's `s.strip()` with no argument. */
  function Strip(s: string): (r: string)
    ensures |r| <= |s|
  {
    TrimEnd(TrimStart(s))
  }

  function TrimStart(s: string): (r: string)
    ensures |r| <= |s|
    ensures r == [] || !IsPySpace(r[0])
    ensures IsBlank(s) <==> r == []
  {
    if s != [] && IsPySpace(s[0]) then TrimStart(s[1..]) else s
  }

  function TrimEnd(s: string): (r: string)
    ensures |r| <= |s|
    ensures r == [] || !IsPySpace(r[|r| - 1])
    ensures IsBlank(s) <==> r == []
    ensures r == s[..|r|]
  {
    if s != [] && IsPySpace(s[|s| - 1]) then
      assert IsBlank(s) <==> IsBlank(s[..|s| - 1]);
      TrimEnd(s[..|s| - 1])
    else s
  }

  /** A character `str.lower()` turns into one holding a letter a to z. */
  predicate UpperCased(c: char) {
    'A' <= c <= 'Z' || c == '\U{0130}' || c == '\U{212A}'
  }

  /** Python's `str.lower()` on one character, for every character whose
      lower case holds a letter a to z: A to Z, U+0130 (capital I with dot
      above, which becomes "i" and U+0307, the combining dot above) and
      U+212A (the Kelvin sign, which becomes "k"). Any other character is
      kept as it is. */
  function LowerChar(c: char): (r: string)
    ensures 1 <= |r| <= 2
    ensures forall i :: 0 <= i < |r| ==> !UpperCased(r[i])
  {
    if 'A' <= c <= 'Z' then [(c as int - 'A' as int + 'a' as int) as char]
    else if c == '\U{0130}' then ['i', '\U{0307}']
    else if c == '\U{212A}' then ['k']
    else [c]
  }

  function UpperChar(c: char): char {
    if 'a' <= c <= 'z' then (c as int - 'a' as int + 'A' as int) as char else c
  }

  /** `str.lower()`, character by character (see LowerChar). */
  function Lower(s: string): (r: string)
    ensures |s| <= |r| <= 2 * |s|
    ensures forall i :: 0 <= i < |r| ==> !UpperCased(r[i])
  {
    if s == [] then [] else LowerChar(s[0]) + Lower(s[1..])
  }

  /** Lower-casing works piecewise. */
  lemma {:induction false} LowerAppend(a: string, b: string)
    ensures Lower(a + b) == Lower(a) + Lower(b)
  {
    if a == [] {
      assert a + b == b;
    } else {
      assert (a + b)[0] == a[0] && (a + b)[1..] == a[1..] + b;
      LowerAppend(a[1..], b);
    }
  }

  function Upper(s: string): (r: string)
    ensures |r| == |s|
    ensures forall i :: 0 <= i < |s| ==> r[i] == UpperChar(s[i])
  {
    if s == [] then [] else [UpperChar(s[0])] + Upper(s[1..])
  }

  predicate IsLowerAz(c: char) { 'a' <= c <= 'z' }

  /** `re.sub(r"[^a-z]", "", s)`: keep only the characters a to z. */
  function KeepAz(s: string): (r: string)
    ensures |r| <= |s|
    ensures forall i :: 0 <= i < |r| ==> IsLowerAz(r[i])
  {
    if s == [] then []
    else if IsLowerAz(s[0]) then [s[0]] + KeepAz(s[1..])
    else KeepAz(s[1..])
  }

  /** The word normalisation of `LocalAgreement.__norm_word` and of
      `FinalContextDetector.canonicalize_word` (the two are the same code):
      lower-case, then drop everything but a to z. The trailing
      `.lower().strip().strip(".,?!")` changes nothing on such a string
      (lemma CanonicalTailIsIdentity). */
  function Canonical(s: string): string {
    KeepAz(Lower(s))
  }

  /** The characters the normalisation strips last. */
  const SentencePunctuation: set<char> := {'.', ',', '?', '!'}

  /** `s.strip(chars)`: drop leading and trailing characters of `chars`. */
  function StripChars(s: string, chars: set<char>): (r: string)
    ensures |r| <= |s|
    decreases |s|
  {
    if s != [] && s[0] in chars then StripChars(s[1..], chars)
    else if s != [] && s[|s| - 1] in chars then StripChars(s[..|s| - 1], chars)
    else s
  }

  lemma {:induction false} LowerOfAz(s: string)
    requires forall i :: 0 <= i < |s| ==> IsLowerAz(s[i])
    ensures Lower(s) == s
  {
    if s != [] {
      LowerOfAz(s[1..]);
      assert s == [s[0]] + s[1..];
    }
  }

  /** The tail `.lower().strip().strip(".,?!")` of the source's normalisation
      is the identity on the a-to-z string it is applied to. */
  lemma CanonicalTailIsIdentity(s: string)
    ensures var c := Canonical(s);
      StripChars(Strip(Lower(c)), SentencePunctuation) == c
  {
    AzTailIsIdentity(Canonical(s));
  }

  lemma AzTailIsIdentity(c: string)
    requires forall i :: 0 <= i < |c| ==> IsLowerAz(c[i])
    ensures StripChars(Strip(Lower(c)), SentencePunctuation) == c
  {
    LowerOfAz(c);
    if c != [] {
      AzNotStripped(c[0]);
      AzNotStripped(c[|c| - 1]);
    }
    assert Strip(c) == c by {
      assert TrimStart(c) == c;
      assert TrimEnd(c) == c;
    }
    StripCharsUnchanged(c, SentencePunctuation);
  }

  /** Nothing to strip at either end leaves the string as it is. */
  lemma StripCharsUnchanged(s: string, chars: set<char>)
    requires s == [] || (s[0] !in chars && s[|s| - 1] !in chars)
    ensures StripChars(s, chars) == s
  {
  }

  /** A letter a to z is neither white space nor punctuation. */
  lemma AzNotStripped(x: char)
    requires IsLowerAz(x)
    ensures !IsPySpace(x) && x !in SentencePunctuation
  {
  }

  /** Length of the longest common prefix of two word lists under
      canonicalisation: every position before it agrees, and it stops at the
      end of either list or at the first disagreement. This is what the
      index loops of `LocalAgreement.get_common_prefix` and
      `FinalContextDetector.common_prefix` compute. */
  function CanonicalPrefixLength(a: seq<string>, b: seq<string>): (n: nat)
    ensures n <= |a| && n <= |b|
    ensures forall k :: 0 <= k < n ==> Canonical(a[k]) == Canonical(b[k])
    ensures n < |a| && n < |b| ==> Canonical(a[n]) != Canonical(b[n])
  {
    if a == [] || b == [] || Canonical(a[0]) != Canonical(b[0]) then 0
    else 1 + CanonicalPrefixLength(a[1..], b[1..])
  }

  /** A word list agrees with itself on every word. */
  lemma {:induction false} CanonicalPrefixOfItself(a: seq<string>)
    ensures CanonicalPrefixLength(a, a) == |a|
  {
    if a != [] {
      CanonicalPrefixOfItself(a[1..]);
    }
  }

  /** Agreement does not depend on which list comes first. */
  lemma {:induction false} CanonicalPrefixSymmetric(a: seq<string>, b: seq<string>)
    ensures CanonicalPrefixLength(a, b) == CanonicalPrefixLength(b, a)
  {
    if a != [] && b != [] && Canonical(a[0]) == Canonical(b[0]) {
      CanonicalPrefixSymmetric(a[1..], b[1..]);
    }
  }

  /** Canonical output holds only the letters a to z. */
  lemma CanonicalIsAz(s: string)
    ensures forall i :: 0 <= i < |Canonical(s)| ==> IsLowerAz(Canonical(s)[i])
  {
  }

  lemma {:induction false} KeepAzOfAz(s: string)
    requires forall i :: 0 <= i < |s| ==> IsLowerAz(s[i])
    ensures KeepAz(s) == s
  {
    if s != [] {
      KeepAzOfAz(s[1..]);
      assert s == [s[0]] + s[1..];
    }
  }

  lemma {:induction false} KeepAzAppend(a: string, b: string)
    ensures KeepAz(a + b) == KeepAz(a) + KeepAz(b)
  {
    if a == [] {
      assert a + b == b;
    } else {
      assert (a + b)[0] == a[0] && (a + b)[1..] == a[1..] + b;
      KeepAzAppend(a[1..], b);
    }
  }

  /** Canonicalisation works character by character ... */
  lemma CanonicalAppend(a: string, b: string)
    ensures Canonical(a + b) == Canonical(a) + Canonical(b)
  {
    LowerAppend(a, b);
    KeepAzAppend(Lower(a), Lower(b));
  }

  /** ... and keeps of each character only the letter a to z its lower
      case holds: the letter itself, its lower case for A to Z, "i" for
      U+0130 and "k" for the Kelvin sign U+212A; nothing for any other
      character. */
  lemma CanonicalChar(c: char)
    ensures Canonical([c]) ==
      if 'A' <= c <= 'Z' then [(c as int - 'A' as int + 'a' as int) as char]
      else if IsLowerAz(c) then [c]
      else if c == '\U{0130}' then "i"
      else if c == '\U{212A}' then "k"
      else []
  {
    assert [c][1..] == [];
    assert Lower([c]) == LowerChar(c) + [];
    var l := LowerChar(c);
    if c == '\U{0130}' {
      assert l == ['i', '\U{0307}'];
      assert l[1..] == ['\U{0307}'] && l[1..][1..] == [];
      assert KeepAz(l[1..]) == [];
      assert Lower([c]) == l;
    } else {
      assert l[1..] == [];
    }
  }

  /** A word of small letters is its own canonical form. */
  lemma CanonicalOfAz(s: string)
    requires forall i :: 0 <= i < |s| ==> IsLowerAz(s[i])
    ensures Canonical(s) == s
  {
    LowerOfAz(s);
    KeepAzOfAz(s);
  }

  /** Canonicalising twice is canonicalising once. */
  lemma {:induction false} CanonicalIdempotent(s: string)
    ensures Canonical(Canonical(s)) == Canonical(s)
  {
    var c := Canonical(s);
    LowerOfAz(c);
    KeepAzOfAz(c);
  }

  lemma {:induction false} LowerOfLower(s: string)
    ensures Lower(Lower(s)) == Lower(s)
  {
    if s != [] {
      var c := LowerChar(s[0]);
      LowerAppend(c, Lower(s[1..]));
      LowerOfLower(s[1..]);
      LowerCharIsLower(s[0]);
    }
  }

  /** A lower-cased character lower-cases to itself. */
  lemma LowerCharIsLower(c: char)
    ensures Lower(LowerChar(c)) == LowerChar(c)
  {
    var r := LowerChar(c);
    if |r| == 2 {
      assert r == ['i', '\U{0307}'];
      assert r[1..] == ['\U{0307}'] && r[1..][1..] == [];
    } else {
      assert r[1..] == [];
    }
  }

  lemma {:induction false} LowerOfUpper(s: string)
    ensures Lower(Upper(s)) == Lower(s)
  {
    if s != [] {
      assert Upper(s)[1..] == Upper(s[1..]);
      LowerOfUpper(s[1..]);
    }
  }

  /** Canonicalisation ignores letter case: lower-casing first, or ASCII
      upper-casing first, changes nothing. */
  lemma CanonicalCaseInsensitive(s: string)
    ensures Canonical(Lower(s)) == Canonical(s)
    ensures Canonical(Upper(s)) == Canonical(s)
  {
    LowerOfLower(s);
    LowerOfUpper(s);
  }

  /** `p in s` for strings: `p` occurs as a contiguous piece of `s`. */
  predicate ContainsSub(s: string, p: string)
    decreases |s|
  {
    |p| <= |s| && (s[..|p|] == p || (s != [] && ContainsSub(s[1..], p)))
  }
}
