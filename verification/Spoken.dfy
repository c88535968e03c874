/**
 What the pilot's words authorise: the keyword search of the orchestrator (python/services/orchestrator/main.py),
 a case-insensitive regular expression between word boundaries, for a keyword of small letters.
*/
module Spoken {

  predicate WordChar(c: char) {
    'a' <= c <= 'z' || 'A' <= c <= 'Z' || '0' <= c <= '9' || c == '_'
  }

  predicate SameLetter(a: char, b: char) {
    a == b || ('a' <= b <= 'z' && a as int + 32 == b as int)
  }

  /** A match of the expression at `i`. */
  predicate WordAt(text: string, word: string, i: nat)
    requires i + |word| <= |text|
  {
    && (forall k :: 0 <= k < |word| ==> SameLetter(text[i + k], word[k]))
    && (i > 0 ==> !WordChar(text[i - 1]))
    && (i + |word| < |text| ==> !WordChar(text[i + |word|]))
  }

  /** The text contains the (lower-case) word, in any case, between word boundaries. */
  predicate Says(text: string, word: string) {
    exists i :: 0 <= i <= |text| - |word| && WordAt(text, word, i)
  }

  // ---------------------------------------------------------------- the words of a text

  /** How many word characters the text starts with. */
  function RunLength(text: string): (n: nat)
    ensures n <= |text| && (n < |text| ==> !WordChar(text[n]))
    ensures forall i :: 0 <= i < n ==> WordChar(text[i])
  {
    if text == "" || !WordChar(text[0]) then 0 else 1 + RunLength(text[1..])
  }

  /** The text cut into its longest runs of word characters. */
  function WordsOf(text: string): seq<string>
    decreases |text|
  {
    if text == "" then []
    else if !WordChar(text[0]) then WordsOf(text[1..])
    else [text[..RunLength(text)]] + WordsOf(text[RunLength(text)..])
  }

  function Lower(c: char): char { if 'A' <= c <= 'Z' then (c as int + 32) as char else c }

  predicate Spells(w: string, word: string) {
    |w| == |word| && forall k :: 0 <= k < |w| ==> Lower(w[k]) == word[k]
  }

  predicate SmallLetters(word: string) { word != "" && forall k :: 0 <= k < |word| ==> 'a' <= word[k] <= 'z' }

  lemma SameIsLower(a: char, b: char)
    requires 'a' <= b <= 'z'
    ensures SameLetter(a, b) <==> Lower(a) == b
    ensures SameLetter(a, b) ==> WordChar(a)
  {
  }

  lemma MatchStarts(text: string, word: string, i: nat)
    requires SmallLetters(word) && i + |word| <= |text| && WordAt(text, word, i)
    ensures forall k :: i <= k < i + |word| ==> WordChar(text[k])
  {
    forall k | i <= k < i + |word| ensures WordChar(text[k]) {
      SameIsLower(text[i + (k - i)], word[k - i]);
    }
  }

  /** A match further on, seen from a cut at `n` that is not inside a word. */
  lemma MatchBehind(text: string, word: string, n: nat, i: nat)
    requires SmallLetters(word) && n <= i && i + |word| <= |text|
    requires n == 0 || n == |text| || !WordChar(text[n]) || !WordChar(text[n - 1])
    ensures WordAt(text, word, i) <==> WordAt(text[n..], word, i - n)
  {
    assert forall j :: 0 <= j < |text| - n ==> text[n..][j] == text[n + j];
    if WordAt(text[n..], word, i - n) {
      MatchStarts(text[n..], word, i - n);
      assert text[n..][i - n] == text[i];
    }
  }

  lemma SaysBehind(text: string, word: string, n: nat)
    requires SmallLetters(word) && n <= |text|
    requires n == 0 || n == |text| || !WordChar(text[n]) || !WordChar(text[n - 1])
    ensures Says(text[n..], word) <==> exists i :: n <= i <= |text| - |word| && WordAt(text, word, i)
  {
    if Says(text[n..], word) {
      var j :| 0 <= j <= |text[n..]| - |word| && WordAt(text[n..], word, j);
      MatchBehind(text, word, n, n + j);
      assert WordAt(text, word, n + j);
    }
    if i :| n <= i <= |text| - |word| && WordAt(text, word, i) {
      MatchBehind(text, word, n, i);
    }
  }

  /** At the head of a run the expression matches exactly when the whole run spells the word. */
  lemma HeadMatches(text: string, word: string)
    requires SmallLetters(word) && text != "" && WordChar(text[0])
    ensures (|word| <= |text| && WordAt(text, word, 0)) <==> Spells(text[..RunLength(text)], word)
  {
    var n := RunLength(text);
    if |word| <= |text| && WordAt(text, word, 0) {
      MatchStarts(text, word, 0);
      assert |word| == n;
    }
    if |word| == n {
      forall k | 0 <= k < n ensures SameLetter(text[k], word[k]) <==> Lower(text[..n][k]) == word[k] {
        SameIsLower(text[k], word[k]);
      }
      assert forall k :: 0 <= k < n ==> text[0 + k] == text[k];
    }
  }

  /**
   The expression matches exactly when one of the text's words, in small letters, is the keyword: "Arm!" says arm,
   "laboratory arms" does not.
  */
  lemma {:induction false} SaysIsAWord(text: string, word: string)
    requires SmallLetters(word)
    ensures Says(text, word) <==> exists w :: w in WordsOf(text) && Spells(w, word)
    decreases |text|
  {
    if text == "" {
    } else if !WordChar(text[0]) {
      SaysIsAWord(text[1..], word);
      SaysBehind(text, word, 1);
      if |word| <= |text| && WordAt(text, word, 0) {
        MatchStarts(text, word, 0);
      }
    } else {
      var n := RunLength(text);
      SaysIsAWord(text[n..], word);
      SaysBehind(text, word, n);
      HeadMatches(text, word);
      forall i | 0 < i < n && i <= |text| - |word| ensures !WordAt(text, word, i) {
        assert WordChar(text[i - 1]);
      }
      assert text[..n] in WordsOf(text);
    }
  }
}
