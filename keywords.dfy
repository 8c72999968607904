/**
 * Keyword extraction of the ontology searcher: the reference definitions that its loops are
 * proved against, and what they guarantee. A keyword is a space-separated token of the
 * lower-cased text with every non letter-or-digit character removed, kept when it is longer
 * than three characters and not a stopword.
 */
module KeywordText {
  import opened Wrappers
  import opened JavaStrings
  import opened Sequences

  /** wordWithoutPunctuation: the letters and digits of s, in order. */
  function LettersAndDigits(s: string): (r: string)
    ensures |r| <= |s|
    ensures forall k :: 0 <= k < |r| ==> IsLetterOrDigit(r[k])
    ensures forall c :: c in r ==> c in s
    decreases |s|
  {
    if s == [] then []
    else
      var prefix, last := s[..|s| - 1], s[|s| - 1];
      var init := LettersAndDigits(prefix);
      assert forall c :: c in prefix ==> c in s;
      if IsLetterOrDigit(last) then init + [last] else init
  }

  /**
   * The stripped word keeps every letter and digit with its multiplicity, in order, and
   * nothing else.
   */
  lemma {:induction false} LettersAndDigitsKeeps(s: string)
    ensures forall c :: multiset(LettersAndDigits(s))[c] == if IsLetterOrDigit(c) then multiset(s)[c] else 0
    ensures IsSubsequence(LettersAndDigits(s), s)
    decreases |s|
  {
    if s != [] {
      var prefix, last := s[..|s| - 1], s[|s| - 1];
      var init := LettersAndDigits(prefix);
      LettersAndDigitsKeeps(prefix);
      assert s == prefix + [last];
      assert multiset(s) == multiset(prefix) + multiset{last};
      SubsequenceExtend(init, prefix, last);
      if IsLetterOrDigit(last) {
        assert LettersAndDigits(s) == init + [last];
        assert multiset(init + [last]) == multiset(init) + multiset{last};
      } else {
        assert LettersAndDigits(s) == init;
      }
    }
  }

  /** A word made only of letters and digits is left as it is. */
  lemma {:induction false} LettersAndDigitsFixed(s: string)
    requires forall k :: 0 <= k < |s| ==> IsLetterOrDigit(s[k])
    ensures LettersAndDigits(s) == s
    decreases |s|
  {
    if s != [] {
      LettersAndDigitsFixed(s[..|s| - 1]);
      assert LettersAndDigits(s) == LettersAndDigits(s[..|s| - 1]) + [s[|s| - 1]];
      assert s == s[..|s| - 1] + [s[|s| - 1]];
    }
  }

  /** Removing punctuation twice is the same as removing it once. */
  lemma LettersAndDigitsIdempotent(s: string)
    ensures LettersAndDigits(LettersAndDigits(s)) == LettersAndDigits(s)
  {
    LettersAndDigitsFixed(LettersAndDigits(s));
  }

  /** The stopword and length test of getKeywordsFromString, applied to a stripped token. */
  predicate Kept(word: string, stopWords: set<string>) {
    word !in stopWords && |word| > 3
  }

  /** What every keyword looks like. */
  predicate IsKeyword(word: string, stopWords: set<string>) {
    && Kept(word, stopWords)
    && (forall k :: 0 <= k < |word| ==> IsLetterOrDigit(word[k]) && !IsUpper(word[k]))
  }

  /** The space-separated tokens of the lower-cased input. */
  function Tokens(input: string): (tokens: seq<string>)
    ensures forall k, c :: 0 <= k < |tokens| && c in tokens[k] ==> !IsUpper(c)
  {
    var lower := ToLower(input);
    assert forall c :: c in lower ==> !IsUpper(c);
    Split(lower, ' ')
  }

  /** The stripped tokens that pass the test, in order and with repeats. */
  function FilterTokens(tokens: seq<string>, stopWords: set<string>): (r: seq<string>)
    ensures |r| <= |tokens|
    ensures (forall k, c :: 0 <= k < |tokens| && c in tokens[k] ==> !IsUpper(c)) ==>
              forall k :: 0 <= k < |r| ==> IsKeyword(r[k], stopWords)
    decreases |tokens|
  {
    if tokens == [] then []
    else
      var init := FilterTokens(tokens[..|tokens| - 1], stopWords);
      var word := LettersAndDigits(tokens[|tokens| - 1]);
      if Kept(word, stopWords) then
        init + [word]
      else init
  }

  /** getKeywordsFromString. */
  function Keywords(input: string, stopWords: set<string>): (r: seq<string>)
    ensures |r| <= |Tokens(input)|
    ensures forall k :: 0 <= k < |r| ==> IsKeyword(r[k], stopWords)
  {
    FilterTokens(Tokens(input), stopWords)
  }

  /** FilterTokens, unfolded at one more token. */
  lemma FilterTokensStep(tokens: seq<string>, i: nat, stopWords: set<string>)
    requires i < |tokens|
    ensures var word := LettersAndDigits(tokens[i]);
            FilterTokens(tokens[..i + 1], stopWords) ==
              FilterTokens(tokens[..i], stopWords) + (if Kept(word, stopWords) then [word] else [])
  {
    assert tokens[..i + 1][..i] == tokens[..i];
  }

  /** FilterTokens keeps the order of the surviving tokens: it works token by token. */
  lemma FilterTokensAppend(tokens: seq<string>, more: seq<string>, stopWords: set<string>)
    ensures FilterTokens(tokens + more, stopWords) == FilterTokens(tokens, stopWords) + FilterTokens(more, stopWords)
    decreases |more|
  {
    if more == [] {
      assert tokens + more == tokens;
    } else {
      var m := more[..|more| - 1];
      FilterTokensAppend(tokens, m, stopWords);
      assert (tokens + more)[..|tokens + more| - 1] == tokens + m;
    }
  }

  /** Every token with its punctuation removed. */
  function Stripped(tokens: seq<string>): (r: seq<string>)
    ensures |r| == |tokens| && forall k :: 0 <= k < |tokens| ==> r[k] == LettersAndDigits(tokens[k])
  {
    seq(|tokens|, k requires 0 <= k < |tokens| => LettersAndDigits(tokens[k]))
  }

  lemma StrippedSnoc(tokens: seq<string>)
    requires tokens != []
    ensures Stripped(tokens) == Stripped(tokens[..|tokens| - 1]) + [LettersAndDigits(tokens[|tokens| - 1])]
  {
  }

  /** The keywords keep the order of the tokens they come from. */
  lemma {:induction false} FilterTokensInOrder(tokens: seq<string>, stopWords: set<string>)
    ensures IsSubsequence(FilterTokens(tokens, stopWords), Stripped(tokens))
    decreases |tokens|
  {
    if tokens != [] {
      var n := |tokens| - 1;
      var word := LettersAndDigits(tokens[n]);
      var init := FilterTokens(tokens[..n], stopWords);
      var before := Stripped(tokens[..n]);
      FilterTokensInOrder(tokens[..n], stopWords);
      StrippedSnoc(tokens);
      if Kept(word, stopWords) {
        assert (before + [word])[..|before|] == before;
        assert (init + [word])[..|init|] == init;
      } else {
        SubsequenceExtend(init, before, word);
      }
    }
  }

  /**
   * A word occurs among the keywords as often as tokens strip to it when it passes the
   * stopword and length test, and never otherwise.
   */
  lemma {:induction false} KeywordOccurrences(tokens: seq<string>, stopWords: set<string>, w: string)
    ensures multiset(FilterTokens(tokens, stopWords))[w] ==
              if Kept(w, stopWords) then multiset(Stripped(tokens))[w] else 0
    decreases |tokens|
  {
    if tokens != [] {
      var n := |tokens| - 1;
      var word := LettersAndDigits(tokens[n]);
      var init := FilterTokens(tokens[..n], stopWords);
      assert FilterTokens(tokens, stopWords) == if Kept(word, stopWords) then init + [word] else init;
      KeywordOccurrences(tokens[..n], stopWords, w);
      StrippedSnoc(tokens);
    }
  }

  // ---- Literal text (getStringFromLiteral) ----

  /** The line terminators that '.' in a java.util.regex pattern does not match. */
  predicate IsLineTerminator(c: char) {
    c == '\n' || c == '\r' || c == '\U{0085}' || c == '\U{2028}' || c == '\U{2029}'
  }

  /** The tail after the string-type suffix: "$" matches at the very end or before a final line terminator or "\r\n". */
  predicate IsFinalTerminator(t: string) {
    t == [] || t == "\r\n" || (|t| == 1 && IsLineTerminator(t[0]))
  }

  /** The end of a typed string literal: a quote, then ^^xsd:string. */
  const STRING_SUFFIX: string := "\"^^xsd:string"

  /** ASCII case-insensitive equality (CASE_INSENSITIVE without UNICODE_CASE). */
  predicate EqualsIgnoreCase(a: string, b: string) {
    |a| == |b| && forall k :: 0 <= k < |a| ==> ToLowerChar(a[k]) == ToLowerChar(b[k])
  }

  /** Where the text of a literal must end for "$" to match. */
  function MatchEnd(lit: string): (e: nat)
    ensures e <= |lit| && IsFinalTerminator(lit[e..])
  {
    if |lit| >= 2 && lit[|lit| - 2..] == "\r\n" then |lit| - 2
    else if |lit| >= 1 && IsLineTerminator(lit[|lit| - 1]) then |lit| - 1
    else |lit|
  }

  /**
   * getStringFromLiteral: the text between a leading quote and a trailing "^^xsd:string
   * (letters in any case), when the rendered literal has that form and the text holds no line
   * terminator; None for any other literal.
   */
  function StringFromLiteral(lit: string): (r: Option<string>)
    ensures r.Some? ==>
              && |lit| >= |r.value| + 14
              && lit[0] == '"'
              && lit[1..|r.value| + 1] == r.value
              && EqualsIgnoreCase(lit[|r.value| + 1..|r.value| + 14], STRING_SUFFIX)
              && IsFinalTerminator(lit[|r.value| + 14..])
              && (forall k :: 0 <= k < |r.value| ==> !IsLineTerminator(r.value[k]))
  {
    var e := MatchEnd(lit);
    if e >= 14 && lit[0] == '"' && EqualsIgnoreCase(lit[e - 13..e], STRING_SUFFIX)
       && (forall k :: 1 <= k < e - 13 ==> !IsLineTerminator(lit[k]))
    then Some(lit[1..e - 13])
    else None
  }

  /** Every typed string literal is recognised, with its text, whatever tail "$" allows. */
  lemma StringFromLiteralComplete(text: string, suffix: string, tail: string)
    requires forall k :: 0 <= k < |text| ==> !IsLineTerminator(text[k])
    requires EqualsIgnoreCase(suffix, STRING_SUFFIX)
    requires IsFinalTerminator(tail)
    ensures StringFromLiteral("\"" + text + suffix + tail) == Some(text)
  {
    var lit := "\"" + text + suffix + tail;
    var e := |text| + 14;
    assert lit[e - 1] == suffix[12];
    assert !IsLineTerminator(lit[e - 1]);
    assert MatchEnd(lit) == e;
    assert lit[e - 13..e] == suffix;
    assert lit[1..e - 13] == text;
    forall k | 1 <= k < e - 13 ensures !IsLineTerminator(lit[k]) {
      assert lit[k] == text[k - 1];
    }
  }
}
