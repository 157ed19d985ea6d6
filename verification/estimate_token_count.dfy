/**
 * The token estimator: the text is split on runs of whitespace, and every
 * resulting word costs one token plus one per punctuation character in it.
 *
 * The scanning functions below walk a fixed string `s` by position `i`
 * (rather than recursing on `s[1..]`), so that they also evaluate on string
 * literals.
 */
module TokenEstimate {

  /** The characters the JavaScript regular-expression class `\s` matches. */
  predicate IsWhitespace(c: char) {
    c == '\t' || c == '\n' || c == '\U{000B}' || c == '\U{000C}' || c == '\r' || c == ' '
    || c == '\U{00A0}' || c == '\U{1680}' || ('\U{2000}' <= c <= '\U{200A}')
    || c == '\U{2028}' || c == '\U{2029}' || c == '\U{202F}' || c == '\U{205F}'
    || c == '\U{3000}' || c == '\U{FEFF}'
  }

  /** The fourteen characters of the class `[\.,!?;:()\[\]{}"']`. */
  predicate IsPunctuation(c: char) {
    c == '.' || c == ',' || c == '!' || c == '?' || c == ';' || c == ':' || c == '(' || c == ')'
    || c == '[' || c == ']' || c == '{' || c == '}' || c == '"' || c == '\''
  }

  /** Number of punctuation characters in `s[i..]`. */
  function PunctuationFrom(s: string, i: nat): (n: nat)
    requires i <= |s|
    ensures n <= |s| - i
    decreases |s| - i
  {
    if i == |s| then 0
    else (if IsPunctuation(s[i]) then 1 else 0) + PunctuationFrom(s, i + 1)
  }

  /** Number of punctuation characters in `w`: the length of `w.match(punctuationRegex)`, or 0 when it is null. */
  function PunctuationCount(w: string): nat {
    PunctuationFrom(w, 0)
  }

  /** The first position at or after `i` whose whitespace-ness is `want`, or |s| if there is none. */
  function Scan(s: string, i: nat, want: bool): (j: nat)
    requires i <= |s|
    ensures i <= j <= |s|
    ensures forall k :: i <= k < j ==> IsWhitespace(s[k]) != want
    ensures j < |s| ==> IsWhitespace(s[j]) == want
    decreases |s| - i
  {
    if i == |s| || IsWhitespace(s[i]) == want then i else Scan(s, i + 1, want)
  }

  /** The pieces of `s[i..]` between maximal runs of whitespace. */
  function SplitFrom(s: string, i: nat): (words: seq<string>)
    requires i <= |s|
    ensures |words| >= 1
    ensures forall w, k :: w in words && 0 <= k < |w| ==> !IsWhitespace(w[k])
    decreases |s| - i
  {
    var k := Scan(s, i, true);
    if k == |s| then [s[i..]]
    else [s[i..k]] + SplitFrom(s, Scan(s, k, false))
  }

  /**
   * `s.split(/\s+/)`: a leading or trailing whitespace run yields an empty
   * piece, and the empty string yields [""].
   */
  function Split(s: string): seq<string> {
    SplitFrom(s, 0)
  }

  /** Position `i` starts a maximal whitespace run: it is whitespace and its predecessor is not. */
  predicate StartsRun(s: string, i: nat)
    requires i < |s|
  {
    IsWhitespace(s[i]) && (i == 0 || !IsWhitespace(s[i - 1]))
  }

  /** Number of maximal whitespace runs of `s` that start at or after position `i`. */
  function RunsFrom(s: string, i: nat): nat
    requires i <= |s|
    decreases |s| - i
  {
    if i == |s| then 0
    else (if StartsRun(s, i) then 1 else 0) + RunsFrom(s, i + 1)
  }

  /** Number of maximal whitespace runs in `s`. */
  function WhitespaceRuns(s: string): nat {
    RunsFrom(s, 0)
  }

  /** Cost of one word: one base token plus one per punctuation character. */
  function WordCost(w: string): nat {
    1 + PunctuationCount(w)
  }

  function SumWordCosts(words: seq<string>): (n: nat)
    ensures n >= |words|
  {
    if words == [] then 0 else WordCost(words[0]) + SumWordCosts(words[1..])
  }

  /** The estimate `estimateTokenCount` returns, as a function of the text. */
  function Estimate(text: string): (n: nat)
    ensures n >= 1
  {
    SumWordCosts(Split(text))
  }

  /**
   * The estimator as the source writes it: split, then add each word's cost
   * to an accumulator. The result has the closed form
   * 1 + (number of whitespace runs) + (number of punctuation characters).
   */
  method EstimateTokenCount(text: string) returns (tokenCount: nat)
    ensures tokenCount == 1 + WhitespaceRuns(text) + PunctuationCount(text)
    ensures tokenCount == Estimate(text)
  {
    var words := Split(text);
    tokenCount := 0;
    for i := 0 to |words|
      invariant tokenCount == SumWordCosts(words[..i])
    {
      tokenCount := tokenCount + 1;
      tokenCount := tokenCount + PunctuationCount(words[i]);
      SumWordCostsSnoc(words[..i], words[i]);
      assert words[..i + 1] == words[..i] + [words[i]];
    }
    assert words[..|words|] == words;
    EstimateClosedForm(text);
  }

  lemma {:induction false} SumWordCostsSnoc(words: seq<string>, w: string)
    ensures SumWordCosts(words + [w]) == SumWordCosts(words) + WordCost(w)
  {
    if words != [] {
      assert (words + [w])[1..] == words[1..] + [w];
      SumWordCostsSnoc(words[1..], w);
    }
  }

  /** The punctuation count of a suffix depends only on the characters in it. */
  lemma {:induction false} PunctuationOfSameSuffix(s: string, i: nat, t: string, k: nat)
    requires i <= |s| && k <= |t|
    requires s[i..] == t[k..]
    ensures PunctuationFrom(s, i) == PunctuationFrom(t, k)
    decreases |s| - i
  {
    if i < |s| {
      assert s[i] == s[i..][0] == t[k..][0] == t[k];
      assert s[i + 1..] == s[i..][1..] == t[k..][1..] == t[k + 1..];
      PunctuationOfSameSuffix(s, i + 1, t, k + 1);
    }
  }

  /** The punctuation count of `s[i..]` is that of the word `s[i..j]` plus that of `s[j..]`. */
  lemma {:induction false} PunctuationOfWord(s: string, i: nat, j: nat)
    requires i <= j <= |s|
    ensures PunctuationFrom(s, i) == PunctuationCount(s[i..j]) + PunctuationFrom(s, j)
    decreases j - i
  {
    if i < j {
      PunctuationOfWord(s, i + 1, j);
      assert s[i..j][0] == s[i];
      PunctuationOfSameSuffix(s[i..j], 1, s[i + 1..j], 0);
    }
  }

  /** Whitespace is never punctuation, so a whitespace run adds no punctuation. */
  lemma {:induction false} PunctuationOfWhitespace(s: string, i: nat, j: nat)
    requires i <= j <= |s|
    requires forall k :: i <= k < j ==> IsWhitespace(s[k])
    ensures PunctuationFrom(s, i) == PunctuationFrom(s, j)
    decreases j - i
  {
    if i < j {
      PunctuationOfWhitespace(s, i + 1, j);
    }
  }

  /** Characters that are not whitespace start no run. */
  lemma {:induction false} RunsOfWord(s: string, i: nat, j: nat)
    requires i <= j <= |s|
    requires forall k :: i <= k < j ==> !IsWhitespace(s[k])
    ensures RunsFrom(s, i) == RunsFrom(s, j)
    decreases j - i
  {
    if i < j {
      RunsOfWord(s, i + 1, j);
    }
  }

  /** Inside a whitespace run only its first position can start a run. */
  lemma {:induction false} RunsOfWhitespace(s: string, i: nat, j: nat)
    requires i < j <= |s|
    requires forall k :: i <= k < j ==> IsWhitespace(s[k])
    ensures RunsFrom(s, i) == (if StartsRun(s, i) then 1 else 0) + RunsFrom(s, j)
    decreases j - i
  {
    if i + 1 < j {
      RunsOfWhitespace(s, i + 1, j);
    }
  }

  /**
   * The closed form: the words of `s[i..]` cost one, plus one per whitespace
   * run (each run starts a new word), plus one per punctuation character;
   * `i` must not fall inside a run.
   */
  lemma {:induction false} SplitFromCost(s: string, i: nat)
    requires i <= |s|
    requires i < |s| && IsWhitespace(s[i]) ==> StartsRun(s, i)
    ensures SumWordCosts(SplitFrom(s, i)) == 1 + RunsFrom(s, i) + PunctuationFrom(s, i)
    decreases |s| - i
  {
    var k := Scan(s, i, true);
    RunsOfWord(s, i, k);
    PunctuationOfWord(s, i, k);
    if k == |s| {
      assert s[i..k] == s[i..];
      assert SplitFrom(s, i) == [s[i..]];
      assert SumWordCosts([s[i..]]) == WordCost(s[i..]) + SumWordCosts([]);
    } else {
      var j := Scan(s, k, false);
      SplitFromCost(s, j);
      assert SplitFrom(s, i) == [s[i..k]] + SplitFrom(s, j);
      assert ([s[i..k]] + SplitFrom(s, j))[1..] == SplitFrom(s, j);
      assert StartsRun(s, k);
      RunsOfWhitespace(s, k, j);
      PunctuationOfWhitespace(s, k, j);
    }
  }

  /** The estimate is one, plus one per whitespace run, plus one per punctuation character. */
  lemma EstimateClosedForm(s: string)
    ensures Estimate(s) == 1 + WhitespaceRuns(s) + PunctuationCount(s)
  {
    SplitFromCost(s, 0);
  }
}

/** The documented test vectors of the estimator. */
module TokenEstimateExamples {
  import opened TokenEstimate

  // Each text is a parameter equal to the literal, and the counts are taken
  // one position at a time from the end, a few positions per lemma.

  /** The empty text estimates to 1: it splits into one empty word. */
  lemma EstimateEmpty(s: string)
    requires s == ""
    ensures Estimate(s) == 1
  {
    EstimateClosedForm(s);
  }

  lemma PlainWordsRunsFrom3(s: string)
    requires s == "hello world"
    ensures RunsFrom(s, 3) == 1
  {
    assert RunsFrom(s, 11) == 0;
    assert RunsFrom(s, 10) == 0;
    assert RunsFrom(s, 9) == 0;
    assert RunsFrom(s, 8) == 0;
    assert RunsFrom(s, 7) == 0;
    assert RunsFrom(s, 6) == 0;
    assert RunsFrom(s, 5) == 1;
    assert RunsFrom(s, 4) == 1;
    assert RunsFrom(s, 3) == 1;
  }

  lemma PlainWordsRuns(s: string)
    requires s == "hello world"
    ensures WhitespaceRuns(s) == 1
  {
    PlainWordsRunsFrom3(s);
    assert RunsFrom(s, 2) == 1;
    assert RunsFrom(s, 1) == 1;
  }

  lemma PlainWordsPunctuationFrom3(s: string)
    requires s == "hello world"
    ensures PunctuationFrom(s, 3) == 0
  {
    assert PunctuationFrom(s, 11) == 0;
    assert PunctuationFrom(s, 10) == 0;
    assert PunctuationFrom(s, 9) == 0;
    assert PunctuationFrom(s, 8) == 0;
    assert PunctuationFrom(s, 7) == 0;
    assert PunctuationFrom(s, 6) == 0;
    assert PunctuationFrom(s, 5) == 0;
    assert PunctuationFrom(s, 4) == 0;
    assert PunctuationFrom(s, 3) == 0;
  }

  lemma PlainWordsPunctuation(s: string)
    requires s == "hello world"
    ensures PunctuationCount(s) == 0
  {
    PlainWordsPunctuationFrom3(s);
    assert PunctuationFrom(s, 2) == 0;
    assert PunctuationFrom(s, 1) == 0;
  }

  /** Plain words cost one each. */
  lemma EstimatePlainWords(s: string)
    requires s == "hello world"
    ensures Estimate(s) == 2
  {
    PlainWordsRuns(s);
    PlainWordsPunctuation(s);
    EstimateClosedForm(s);
  }

  lemma AttachedPunctuationRunsFrom5(s: string)
    requires s == "hello, world!"
    ensures RunsFrom(s, 5) == 1
  {
    assert RunsFrom(s, 13) == 0;
    assert RunsFrom(s, 12) == 0;
    assert RunsFrom(s, 11) == 0;
    assert RunsFrom(s, 10) == 0;
    assert RunsFrom(s, 9) == 0;
    assert RunsFrom(s, 8) == 0;
    assert RunsFrom(s, 7) == 0;
    assert RunsFrom(s, 6) == 1;
    assert RunsFrom(s, 5) == 1;
  }

  lemma AttachedPunctuationRuns(s: string)
    requires s == "hello, world!"
    ensures WhitespaceRuns(s) == 1
  {
    AttachedPunctuationRunsFrom5(s);
    assert RunsFrom(s, 4) == 1;
    assert RunsFrom(s, 3) == 1;
    assert RunsFrom(s, 2) == 1;
    assert RunsFrom(s, 1) == 1;
  }

  lemma AttachedPunctuationPunctuationFrom5(s: string)
    requires s == "hello, world!"
    ensures PunctuationFrom(s, 5) == 2
  {
    assert PunctuationFrom(s, 13) == 0;
    assert PunctuationFrom(s, 12) == 1;
    assert PunctuationFrom(s, 11) == 1;
    assert PunctuationFrom(s, 10) == 1;
    assert PunctuationFrom(s, 9) == 1;
    assert PunctuationFrom(s, 8) == 1;
    assert PunctuationFrom(s, 7) == 1;
    assert PunctuationFrom(s, 6) == 1;
    assert PunctuationFrom(s, 5) == 2;
  }

  lemma AttachedPunctuationPunctuation(s: string)
    requires s == "hello, world!"
    ensures PunctuationCount(s) == 2
  {
    AttachedPunctuationPunctuationFrom5(s);
    assert PunctuationFrom(s, 4) == 2;
    assert PunctuationFrom(s, 3) == 2;
    assert PunctuationFrom(s, 2) == 2;
    assert PunctuationFrom(s, 1) == 2;
  }

  /** Attached punctuation adds one per mark. */
  lemma EstimateAttachedPunctuation(s: string)
    requires s == "hello, world!"
    ensures Estimate(s) == 4
  {
    AttachedPunctuationRuns(s);
    AttachedPunctuationPunctuation(s);
    EstimateClosedForm(s);
  }

  lemma RepeatedPunctuationRunsFrom13(s: string)
    requires s == "Wow!!! Really? Yes..."
    ensures RunsFrom(s, 13) == 1
  {
    assert RunsFrom(s, 21) == 0;
    assert RunsFrom(s, 20) == 0;
    assert RunsFrom(s, 19) == 0;
    assert RunsFrom(s, 18) == 0;
    assert RunsFrom(s, 17) == 0;
    assert RunsFrom(s, 16) == 0;
    assert RunsFrom(s, 15) == 0;
    assert RunsFrom(s, 14) == 1;
    assert RunsFrom(s, 13) == 1;
  }

  lemma RepeatedPunctuationRunsFrom5(s: string)
    requires s == "Wow!!! Really? Yes..."
    ensures RunsFrom(s, 5) == 2
  {
    RepeatedPunctuationRunsFrom13(s);
    assert RunsFrom(s, 12) == 1;
    assert RunsFrom(s, 11) == 1;
    assert RunsFrom(s, 10) == 1;
    assert RunsFrom(s, 9) == 1;
    assert RunsFrom(s, 8) == 1;
    assert RunsFrom(s, 7) == 1;
    assert RunsFrom(s, 6) == 2;
    assert RunsFrom(s, 5) == 2;
  }

  lemma RepeatedPunctuationRuns(s: string)
    requires s == "Wow!!! Really? Yes..."
    ensures WhitespaceRuns(s) == 2
  {
    RepeatedPunctuationRunsFrom5(s);
    assert RunsFrom(s, 4) == 2;
    assert RunsFrom(s, 3) == 2;
    assert RunsFrom(s, 2) == 2;
    assert RunsFrom(s, 1) == 2;
  }

  lemma RepeatedPunctuationPunctuationFrom13(s: string)
    requires s == "Wow!!! Really? Yes..."
    ensures PunctuationFrom(s, 13) == 4
  {
    assert PunctuationFrom(s, 21) == 0;
    assert PunctuationFrom(s, 20) == 1;
    assert PunctuationFrom(s, 19) == 2;
    assert PunctuationFrom(s, 18) == 3;
    assert PunctuationFrom(s, 17) == 3;
    assert PunctuationFrom(s, 16) == 3;
    assert PunctuationFrom(s, 15) == 3;
    assert PunctuationFrom(s, 14) == 3;
    assert PunctuationFrom(s, 13) == 4;
  }

  lemma RepeatedPunctuationPunctuationFrom5(s: string)
    requires s == "Wow!!! Really? Yes..."
    ensures PunctuationFrom(s, 5) == 5
  {
    RepeatedPunctuationPunctuationFrom13(s);
    assert PunctuationFrom(s, 12) == 4;
    assert PunctuationFrom(s, 11) == 4;
    assert PunctuationFrom(s, 10) == 4;
    assert PunctuationFrom(s, 9) == 4;
    assert PunctuationFrom(s, 8) == 4;
    assert PunctuationFrom(s, 7) == 4;
    assert PunctuationFrom(s, 6) == 4;
    assert PunctuationFrom(s, 5) == 5;
  }

  lemma RepeatedPunctuationPunctuation(s: string)
    requires s == "Wow!!! Really? Yes..."
    ensures PunctuationCount(s) == 7
  {
    RepeatedPunctuationPunctuationFrom5(s);
    assert PunctuationFrom(s, 4) == 6;
    assert PunctuationFrom(s, 3) == 7;
    assert PunctuationFrom(s, 2) == 7;
    assert PunctuationFrom(s, 1) == 7;
  }

  /** Repeated punctuation marks each add one. */
  lemma EstimateRepeatedPunctuation(s: string)
    requires s == "Wow!!! Really? Yes..."
    ensures Estimate(s) == 10
  {
    RepeatedPunctuationRuns(s);
    RepeatedPunctuationPunctuation(s);
    EstimateClosedForm(s);
  }

  lemma MixedContentRunsFrom20(s: string)
    requires s == "This is a test: (1 + 1) = 2."
    ensures RunsFrom(s, 20) == 3
  {
    assert RunsFrom(s, 28) == 0;
    assert RunsFrom(s, 27) == 0;
    assert RunsFrom(s, 26) == 0;
    assert RunsFrom(s, 25) == 1;
    assert RunsFrom(s, 24) == 1;
    assert RunsFrom(s, 23) == 2;
    assert RunsFrom(s, 22) == 2;
    assert RunsFrom(s, 21) == 2;
    assert RunsFrom(s, 20) == 3;
  }

  lemma MixedContentRunsFrom12(s: string)
    requires s == "This is a test: (1 + 1) = 2."
    ensures RunsFrom(s, 12) == 5
  {
    MixedContentRunsFrom20(s);
    assert RunsFrom(s, 19) == 3;
    assert RunsFrom(s, 18) == 4;
    assert RunsFrom(s, 17) == 4;
    assert RunsFrom(s, 16) == 4;
    assert RunsFrom(s, 15) == 5;
    assert RunsFrom(s, 14) == 5;
    assert RunsFrom(s, 13) == 5;
    assert RunsFrom(s, 12) == 5;
  }

  lemma MixedContentRunsFrom4(s: string)
    requires s == "This is a test: (1 + 1) = 2."
    ensures RunsFrom(s, 4) == 8
  {
    MixedContentRunsFrom12(s);
    assert RunsFrom(s, 11) == 5;
    assert RunsFrom(s, 10) == 5;
    assert RunsFrom(s, 9) == 6;
    assert RunsFrom(s, 8) == 6;
    assert RunsFrom(s, 7) == 7;
    assert RunsFrom(s, 6) == 7;
    assert RunsFrom(s, 5) == 7;
    assert RunsFrom(s, 4) == 8;
  }

  lemma MixedContentRuns(s: string)
    requires s == "This is a test: (1 + 1) = 2."
    ensures WhitespaceRuns(s) == 8
  {
    MixedContentRunsFrom4(s);
    assert RunsFrom(s, 3) == 8;
    assert RunsFrom(s, 2) == 8;
    assert RunsFrom(s, 1) == 8;
  }

  lemma MixedContentPunctuationFrom20(s: string)
    requires s == "This is a test: (1 + 1) = 2."
    ensures PunctuationFrom(s, 20) == 2
  {
    assert PunctuationFrom(s, 28) == 0;
    assert PunctuationFrom(s, 27) == 1;
    assert PunctuationFrom(s, 26) == 1;
    assert PunctuationFrom(s, 25) == 1;
    assert PunctuationFrom(s, 24) == 1;
    assert PunctuationFrom(s, 23) == 1;
    assert PunctuationFrom(s, 22) == 2;
    assert PunctuationFrom(s, 21) == 2;
    assert PunctuationFrom(s, 20) == 2;
  }

  lemma MixedContentPunctuationFrom12(s: string)
    requires s == "This is a test: (1 + 1) = 2."
    ensures PunctuationFrom(s, 12) == 4
  {
    MixedContentPunctuationFrom20(s);
    assert PunctuationFrom(s, 19) == 2;
    assert PunctuationFrom(s, 18) == 2;
    assert PunctuationFrom(s, 17) == 2;
    assert PunctuationFrom(s, 16) == 3;
    assert PunctuationFrom(s, 15) == 3;
    assert PunctuationFrom(s, 14) == 4;
    assert PunctuationFrom(s, 13) == 4;
    assert PunctuationFrom(s, 12) == 4;
  }

  lemma MixedContentPunctuationFrom4(s: string)
    requires s == "This is a test: (1 + 1) = 2."
    ensures PunctuationFrom(s, 4) == 4
  {
    MixedContentPunctuationFrom12(s);
    assert PunctuationFrom(s, 11) == 4;
    assert PunctuationFrom(s, 10) == 4;
    assert PunctuationFrom(s, 9) == 4;
    assert PunctuationFrom(s, 8) == 4;
    assert PunctuationFrom(s, 7) == 4;
    assert PunctuationFrom(s, 6) == 4;
    assert PunctuationFrom(s, 5) == 4;
    assert PunctuationFrom(s, 4) == 4;
  }

  lemma MixedContentPunctuation(s: string)
    requires s == "This is a test: (1 + 1) = 2."
    ensures PunctuationCount(s) == 4
  {
    MixedContentPunctuationFrom4(s);
    assert PunctuationFrom(s, 3) == 4;
    assert PunctuationFrom(s, 2) == 4;
    assert PunctuationFrom(s, 1) == 4;
  }

  /** Mixed words, numbers, operators and punctuation. */
  lemma EstimateMixedContent(s: string)
    requires s == "This is a test: (1 + 1) = 2."
    ensures Estimate(s) == 13
  {
    MixedContentRuns(s);
    MixedContentPunctuation(s);
    EstimateClosedForm(s);
  }

  lemma PunctuationOnlyRuns(s: string)
    requires s == "?!..."
    ensures WhitespaceRuns(s) == 0
  {
    assert RunsFrom(s, 5) == 0;
    assert RunsFrom(s, 4) == 0;
    assert RunsFrom(s, 3) == 0;
    assert RunsFrom(s, 2) == 0;
    assert RunsFrom(s, 1) == 0;
  }

  lemma PunctuationOnlyPunctuation(s: string)
    requires s == "?!..."
    ensures PunctuationCount(s) == 5
  {
    assert PunctuationFrom(s, 5) == 0;
    assert PunctuationFrom(s, 4) == 1;
    assert PunctuationFrom(s, 3) == 2;
    assert PunctuationFrom(s, 2) == 3;
    assert PunctuationFrom(s, 1) == 4;
  }

  /** A word made only of punctuation costs one plus one per mark. */
  lemma EstimatePunctuationOnly(s: string)
    requires s == "?!..."
    ensures Estimate(s) == 6
  {
    PunctuationOnlyRuns(s);
    PunctuationOnlyPunctuation(s);
    EstimateClosedForm(s);
  }
}
