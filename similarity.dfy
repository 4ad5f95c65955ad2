/**
 * The similarity measures of lib/analysis/tfidf.ts: term frequencies, Jaccard token overlap,
 * bigram overlap, the longest common subsequence (full table and rolling rows) and the
 * boost curve that turns their weighted combination into a 0-100 score.
 */
module Similarity {
  import opened Strings
  import opened Seqs
  import opened Stopwords
  import opened TextUtils
  import opened Numeric

  // ---------------------------------------------------------------- tokens

  /** The token filter shared by every measure: not a stopword and longer than one character. */
  predicate Meaningful(t: string) {
    !IsStopword(t) && |t| > 1
  }

  /** `tokenize(cleanText(text)).filter(t => !isStopword(t) && t.length > 1)`. */
  function FilteredTokens(text: string): (r: seq<string>)
    ensures forall t :: t in r ==> Meaningful(t)
  {
    var r := Filter(Tokenize(CleanText(text)), Meaningful);
    FilterMembers(Tokenize(CleanText(text)), Meaningful);
    r
  }

  // ---------------------------------------------------------------- calculateTF

  /** The distinct tokens of a list. */
  function Distinct(tokens: seq<string>): set<string> {
    set t | t in tokens
  }

  /**
   * `calculateTF`: a first loop counts each token, a second divides every count by the
   * number of tokens.
   */
  method CalculateTF(tokens: seq<string>) returns (tf: map<string, real>)
    ensures tf.Keys == Distinct(tokens)
    ensures forall t :: t in tf ==> tf[t] == multiset(tokens)[t] as real / |tokens| as real
  {
    var counts: map<string, nat> := map[];
    var i := 0;
    while i < |tokens|
      invariant 0 <= i <= |tokens|
      invariant counts.Keys == Distinct(tokens[..i])
      invariant forall t :: t in counts ==> counts[t] == multiset(tokens[..i])[t]
    {
      assert tokens[..i + 1] == tokens[..i] + [tokens[i]];
      var t := tokens[i];
      counts := counts[t := (if t in counts then counts[t] else 0) + 1];
      i := i + 1;
    }
    assert tokens[..i] == tokens;
    tf := map[];
    var todo := counts.Keys;
    while todo != {}
      invariant todo <= counts.Keys
      invariant tf.Keys == counts.Keys - todo
      invariant forall t :: t in tf ==> tf[t] == counts[t] as real / |tokens| as real
      decreases |todo|
    {
      var t :| t in todo;
      tf := tf[t := counts[t] as real / |tokens| as real];
      todo := todo - {t};
    }
  }

  /** Every term frequency is a fraction in (0, 1]. */
  lemma TermFrequencyBounds(tokens: seq<string>, t: string)
    requires t in tokens
    ensures 0.0 < multiset(tokens)[t] as real / |tokens| as real <= 1.0
  {
    assert multiset(tokens)[t] <= |multiset(tokens)|;
  }

  // ---------------------------------------------------------------- Jaccard

  /** `intersection.size / union.size`, or 0 when the union is empty. */
  function Jaccard(a: set<string>, b: set<string>): real {
    if |a + b| > 0 then |a * b| as real / |a + b| as real else 0.0
  }

  /** A set of strings no larger than a superset of it. */
  lemma {:induction false} SubsetCard(a: set<string>, b: set<string>)
    requires a <= b
    ensures |a| <= |b|
    decreases |a|
  {
    if a != {} {
      var x :| x in a;
      SubsetCard(a - {x}, b - {x});
    }
  }

  /** Jaccard overlap of two sets lies in [0, 1], is symmetric, and is 1 on equal non-empty sets. */
  lemma JaccardProps(a: set<string>, b: set<string>)
    ensures 0.0 <= Jaccard(a, b) <= 1.0
    ensures Jaccard(a, b) == Jaccard(b, a)
    ensures a * b == {} ==> Jaccard(a, b) == 0.0
    ensures a == b && a != {} ==> Jaccard(a, b) == 1.0
  {
    SubsetCard(a * b, a + b);
    assert a * b == b * a && a + b == b + a;
    if |a + b| > 0 {
      Fraction(|a * b| as real, |a + b| as real);
    }
    if a == b && a != {} {
      assert a * b == a + b;
    }
  }

  /** The distinct meaningful tokens of a text. */
  function TokenSet(text: string): set<string> {
    Distinct(FilteredTokens(text))
  }

  /** The Jaccard step of `calculateSemanticSimilarity`. */
  function JaccardSimilarity(text1: string, text2: string): real {
    Jaccard(TokenSet(text1), TokenSet(text2))
  }

  // ---------------------------------------------------------------- calculateBigramSimilarity

  /** `getBigrams`: each pair of adjacent tokens joined by one space. */
  function BigramSet(tokens: seq<string>): set<string> {
    set i | 0 <= i < |tokens| - 1 :: tokens[i] + " " + tokens[i + 1]
  }

  /** `calculateBigramSimilarity`. */
  function BigramSimilarity(text1: string, text2: string): real {
    var b1 := BigramSet(FilteredTokens(text1));
    var b2 := BigramSet(FilteredTokens(text2));
    if |b1| == 0 || |b2| == 0 then 0.0 else Jaccard(b1, b2)
  }

  /** Bigram overlap lies in [0, 1]; a text with fewer than two meaningful tokens gives 0. */
  lemma BigramSimilarityProps(text1: string, text2: string)
    ensures 0.0 <= BigramSimilarity(text1, text2) <= 1.0
    ensures |FilteredTokens(text1)| < 2 || |FilteredTokens(text2)| < 2 ==> BigramSimilarity(text1, text2) == 0.0
  {
    JaccardProps(BigramSet(FilteredTokens(text1)), BigramSet(FilteredTokens(text2)));
    if |FilteredTokens(text1)| < 2 {
      assert BigramSet(FilteredTokens(text1)) == {};
    }
    if |FilteredTokens(text2)| < 2 {
      assert BigramSet(FilteredTokens(text2)) == {};
    }
  }

  // ---------------------------------------------------------------- longest common subsequence

  function Max(x: nat, y: nat): nat {
    if x >= y then x else y
  }

  /** The dynamic-programming recurrence: `dp[i][j]` is `Lcs(a[..i], b[..j])`. */
  function Lcs(a: seq<string>, b: seq<string>): (n: nat)
    ensures n <= |a| && n <= |b|
    decreases |a| + |b|
  {
    if |a| == 0 || |b| == 0 then 0
    else if a[|a| - 1] == b[|b| - 1] then Lcs(a[..|a| - 1], b[..|b| - 1]) + 1
    else Max(Lcs(a[..|a| - 1], b), Lcs(a, b[..|b| - 1]))
  }

  /** Some common subsequence is `Lcs(a, b)` long. */
  lemma {:induction false} LcsIsCommon(a: seq<string>, b: seq<string>) returns (w: seq<string>)
    ensures |w| == Lcs(a, b) && IsSubsequence(w, a) && IsSubsequence(w, b)
    decreases |a| + |b|
  {
    if |a| == 0 || |b| == 0 {
      w := [];
    } else {
      var a', b' := a[..|a| - 1], b[..|b| - 1];
      assert a == a' + [a[|a| - 1]] && b == b' + [b[|b| - 1]];
      if a[|a| - 1] == b[|b| - 1] {
        var w' := LcsIsCommon(a', b');
        w := w' + [a[|a| - 1]];
        assert w[..|w| - 1] == w';
      } else if Lcs(a', b) >= Lcs(a, b') {
        w := LcsIsCommon(a', b);
        SubsequenceExtend(w, a', a[|a| - 1]);
      } else {
        w := LcsIsCommon(a, b');
        SubsequenceExtend(w, b', b[|b| - 1]);
      }
    }
  }

  /** No common subsequence is longer than `Lcs(a, b)`. */
  lemma {:induction false} LcsIsLongest(a: seq<string>, b: seq<string>, c: seq<string>)
    requires IsSubsequence(c, a) && IsSubsequence(c, b)
    ensures |c| <= Lcs(a, b)
    decreases |a| + |b|
  {
    if c != [] {
      var a', b' := a[..|a| - 1], b[..|b| - 1];
      var x := c[|c| - 1];
      if a[|a| - 1] == b[|b| - 1] {
        if x == a[|a| - 1] {
          LcsIsLongest(a', b', c[..|c| - 1]);
        } else {
          LcsIsLongest(a', b', c);
        }
      } else if x != a[|a| - 1] {
        LcsIsLongest(a', b, c);
      } else {
        LcsIsLongest(a, b', c);
      }
    }
  }

  /** A sequence is its own longest common subsequence. */
  lemma {:induction false} LcsSelf(a: seq<string>)
    ensures Lcs(a, a) == |a|
    decreases |a|
  {
    if a != [] {
      LcsSelf(a[..|a| - 1]);
    }
  }

  /** One cell of the table in terms of its three neighbours. */
  lemma LcsStep(a: seq<string>, b: seq<string>, i: nat, j: nat)
    requires 1 <= i <= |a| && 1 <= j <= |b|
    ensures Lcs(a[..i], b[..j]) ==
      if a[i - 1] == b[j - 1] then Lcs(a[..i - 1], b[..j - 1]) + 1
      else Max(Lcs(a[..i - 1], b[..j]), Lcs(a[..i], b[..j - 1]))
  {
    assert a[..i][..i - 1] == a[..i - 1];
    assert b[..j][..j - 1] == b[..j - 1];
  }

  /** Sequences longer than this are cut to their first `LCS_LIMIT` elements. */
  const LCS_LIMIT: nat := 100

  /** What `calculateLCS` computes: the LCS, of the first 100 elements when either side is longer. */
  function LcsCapped(a: seq<string>, b: seq<string>): nat {
    if |a| > LCS_LIMIT || |b| > LCS_LIMIT then Lcs(Take(a, LCS_LIMIT), Take(b, LCS_LIMIT))
    else Lcs(a, b)
  }

  /** One outer iteration of `calculateLCSFast`: `curr` becomes row `i` from `prev`, row `i - 1`. */
  method FillCurr(prev: array<nat>, curr: array<nat>, a: seq<string>, b: seq<string>, i: nat)
    requires prev.Length == |b| + 1 && curr.Length == |b| + 1 && prev != curr && 1 <= i <= |a|
    requires forall k :: 0 <= k <= |b| ==> prev[k] == Lcs(a[..i - 1], b[..k])
    requires curr[0] == 0
    modifies curr
    ensures forall k :: 0 <= k <= |b| ==> curr[k] == Lcs(a[..i], b[..k])
  {
    var j := 1;
    while j <= |b|
      invariant 1 <= j <= |b| + 1
      invariant forall k :: 0 <= k < j ==> curr[k] == Lcs(a[..i], b[..k])
    {
      LcsStep(a, b, i, j);
      if a[i - 1] == b[j - 1] {
        curr[j] := prev[j - 1] + 1;
      } else {
        curr[j] := Max(prev[j], curr[j - 1]);
      }
      j := j + 1;
    }
  }

  /** `calculateLCSFast`: two rolling rows that swap after each outer iteration. */
  method CalculateLcsFast(arr1: seq<string>, arr2: seq<string>) returns (r: nat)
    ensures r == Lcs(arr1, arr2)
  {
    var m, n := |arr1|, |arr2|;
    var prev := new nat[n + 1](_ => 0);
    var curr := new nat[n + 1](_ => 0);
    var i := 1;
    while i <= m
      invariant 1 <= i <= m + 1
      invariant prev.Length == n + 1 && curr.Length == n + 1 && prev != curr
      invariant fresh(prev) && fresh(curr)
      invariant forall j :: 0 <= j <= n ==> prev[j] == Lcs(arr1[..i - 1], arr2[..j])
      invariant curr[0] == 0
    {
      FillCurr(prev, curr, arr1, arr2, i);
      prev, curr := curr, prev;
      i := i + 1;
    }
    assert arr1[..m] == arr1 && arr2[..n] == arr2;
    r := prev[n];
  }

  /** One outer iteration of `calculateLCS`: row `i` of the table from row `i - 1`. */
  method FillRow(dp: array2<nat>, a: seq<string>, b: seq<string>, i: nat)
    requires dp.Length0 == |a| + 1 && dp.Length1 == |b| + 1 && 1 <= i <= |a|
    requires forall q :: 0 <= q <= |b| ==> dp[i - 1, q] == Lcs(a[..i - 1], b[..q])
    requires dp[i, 0] == 0
    modifies dp
    ensures forall q :: 0 <= q <= |b| ==> dp[i, q] == Lcs(a[..i], b[..q])
    ensures forall p, q :: 0 <= p < dp.Length0 && 0 <= q < dp.Length1 && p != i ==> dp[p, q] == old(dp[p, q])
  {
    var j := 1;
    while j <= |b|
      invariant 1 <= j <= |b| + 1
      invariant forall q :: 0 <= q < j ==> dp[i, q] == Lcs(a[..i], b[..q])
      invariant forall p, q :: 0 <= p < dp.Length0 && 0 <= q < dp.Length1 && p != i ==> dp[p, q] == old(dp[p, q])
    {
      LcsStep(a, b, i, j);
      if a[i - 1] == b[j - 1] {
        dp[i, j] := dp[i - 1, j - 1] + 1;
      } else {
        dp[i, j] := Max(dp[i - 1, j], dp[i, j - 1]);
      }
      j := j + 1;
    }
  }

  /** `calculateLCS`: the full `(m + 1) x (n + 1)` table, or the rolling rows on cut inputs. */
  method CalculateLcs(arr1: seq<string>, arr2: seq<string>) returns (r: nat)
    ensures r == LcsCapped(arr1, arr2)
  {
    var m, n := |arr1|, |arr2|;
    if m > LCS_LIMIT || n > LCS_LIMIT {
      r := CalculateLcsFast(Take(arr1, LCS_LIMIT), Take(arr2, LCS_LIMIT));
      return;
    }
    var dp := new nat[m + 1, n + 1]((_, _) => 0);
    var i := 1;
    while i <= m
      invariant 1 <= i <= m + 1
      invariant forall p, q :: 0 <= p < i && 0 <= q <= n ==> dp[p, q] == Lcs(arr1[..p], arr2[..q])
      invariant forall p :: i <= p <= m ==> dp[p, 0] == 0
    {
      FillRow(dp, arr1, arr2, i);
      i := i + 1;
    }
    assert arr1[..m] == arr1 && arr2[..n] == arr2;
    r := dp[m, n];
  }

  /** The cut never lets the result exceed either untruncated length. */
  lemma LcsCappedBound(a: seq<string>, b: seq<string>)
    ensures LcsCapped(a, b) <= |a| && LcsCapped(a, b) <= |b| && LcsCapped(a, b) <= Max(|a|, |b|)
    ensures |a| > LCS_LIMIT || |b| > LCS_LIMIT ==> LcsCapped(a, b) <= LCS_LIMIT
  {
  }

  // ---------------------------------------------------------------- calculateLCSSimilarity

  /** The ratio `calculateLCSSimilarity` returns for two token lists. */
  function LcsRatio(words1: seq<string>, words2: seq<string>): real {
    if |words1| == 0 || |words2| == 0 then 0.0
    else LcsCapped(words1, words2) as real / Max(|words1|, |words2|) as real
  }

  /** `calculateLCSSimilarity`: divided by the longer untruncated token list. */
  function LcsSimilarity(text1: string, text2: string): real {
    LcsRatio(FilteredTokens(text1), FilteredTokens(text2))
  }

  method CalculateLcsSimilarity(text1: string, text2: string) returns (s: real)
    ensures s == LcsSimilarity(text1, text2)
  {
    var words1 := FilteredTokens(text1);
    var words2 := FilteredTokens(text2);
    if |words1| == 0 || |words2| == 0 {
      return 0.0;
    }
    var lcsLength := CalculateLcs(words1, words2);
    var maxLength := Max(|words1|, |words2|);
    s := lcsLength as real / maxLength as real;
  }

  /** The ratio lies in [0, 1], is 0 on an empty side, and is 1 for a list against itself. */
  lemma LcsRatioProps(w1: seq<string>, w2: seq<string>)
    ensures 0.0 <= LcsRatio(w1, w2) <= 1.0
    ensures |w1| == 0 || |w2| == 0 ==> LcsRatio(w1, w2) == 0.0
    ensures w1 == w2 && 0 < |w1| <= LCS_LIMIT ==> LcsRatio(w1, w2) == 1.0
  {
    LcsCappedBound(w1, w2);
    if |w1| > 0 && |w2| > 0 {
      Fraction(LcsCapped(w1, w2) as real, Max(|w1|, |w2|) as real);
    }
    if w1 == w2 && 0 < |w1| <= LCS_LIMIT {
      LcsSelf(w1);
    }
  }

  /** LCS similarity lies in [0, 1], is 0 on an empty side, and is 1 for a text against itself. */
  lemma LcsSimilarityProps(text1: string, text2: string)
    ensures 0.0 <= LcsSimilarity(text1, text2) <= 1.0
    ensures |FilteredTokens(text1)| == 0 || |FilteredTokens(text2)| == 0 ==> LcsSimilarity(text1, text2) == 0.0
    ensures text1 == text2 && 0 < |FilteredTokens(text1)| <= LCS_LIMIT ==> LcsSimilarity(text1, text2) == 1.0
  {
    LcsRatioProps(FilteredTokens(text1), FilteredTokens(text2));
  }

  // ---------------------------------------------------------------- calculateSemanticSimilarity

  /** The weighted combination 0.40 / 0.30 / 0.15 / 0.15. */
  function Combined(tfidf: real, jaccard: real, lcs: real, bigram: real): real {
    tfidf * 0.40 + jaccard * 0.30 + lcs * 0.15 + bigram * 0.15
  }

  /** The boost curve on the 0-100 raw score. */
  function Boost(raw: real): real {
    if raw >= 50.0 then 75.0 + (raw - 50.0) * 0.5
    else if raw >= 30.0 then 60.0 + (raw - 30.0) * 0.75
    else if raw >= 15.0 then 45.0 + (raw - 15.0) * 1.0
    else raw * 3.0
  }

  /** `Math.round(Math.min(100, boostedScore))` of the combined measures. */
  function SemanticScore(tfidf: real, jaccard: real, lcs: real, bigram: real): int {
    Round(MinReal(100.0, Boost(Combined(tfidf, jaccard, lcs, bigram) * 100.0)))
  }

  /**
   * `calculateSemanticSimilarity`, with the TF-IDF cosine similarity, which depends on
   * floating-point logarithms and square roots, given as a parameter.
   */
  function SemanticSimilarity(tfidf: real, text1: string, text2: string): int {
    SemanticScore(tfidf, JaccardSimilarity(text1, text2), LcsSimilarity(text1, text2), BigramSimilarity(text1, text2))
  }

  /** The weights sum to 1, so measures in [0, 1] combine to a value in [0, 1]. */
  lemma CombinedBounds(tfidf: real, jaccard: real, lcs: real, bigram: real)
    requires 0.0 <= tfidf <= 1.0 && 0.0 <= jaccard <= 1.0 && 0.0 <= lcs <= 1.0 && 0.0 <= bigram <= 1.0
    ensures 0.0 <= Combined(tfidf, jaccard, lcs, bigram) <= 1.0
    ensures Combined(1.0, 1.0, 1.0, 1.0) == 1.0
  {
  }

  /** The boost curve never decreases. */
  lemma BoostMonotone(x: real, y: real)
    requires x <= y
    ensures Boost(x) <= Boost(y)
  {
  }

  /** The curve is continuous: no step at the joins 15 -> 45, 30 -> 60 and 50 -> 75, slope at most 3. */
  lemma BoostContinuous(x: real, y: real)
    requires x <= y
    ensures Boost(y) - Boost(x) <= (y - x) * 3.0
    ensures Boost(15.0) == 45.0 && Boost(30.0) == 60.0 && Boost(50.0) == 75.0
  {
  }

  /** The curve maps [0, 100] into [0, 100], fixing both ends. */
  lemma BoostRange(raw: real)
    requires 0.0 <= raw <= 100.0
    ensures 0.0 <= Boost(raw) <= 100.0
    ensures Boost(0.0) == 0.0 && Boost(100.0) == 100.0
  {
  }

  /** The semantic score lies in [0, 100] and never drops when a measure rises. */
  lemma SemanticScoreProps(t: real, j: real, l: real, b: real, t': real, j': real, l': real, b': real)
    requires 0.0 <= t <= t' && 0.0 <= j <= j' && 0.0 <= l <= l' && 0.0 <= b <= b'
    requires t' <= 1.0 && j' <= 1.0 && l' <= 1.0 && b' <= 1.0
    ensures 0 <= SemanticScore(t, j, l, b) <= SemanticScore(t', j', l', b') <= 100
  {
    var c, c' := Combined(t, j, l, b), Combined(t', j', l', b');
    CombinedBounds(t, j, l, b);
    CombinedBounds(t', j', l', b');
    assert c <= c';
    BoostMonotone(c * 100.0, c' * 100.0);
    BoostRange(c * 100.0);
    BoostRange(c' * 100.0);
    RoundMonotone(MinReal(100.0, Boost(c * 100.0)), MinReal(100.0, Boost(c' * 100.0)));
    RoundBetween(MinReal(100.0, Boost(c * 100.0)), 0, 100);
    RoundBetween(MinReal(100.0, Boost(c' * 100.0)), 0, 100);
  }

  /** With a cosine similarity in [0, 1], `calculateSemanticSimilarity` lies in [0, 100]. */
  lemma SemanticSimilarityBounds(tfidf: real, text1: string, text2: string)
    requires 0.0 <= tfidf <= 1.0
    ensures 0 <= SemanticSimilarity(tfidf, text1, text2) <= 100
  {
    JaccardProps(TokenSet(text1), TokenSet(text2));
    LcsSimilarityProps(text1, text2);
    BigramSimilarityProps(text1, text2);
    var j, l, b := JaccardSimilarity(text1, text2), LcsSimilarity(text1, text2), BigramSimilarity(text1, text2);
    SemanticScoreProps(tfidf, j, l, b, tfidf, j, l, b);
  }
}
