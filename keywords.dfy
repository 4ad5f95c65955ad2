/** Keyword extraction, matching and density (lib/analysis/keywords.ts). */
module Keywords {
  import opened Chars
  import opened Strings
  import opened Seqs
  import opened TextUtils
  import opened NGrams

  /** The texts of a list of n-grams, in order. */
  function Texts(gs: seq<NGram>): seq<string> {
    seq(|gs|, i requires 0 <= i < |gs| => gs[i].text)
  }

  /** The texts are pairwise distinct exactly when no two n-grams share a text. */
  lemma TextsNoDup(gs: seq<NGram>)
    ensures NoDup(Texts(gs)) <==> NoDupBy(gs, TextOf)
  {
    var t := Texts(gs);
    assert forall i :: 0 <= i < |gs| ==> t[i] == TextOf(gs[i]);
  }

  /** `extractKeywords(jobDescription, count)`. */
  function ExtractKeywords(jobDescription: string, count: nat): seq<string> {
    Texts(AllNGrams(CleanText(jobDescription), count))
  }

  /**
   * At most `count` keywords, no two alike, each a non-empty run of lowercase letters,
   * digits, `_`, `-` and single spaces, so none holds a regular-expression operator.
   */
  lemma ExtractKeywordsCharacterised(jobDescription: string, count: nat)
    ensures |ExtractKeywords(jobDescription, count)| <= count
    ensures NoDup(ExtractKeywords(jobDescription, count))
    ensures forall k :: k in ExtractKeywords(jobDescription, count) ==>
      |k| > 0 && forall i :: 0 <= i < |k| ==> IsKeywordChar(k[i])
  {
    var gs := AllNGrams(CleanText(jobDescription), count);
    AllNGramsCharacterised(CleanText(jobDescription), count);
    AllNGramsTexts(CleanText(jobDescription), count);
    var r := Texts(gs);
    forall i, j | 0 <= i < j < |r|
      ensures r[i] != r[j]
    {
      assert TextOf(gs[i]) != TextOf(gs[j]);
    }
    forall k | k in r
      ensures |k| > 0 && forall i :: 0 <= i < |k| ==> IsKeywordChar(k[i])
    {
      var i :| 0 <= i < |r| && r[i] == k;
      assert gs[i] in gs;
    }
  }

  // ---------------------------------------------------------------- extractKeywordsWithData

  /** A keyword with its frequency and the positions where it occurs. */
  datatype KeywordData = KeywordData(keyword: string, frequency: nat, positions: seq<nat>)

  /** The `indexOf` loop of `extractKeywordsWithData` for one keyword `t`. */
  method FindPositions(lowerText: string, t: string) returns (positions: seq<nat>)
    requires |t| > 0
    ensures positions == Positions(lowerText, t, 0)
  {
    positions := [];
    var pos := IndexOf(lowerText, t, 0);
    while pos != -1
      invariant pos == -1 || OccursAt(lowerText, t, pos)
      invariant Positions(lowerText, t, 0) == positions + Hits(lowerText, t, pos)
      decreases if pos == -1 then 0 else |lowerText| + 1 - pos
    {
      var next := IndexOf(lowerText, t, pos + |t|);
      HitsStep(lowerText, t, positions, pos, next);
      positions := positions + [pos];
      pos := next;
    }
    assert positions + [] == positions;
  }

  /** One turn of the loop: the hit at `pos` joins `done`, and the search goes on from `next`. */
  lemma HitsStep(s: string, t: string, done: seq<nat>, pos: nat, next: int)
    requires |t| > 0 && OccursAt(s, t, pos) && next == IndexOf(s, t, pos + |t|)
    ensures done + Hits(s, t, pos) == (done + [pos]) + Hits(s, t, next)
  {
    var rest := Hits(s, t, next);
    assert Hits(s, t, pos) == [pos] + rest;
    assert done + ([pos] + rest) == (done + [pos]) + rest;
  }

  /** The `ngrams.map` of `extractKeywordsWithData`, over keywords that are never empty. */
  method KeywordPositions(lowerText: string, ngrams: seq<NGram>) returns (data: seq<KeywordData>)
    requires forall g :: g in ngrams ==> |g.text| > 0
    ensures |data| == |ngrams|
    ensures forall i :: 0 <= i < |data| ==>
      data[i].keyword == ngrams[i].text && data[i].frequency == ngrams[i].count &&
      data[i].positions == Positions(lowerText, ngrams[i].text, 0)
  {
    data := [];
    var n := 0;
    while n < |ngrams|
      invariant 0 <= n <= |ngrams|
      invariant |data| == n
      invariant forall i :: 0 <= i < n ==>
        data[i].keyword == ngrams[i].text && data[i].frequency == ngrams[i].count &&
        data[i].positions == Positions(lowerText, ngrams[i].text, 0)
    {
      assert ngrams[n] in ngrams;
      var positions := FindPositions(lowerText, ngrams[n].text);
      data := data + [KeywordData(ngrams[n].text, ngrams[n].count, positions)];
      n := n + 1;
    }
  }

  /**
   * `extractKeywordsWithData`: each extracted n-gram with its count and the non-overlapping
   * places, left to right, where it occurs in the lowercased cleaned text.
   */
  method ExtractKeywordsWithData(text: string, count: nat) returns (data: seq<KeywordData>)
    ensures |data| == |AllNGrams(CleanText(text), count)|
    ensures forall i :: 0 <= i < |data| ==>
      var ng := AllNGrams(CleanText(text), count)[i];
      data[i].keyword == ng.text && data[i].frequency == ng.count && |ng.text| > 0 &&
      data[i].positions == Positions(LowerStr(CleanText(text)), ng.text, 0)
  {
    var cleaned := CleanText(text);
    var ngrams := AllNGrams(cleaned, count);
    AllNGramsTexts(cleaned, count);
    data := KeywordPositions(LowerStr(cleaned), ngrams);
    assert forall i :: 0 <= i < |ngrams| ==> ngrams[i] in ngrams;
  }

  // ---------------------------------------------------------------- hasKeyword and countKeywordMatches

  /** `hasKeyword`: the lowercased keyword is a substring of the lowercased résumé. */
  predicate HasKeyword(resumeText: string, keyword: string) {
    Contains(LowerStr(resumeText), LowerStr(keyword))
  }

  /** The keywords the résumé contains, as a filter. */
  function Found(resumeText: string): string -> bool {
    k => HasKeyword(resumeText, k)
  }

  /** The keywords the résumé does not contain, as a filter. */
  function NotFound(resumeText: string): string -> bool {
    k => !HasKeyword(resumeText, k)
  }

  /** The `matched` list of `countKeywordMatches`. */
  function Matched(resumeText: string, keywords: seq<string>): seq<string> {
    Filter(keywords, Found(resumeText))
  }

  /** The `missing` list of `countKeywordMatches`. */
  function Missing(resumeText: string, keywords: seq<string>): seq<string> {
    Filter(keywords, NotFound(resumeText))
  }

  /** `countKeywordMatches`: each keyword goes to `matched` or to `missing`, in order. */
  method CountKeywordMatches(resumeText: string, keywords: seq<string>) returns (matched: seq<string>, missing: seq<string>)
    ensures matched == Matched(resumeText, keywords)
    ensures missing == Missing(resumeText, keywords)
  {
    matched := [];
    missing := [];
    var i := 0;
    while i < |keywords|
      invariant 0 <= i <= |keywords|
      invariant matched == Filter(keywords[..i], Found(resumeText))
      invariant missing == Filter(keywords[..i], NotFound(resumeText))
    {
      assert keywords[..i + 1][..i] == keywords[..i];
      if HasKeyword(resumeText, keywords[i]) {
        matched := matched + [keywords[i]];
      } else {
        missing := missing + [keywords[i]];
      }
      i := i + 1;
    }
    assert keywords[..i] == keywords;
  }

  /**
   * `matched` and `missing` are order-preserving subsequences of the keywords that together
   * account for every keyword; a keyword is matched exactly when the résumé contains it.
   */
  lemma MatchesPartition(resumeText: string, keywords: seq<string>)
    ensures |Matched(resumeText, keywords)| + |Missing(resumeText, keywords)| == |keywords|
    ensures multiset(Matched(resumeText, keywords)) + multiset(Missing(resumeText, keywords)) == multiset(keywords)
    ensures IsSubsequence(Matched(resumeText, keywords), keywords)
    ensures IsSubsequence(Missing(resumeText, keywords), keywords)
    ensures forall k :: k in Matched(resumeText, keywords) <==> k in keywords && HasKeyword(resumeText, k)
    ensures forall k :: k in Missing(resumeText, keywords) <==> k in keywords && !HasKeyword(resumeText, k)
  {
    FilterPartition(keywords, Found(resumeText), NotFound(resumeText));
    FilterIsSubsequence(keywords, Found(resumeText));
    FilterIsSubsequence(keywords, NotFound(resumeText));
    FilterMembers(keywords, Found(resumeText));
    FilterMembers(keywords, NotFound(resumeText));
  }

  // ---------------------------------------------------------------- calculateKeywordDensity

  /** `text.toLowerCase().split(/\s+/).length`: never less than one. */
  function WordCount(text: string): (n: nat)
    ensures n >= 1
  {
    |SplitRuns(LowerStr(text), IsSpace)|
  }

  /** The sum of the global match counts of the lowercased keywords in `lowerText`. */
  function TotalMatches(lowerText: string, keywords: seq<string>): nat
    decreases |keywords|
  {
    if keywords == [] then 0
    else TotalMatches(lowerText, keywords[..|keywords| - 1]) + MatchCount(lowerText, LowerStr(keywords[|keywords| - 1]))
  }

  /** The density `calculateKeywordDensity` computes. */
  function Density(text: string, keywords: seq<string>): real {
    TotalMatches(LowerStr(text), keywords) as real / WordCount(text) as real
  }

  /** `calculateKeywordDensity`: the match counts are summed in a loop. */
  method CalculateKeywordDensity(text: string, keywords: seq<string>) returns (d: real)
    ensures d == Density(text, keywords)
    ensures d >= 0.0
  {
    var words := WordCount(text);
    var keywordCount := 0;
    var lowerText := LowerStr(text);
    var i := 0;
    while i < |keywords|
      invariant 0 <= i <= |keywords|
      invariant keywordCount == TotalMatches(lowerText, keywords[..i])
    {
      TotalMatchesStep(lowerText, keywords, i);
      var matches := MatchCount(lowerText, LowerStr(keywords[i]));
      keywordCount := keywordCount + matches;
      i := i + 1;
    }
    assert keywords[..i] == keywords;
    d := keywordCount as real / words as real;
    NonNegativeRatio(keywordCount, words);
  }

  /** Appending a keyword adds its match count to the total. */
  lemma TotalMatchesSnoc(lowerText: string, keywords: seq<string>, x: string)
    ensures TotalMatches(lowerText, keywords + [x]) == TotalMatches(lowerText, keywords) + MatchCount(lowerText, LowerStr(x))
  {
    assert (keywords + [x])[..|keywords|] == keywords;
  }

  /** One more keyword adds its match count to the total. */
  lemma TotalMatchesStep(lowerText: string, keywords: seq<string>, i: nat)
    requires i < |keywords|
    ensures TotalMatches(lowerText, keywords[..i + 1]) ==
      TotalMatches(lowerText, keywords[..i]) + MatchCount(lowerText, LowerStr(keywords[i]))
  {
    assert keywords[..i + 1][..i] == keywords[..i];
  }

  lemma NonNegativeRatio(n: nat, w: nat)
    requires w > 0
    ensures n as real / w as real >= 0.0
  {
    assert n as real / w as real * w as real == n as real;
  }

  /** The total is zero exactly when no keyword occurs. */
  lemma {:induction false} TotalMatchesZero(lowerText: string, keywords: seq<string>)
    ensures TotalMatches(lowerText, keywords) == 0 <==>
      forall i :: 0 <= i < |keywords| ==> !Contains(lowerText, LowerStr(keywords[i]))
    decreases |keywords|
  {
    if keywords != [] {
      var init := keywords[..|keywords| - 1];
      TotalMatchesZero(lowerText, init);
      assert forall i :: 0 <= i < |init| ==> init[i] == keywords[i];
    }
  }

  /** The density is zero exactly when none of the keywords occurs in the text, ignoring case. */
  lemma DensityZero(text: string, keywords: seq<string>)
    ensures Density(text, keywords) == 0.0 <==> forall i :: 0 <= i < |keywords| ==> !HasKeyword(text, keywords[i])
  {
    var n := TotalMatches(LowerStr(text), keywords);
    var w := WordCount(text);
    assert Density(text, keywords) == n as real / w as real;
    assert n as real / w as real == 0.0 <==> n == 0 by {
      if n > 0 {
        assert n as real / w as real > 0.0;
      }
    }
    TotalMatchesZero(LowerStr(text), keywords);
    assert forall i :: 0 <= i < |keywords| ==>
      (HasKeyword(text, keywords[i]) <==> Contains(LowerStr(text), LowerStr(keywords[i])));
  }
}
