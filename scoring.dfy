/**
 * `calculateATSScore` and its five sub-scores: keyword match, semantic similarity,
 * required-skill coverage, keyword distribution and ATS heuristics, combined into one
 * rounded weighted score.
 */
module Scoring {
  import opened Wrappers
  import opened Chars
  import opened Strings
  import opened Seqs
  import opened TextUtils
  import opened SectionSegmenter
  import opened Keywords
  import opened Numeric
  import opened Similarity
  import opened Skills
  import opened Suggestions

  /** How many job keywords are extracted, and how many missing or matched ones are reported. */
  const KEYWORD_COUNT: nat := 40
  const SHOWN: nat := 15

  // ---------------------------------------------------------------- keyword exclusion

  /** `new Set(excludedKeywords.map(k => k.toLowerCase()))`. */
  function ExcludedSet(excluded: seq<string>): set<string> {
    set k | k in excluded :: LowerStr(k)
  }

  /** The filter `k => !excludedSet.has(k.toLowerCase())`. */
  function Kept(excludedSet: set<string>): string -> bool {
    k => LowerStr(k) !in excludedSet
  }

  /** The job keywords once the excluded ones are filtered out; an empty exclusion list is skipped. */
  function ApplyExclusions(jobKeywords: seq<string>, excluded: seq<string>): seq<string> {
    if |excluded| > 0 then Filter(jobKeywords, Kept(ExcludedSet(excluded))) else jobKeywords
  }

  /** The keyword list `calculateATSScore` scores against. */
  function JobKeywords(jobDescription: string, excluded: seq<string>): seq<string> {
    ApplyExclusions(ExtractKeywords(jobDescription, KEYWORD_COUNT), excluded)
  }

  /**
   * Exclusion keeps an order-preserving subsequence: exactly the keywords that equal no
   * excluded keyword once both are lowercased.
   */
  lemma ExclusionProps(jobKeywords: seq<string>, excluded: seq<string>)
    ensures IsSubsequence(ApplyExclusions(jobKeywords, excluded), jobKeywords)
    ensures forall k :: k in ApplyExclusions(jobKeywords, excluded) <==>
      k in jobKeywords && forall e :: e in excluded ==> LowerStr(e) != LowerStr(k)
    ensures excluded == [] ==> ApplyExclusions(jobKeywords, excluded) == jobKeywords
  {
    if |excluded| > 0 {
      FilterIsSubsequence(jobKeywords, Kept(ExcludedSet(excluded)));
      FilterMembers(jobKeywords, Kept(ExcludedSet(excluded)));
    } else {
      SubsequenceRefl(jobKeywords);
    }
  }

  /** Excluding one more keyword filters the current list by that keyword alone. */
  lemma ExcludeOneMore(jobKeywords: seq<string>, excluded: seq<string>, k: string)
    ensures ApplyExclusions(jobKeywords, excluded + [k]) ==
      Filter(ApplyExclusions(jobKeywords, excluded), Kept({LowerStr(k)}))
  {
    assert ExcludedSet(excluded + [k]) == ExcludedSet(excluded) + {LowerStr(k)} by {
      assert forall e :: e in excluded + [k] <==> e in excluded || e == k;
    }
    if |excluded| > 0 {
      FilterBoth(jobKeywords, Kept(ExcludedSet(excluded)), Kept({LowerStr(k)}), Kept(ExcludedSet(excluded + [k])));
    } else {
      assert excluded + [k] == [k];
      assert ExcludedSet([k]) == {LowerStr(k)};
    }
  }

  // ---------------------------------------------------------------- calculateKeywordMatchScore

  /** The boost curve of the keyword match rate, by bands. */
  function KeywordCurve(rate: real): real {
    if rate >= 0.90 then 95.0 + (rate - 0.90) * 50.0
    else if rate >= 0.75 then 88.0 + (rate - 0.75) * 50.0
    else if rate >= 0.60 then 80.0 + (rate - 0.60) * 53.0
    else if rate >= 0.45 then 70.0 + (rate - 0.45) * 67.0
    else if rate >= 0.30 then 58.0 + (rate - 0.30) * 80.0
    else if rate >= 0.15 then 45.0 + (rate - 0.15) * 87.0
    else rate * 300.0
  }

  /** `Math.round(Math.min(100, score))`. */
  function KeywordRateScore(rate: real): int {
    Round(MinReal(100.0, KeywordCurve(rate)))
  }

  /** The rounded keyword score stays inside the band its match rate falls in. */
  lemma KeywordRateBands(rate: real)
    requires 0.0 <= rate
    ensures rate >= 0.90 ==> 95 <= KeywordRateScore(rate) <= 100
    ensures 0.75 <= rate < 0.90 ==> 88 <= KeywordRateScore(rate) <= 95
    ensures 0.60 <= rate < 0.75 ==> 80 <= KeywordRateScore(rate) <= 88
    ensures 0.45 <= rate < 0.60 ==> 70 <= KeywordRateScore(rate) <= 80
    ensures 0.30 <= rate < 0.45 ==> 58 <= KeywordRateScore(rate) <= 70
    ensures 0.15 <= rate < 0.30 ==> 45 <= KeywordRateScore(rate) <= 58
    ensures rate < 0.15 ==> 0 <= KeywordRateScore(rate) <= 45
  {
    var c := MinReal(100.0, KeywordCurve(rate));
    assert Round(c) as real - 0.5 <= c < Round(c) as real + 0.5;
  }

  /** Every keyword in the résumé gives the full 100. */
  lemma KeywordFullMatch()
    ensures KeywordRateScore(1.0) == 100
  {
    assert KeywordCurve(1.0) == 100.0;
    RoundInt(100);
  }

  /**
   * The rounded keyword score never falls as the match rate rises, although the raw curve
   * drops just past 0.30 (58.05 to 58), 0.60 (80.05 to 80) and 0.90 (95.5 to 95).
   */
  lemma KeywordRateMonotone(r1: real, r2: real)
    requires 0.0 <= r1 <= r2
    ensures KeywordRateScore(r1) <= KeywordRateScore(r2)
  {
    var c1 := MinReal(100.0, KeywordCurve(r1));
    var c2 := MinReal(100.0, KeywordCurve(r2));
    if c1 <= c2 {
      RoundMonotone(c1, c2);
    } else {
      KeywordRateBands(r1);
      KeywordRateBands(r2);
    }
  }

  /** The `keywordMatch` breakdown; a `None` score is the NaN of an empty keyword list (0 / 0). */
  datatype KeywordMatch = KeywordMatch(score: Option<int>, matched: nat, total: nat, matchedKeywords: seq<string>)

  function KeywordMatchOf(resumeText: string, jobKeywords: seq<string>): (r: KeywordMatch)
    ensures r.score.Some? <==> jobKeywords != []
    ensures r.score.Some? ==> 0 <= r.score.value <= 100
    ensures r.matched == |Matched(resumeText, jobKeywords)| <= r.total == |jobKeywords|
  {
    var matched := Matched(resumeText, jobKeywords);
    MatchesPartition(resumeText, jobKeywords);
    if |jobKeywords| == 0 then KeywordMatch(None, |matched|, 0, matched)
    else
      var rate := |matched| as real / |jobKeywords| as real;
      Fraction(|matched| as real, |jobKeywords| as real);
      KeywordRateBands(rate);
      KeywordMatch(Some(KeywordRateScore(rate)), |matched|, |jobKeywords|, matched)
  }

  /** `calculateKeywordMatchScore`. */
  method CalculateKeywordMatchScore(resumeText: string, jobKeywords: seq<string>) returns (r: KeywordMatch)
    ensures r == KeywordMatchOf(resumeText, jobKeywords)
  {
    var matched, missing := CountKeywordMatches(resumeText, jobKeywords);
    if |jobKeywords| == 0 {
      r := KeywordMatch(None, |matched|, 0, matched);
    } else {
      var matchRate := |matched| as real / |jobKeywords| as real;
      r := KeywordMatch(Some(KeywordRateScore(matchRate)), |matched|, |jobKeywords|, matched);
    }
  }

  // ---------------------------------------------------------------- calculateSemanticSimilarityScore

  /** The `semanticSimilarity` breakdown: the boosted score and the same value as a fraction. */
  datatype Semantic = Semantic(score: int, similarity: real)

  function SemanticOf(tfidf: real, resumeText: string, jobDescription: string): (r: Semantic)
    ensures r.similarity * 100.0 == r.score as real
  {
    var similarity := SemanticSimilarity(tfidf, resumeText, jobDescription);
    Semantic(similarity, similarity as real / 100.0)
  }

  /** For a TF-IDF cosine in [0, 1], the score lies in [0, 100] and the fraction in [0, 1]. */
  lemma SemanticBounds(tfidf: real, resumeText: string, jobDescription: string)
    requires 0.0 <= tfidf <= 1.0
    ensures 0 <= SemanticOf(tfidf, resumeText, jobDescription).score <= 100
    ensures 0.0 <= SemanticOf(tfidf, resumeText, jobDescription).similarity <= 1.0
  {
    SemanticSimilarityBounds(tfidf, resumeText, jobDescription);
  }

  // ---------------------------------------------------------------- calculateSkillsCoverageScore

  /** The score when the job description names no required skill. */
  const NO_SKILLS_SCORE: int := 98

  /** The boost curve of the skill coverage rate, by bands. */
  function SkillsCurve(rate: real): real {
    if rate >= 0.85 then 95.0 + (rate - 0.85) * 33.0
    else if rate >= 0.70 then 88.0 + (rate - 0.70) * 47.0
    else if rate >= 0.50 then 78.0 + (rate - 0.50) * 50.0
    else if rate >= 0.30 then 65.0 + (rate - 0.30) * 65.0
    else rate * 217.0
  }

  /** `Math.round(score)`: unlike the keyword score there is no cap at 100. */
  function SkillsRateScore(rate: real): int {
    Round(SkillsCurve(rate))
  }

  /** The rounded skills score stays inside the band its coverage rate falls in. */
  lemma SkillsRateBands(rate: real)
    requires 0.0 <= rate
    ensures rate >= 0.85 ==> 95 <= SkillsRateScore(rate) && (rate <= 1.0 ==> SkillsRateScore(rate) <= 100)
    ensures 0.70 <= rate < 0.85 ==> 88 <= SkillsRateScore(rate) <= 95
    ensures 0.50 <= rate < 0.70 ==> 78 <= SkillsRateScore(rate) <= 88
    ensures 0.30 <= rate < 0.50 ==> 65 <= SkillsRateScore(rate) <= 78
    ensures rate < 0.30 ==> 0 <= SkillsRateScore(rate) <= 65
  {
    var c := SkillsCurve(rate);
    assert Round(c) as real - 0.5 <= c < Round(c) as real + 0.5;
  }

  /** The rounded skills score never falls as the coverage rate rises. */
  lemma SkillsRateMonotone(r1: real, r2: real)
    requires 0.0 <= r1 <= r2
    ensures SkillsRateScore(r1) <= SkillsRateScore(r2)
  {
    if SkillsCurve(r1) <= SkillsCurve(r2) {
      RoundMonotone(SkillsCurve(r1), SkillsCurve(r2));
    } else {
      SkillsRateBands(r1);
      SkillsRateBands(r2);
    }
  }

  /** The `requiredSkills` breakdown. */
  datatype SkillsCoverage = SkillsCoverage(score: int, covered: seq<string>, missing: seq<string>, total: nat)

  function SkillsCoverageFrom(resumeText: string, requiredSkills: seq<string>): (r: SkillsCoverage)
    ensures r.total == |requiredSkills| == |r.covered| + |r.missing|
    ensures requiredSkills == [] ==> r.score == NO_SKILLS_SCORE
    ensures 0 <= r.score <= 100
  {
    if |requiredSkills| == 0 then SkillsCoverage(NO_SKILLS_SCORE, [], [], 0)
    else
      var covered := Filter(requiredSkills, Covers(resumeText));
      CoveragePartition(resumeText, requiredSkills);
      var rate := |covered| as real / |requiredSkills| as real;
      Fraction(|covered| as real, |requiredSkills| as real);
      SkillsRateBands(rate);
      SkillsCoverage(SkillsRateScore(rate), covered, Filter(requiredSkills, Lacks(resumeText)), |requiredSkills|)
  }

  /** `calculateSkillsCoverageScore`. */
  method CalculateSkillsCoverageScore(resumeText: string, jobDescription: string) returns (r: SkillsCoverage)
    ensures r == SkillsCoverageFrom(resumeText, RequiredSkills(jobDescription))
  {
    var requiredSkills := DetectRequiredSkills(jobDescription);
    if |requiredSkills| == 0 {
      return SkillsCoverage(NO_SKILLS_SCORE, [], [], 0);
    }
    var covered, missing := CheckSkillsCoverage(resumeText, requiredSkills);
    var coverageRate := |covered| as real / |requiredSkills| as real;
    r := SkillsCoverage(SkillsRateScore(coverageRate), covered, missing, |requiredSkills|);
  }

  // ---------------------------------------------------------------- calculateDistributionQualityScore

  const MAJOR_SECTIONS: seq<string> := ["experience", "skills", "summary", "projects"]
  const STUFFING_DENSITY: real := 0.25
  const STUFFING_PENALTY: nat := 8
  const UNEVEN_PENALTY: nat := 7
  const DISTRIBUTION_FLOOR: int := 75

  /** One entry of `details`; `section` is the entry's key. */
  datatype DensityDetail = DensityDetail(section: string, density: real, keywordCount: nat, isStuffed: bool)

  /** The `distributionQuality` breakdown; `details` lists the entries in insertion order. */
  datatype Distribution = Distribution(score: int, details: seq<DensityDetail>)

  predicate Stuffed(d: DensityDetail) {
    d.isStuffed
  }

  predicate HasMatches(d: DensityDetail) {
    d.keywordCount > 0
  }

  function SectionOf(d: DensityDetail): string {
    d.section
  }

  /** The truthiness test `sections[sectionName]`. */
  function Present(ss: Sections): string -> bool {
    name => Get(ss, name) != ""
  }

  /** An entry from the section's word count and match count; the density is rounded to two places. */
  function DetailFromCounts(name: string, words: nat, keywordCount: nat): DensityDetail {
    var density := if words > 0 then keywordCount as real / words as real else 0.0;
    DensityDetail(name, Round(density * 100.0) as real / 100.0, keywordCount, density > STUFFING_DENSITY)
  }

  /** A section's entry: its words split on whitespace runs, and the summed global match counts. */
  function DetailOf(name: string, sectionText: string, keywords: seq<string>): DensityDetail {
    DetailFromCounts(name, |SplitRuns(sectionText, IsSpace)|, TotalMatches(LowerStr(sectionText), keywords))
  }

  /** The entries for the present sections among `names`, in order. */
  function Details(ss: Sections, names: seq<string>, keywords: seq<string>): seq<DensityDetail>
    decreases |names|
  {
    if names == [] then []
    else
      var name := names[|names| - 1];
      Details(ss, names[..|names| - 1], keywords) +
      (if Get(ss, name) != "" then [DetailOf(name, Get(ss, name), keywords)] else [])
  }

  /** 8 per stuffed section, and 7 more when several sections were analysed but fewer than 2 hold a keyword. */
  function DistributionPenalty(details: seq<DensityDetail>): nat {
    STUFFING_PENALTY * |Filter(details, Stuffed)| +
    (if |Filter(details, HasMatches)| < 2 && |details| > 1 then UNEVEN_PENALTY else 0)
  }

  function DistributionFrom(ss: Sections, keywords: seq<string>): (r: Distribution)
    ensures DISTRIBUTION_FLOOR <= r.score <= 100
  {
    var details := Details(ss, MAJOR_SECTIONS, keywords);
    Distribution(MaxInt(DISTRIBUTION_FLOOR, 100 - DistributionPenalty(details)), details)
  }

  lemma DetailsStep(ss: Sections, names: seq<string>, j: nat, keywords: seq<string>)
    requires j < |names|
    ensures Details(ss, names[..j + 1], keywords) == Details(ss, names[..j], keywords) +
      (if Get(ss, names[j]) != "" then [DetailOf(names[j], Get(ss, names[j]), keywords)] else [])
  {
    assert names[..j + 1][..j] == names[..j];
  }

  /**
   * The entries name exactly the present sections among `names`, in order, and each is the
   * entry of its own section's text.
   */
  lemma {:induction false} DetailsProps(ss: Sections, names: seq<string>, keywords: seq<string>)
    ensures Map(Details(ss, names, keywords), SectionOf) == Filter(names, Present(ss))
    ensures forall i :: 0 <= i < |Details(ss, names, keywords)| ==>
      Details(ss, names, keywords)[i] == DetailOf(Details(ss, names, keywords)[i].section, Get(ss, Details(ss, names, keywords)[i].section), keywords)
    decreases |names|
  {
    if names != [] {
      var init := names[..|names| - 1];
      var name := names[|names| - 1];
      DetailsProps(ss, init, keywords);
      var d := Details(ss, init, keywords);
      if Get(ss, name) != "" {
        var e := DetailOf(name, Get(ss, name), keywords);
        assert (d + [e])[..|d|] == d;
        assert Map(d + [e], SectionOf) == Map(d, SectionOf) + [name];
      } else {
        assert Details(ss, names, keywords) == d;
      }
    }
  }

  /** The full score is kept exactly when no section is stuffed and the keywords are spread out. */
  lemma DistributionFull(ss: Sections, keywords: seq<string>)
    ensures var details := DistributionFrom(ss, keywords).details;
      DistributionFrom(ss, keywords).score == 100 <==>
      (forall i :: 0 <= i < |details| ==> !details[i].isStuffed) &&
      (|details| <= 1 || |Filter(details, HasMatches)| >= 2)
  {
    var details := DistributionFrom(ss, keywords).details;
    FilterNoneIff(details);
  }

  /** No element passes the filter exactly when the filter is empty. */
  lemma {:induction false} FilterNoneIff(details: seq<DensityDetail>)
    ensures |Filter(details, Stuffed)| == 0 <==> forall i :: 0 <= i < |details| ==> !details[i].isStuffed
    decreases |details|
  {
    if details != [] {
      var init := details[..|details| - 1];
      FilterNoneIff(init);
      assert forall i :: 0 <= i < |init| ==> init[i] == details[i];
    }
  }

  /** The inner loop: the global match counts of the lowercased keywords, summed. */
  method CountMatches(lowerText: string, keywords: seq<string>) returns (keywordCount: nat)
    ensures keywordCount == TotalMatches(lowerText, keywords)
  {
    keywordCount := 0;
    for i := 0 to |keywords|
      invariant keywordCount == TotalMatches(lowerText, keywords[..i])
    {
      TotalMatchesStep(lowerText, keywords, i);
      keywordCount := keywordCount + MatchCount(lowerText, LowerStr(keywords[i]));
    }
    PrefixAll(keywords);
  }

  /** The density, its rounding and the stuffing verdict of one section. */
  method Density(sectionName: string, words: nat, keywordCount: nat) returns (detail: DensityDetail)
    ensures detail == DetailFromCounts(sectionName, words, keywordCount)
    ensures detail.section == sectionName && detail.keywordCount == keywordCount
    ensures detail.isStuffed <==> words > 0 && keywordCount as real > STUFFING_DENSITY * words as real
  {
    var density := if words > 0 then keywordCount as real / words as real else 0.0;
    var isStuffed := density > STUFFING_DENSITY;
    detail := DensityDetail(sectionName, Round(density * 100.0) as real / 100.0, keywordCount, isStuffed);
    if words > 0 {
      AboveRatio(keywordCount as real, words as real, STUFFING_DENSITY);
    }
  }

  /** The body of the section loop for one present section. */
  method MeasureSection(sectionName: string, sectionText: string, jobKeywords: seq<string>) returns (detail: DensityDetail)
    ensures detail == DetailOf(sectionName, sectionText, jobKeywords)
  {
    var words := |SplitRuns(sectionText, IsSpace)|;
    var lowerText := LowerStr(sectionText);
    var keywordCount := CountMatches(lowerText, jobKeywords);
    detail := Density(sectionName, words, keywordCount);
  }

  /** The section loop, over the detected sections. */
  method MeasureSections(sections: Sections, names: seq<string>, jobKeywords: seq<string>)
    returns (details: seq<DensityDetail>, totalPenalty: nat, sectionsAnalyzed: nat)
    ensures details == Details(sections, names, jobKeywords)
    ensures totalPenalty == STUFFING_PENALTY * |Filter(details, Stuffed)|
    ensures sectionsAnalyzed == |details|
  {
    details := [];
    totalPenalty := 0;
    sectionsAnalyzed := 0;
    for i := 0 to |names|
      invariant details == Details(sections, names[..i], jobKeywords)
      invariant totalPenalty == STUFFING_PENALTY * |Filter(details, Stuffed)|
      invariant sectionsAnalyzed == |details|
    {
      DetailsStep(sections, names, i, jobKeywords);
      var sectionText := Get(sections, names[i]);
      if sectionText != "" {
        sectionsAnalyzed := sectionsAnalyzed + 1;
        var detail := MeasureSection(names[i], sectionText, jobKeywords);
        FilterAppend(details, [detail], Stuffed);
        assert Filter([detail], Stuffed) == (if detail.isStuffed then [detail] else []) by {
          assert [detail][..0] == [];
        }
        details := details + [detail];
        if detail.isStuffed {
          totalPenalty := totalPenalty + STUFFING_PENALTY;
        }
      }
    }
    PrefixAll(names);
  }

  /** `calculateDistributionQualityScore` on the detected sections. */
  method DistributionOver(sections: Sections, jobKeywords: seq<string>) returns (r: Distribution)
    ensures r == DistributionFrom(sections, jobKeywords)
  {
    var details, totalPenalty, sectionsAnalyzed := MeasureSections(sections, MAJOR_SECTIONS, jobKeywords);
    var hasEvenDistribution := |Filter(details, HasMatches)| >= 2;
    if !hasEvenDistribution && sectionsAnalyzed > 1 {
      totalPenalty := totalPenalty + UNEVEN_PENALTY;
    }
    r := Distribution(MaxInt(DISTRIBUTION_FLOOR, 100 - totalPenalty), details);
  }

  /** `calculateDistributionQualityScore`. */
  method CalculateDistributionQualityScore(resumeText: string, jobKeywords: seq<string>) returns (r: Distribution)
    ensures r == DistributionFrom(Segment(resumeText), jobKeywords)
  {
    var sections := DetectSections(resumeText);
    r := DistributionOver(sections, jobKeywords);
  }

  // ---------------------------------------------------------------- calculateATSHeuristicsScore

  /** The entries of `issues` and `passed`; `CheckText` gives their wording. */
  datatype Check =
    | TablesFound | NoTables
    | MultiColumnFound | SingleColumn
    | MissingSections | StandardSections
    | TooShort | TooLong | AppropriateLength

  function CheckText(c: Check): string {
    match c
    case TablesFound => "Tables detected - may not parse correctly in ATS"
    case NoTables => "No tables detected"
    case MultiColumnFound => "Multi-column layout detected - may confuse ATS"
    case SingleColumn => "Single-column layout"
    case MissingSections => "Missing one or more standard sections (Experience, Education, Skills)"
    case StandardSections => "Standard sections present"
    case TooShort => "Resume may be too short (less than 200 words)"
    case TooLong => "Resume may be too long (over 2000 words) - consider condensing"
    case AppropriateLength => "Appropriate length"
  }

  const TABLES_PENALTY: nat := 12
  const MULTI_COLUMN_PENALTY: nat := 10
  const MISSING_SECTIONS_PENALTY: nat := 8
  const TOO_SHORT_PENALTY: nat := 5
  const TOO_LONG_PENALTY: nat := 3
  const MIN_WORDS: nat := 200
  const MAX_WORDS: nat := 2000
  const MIN_SECTION_LENGTH: nat := 20
  const HEURISTICS_FLOOR: int := 80
  const STANDARD_SECTIONS: seq<string> := ["experience", "education", "skills"]

  /** The `atsHeuristics` breakdown. */
  datatype Heuristics = Heuristics(score: int, issues: seq<Check>, passed: seq<Check>)

  /** Every one of `names` is present with more than 20 characters. */
  predicate Substantial(ss: Sections, names: seq<string>) {
    forall i :: 0 <= i < |names| ==> |Get(ss, names[i])| > MIN_SECTION_LENGTH
  }

  /** The running state of the checks: `issues`, `passed` and `penalties`. */
  datatype Tally = Tally(issues: seq<Check>, passed: seq<Check>, penalties: nat)

  /** One check: a failure adds its issue and its penalty, a pass adds its entry to `passed`. */
  function Judge(t: Tally, failed: bool, issue: Check, pass: Check, penalty: nat): Tally {
    if failed then Tally(t.issues + [issue], t.passed, t.penalties + penalty)
    else Tally(t.issues, t.passed + [pass], t.penalties)
  }

  /** The length check: too short below 200 words, too long above 2000. */
  function JudgeLength(t: Tally, wordCount: nat): Tally {
    Judge(t, wordCount < MIN_WORDS || wordCount > MAX_WORDS,
          if wordCount < MIN_WORDS then TooShort else TooLong, AppropriateLength,
          if wordCount < MIN_WORDS then TOO_SHORT_PENALTY else TOO_LONG_PENALTY)
  }

  /** The three layout checks in their order: tables, columns, standard sections. */
  function LayoutChecks(tables: bool, multiColumn: bool, standard: bool): Tally {
    var t1 := Judge(Tally([], [], 0), tables, TablesFound, NoTables, TABLES_PENALTY);
    var t2 := Judge(t1, multiColumn, MultiColumnFound, SingleColumn, MULTI_COLUMN_PENALTY);
    Judge(t2, !standard, MissingSections, StandardSections, MISSING_SECTIONS_PENALTY)
  }

  /** The four checks in their order: the layout checks, then length. */
  function Checks(tables: bool, multiColumn: bool, standard: bool, wordCount: nat): Tally {
    JudgeLength(LayoutChecks(tables, multiColumn, standard), wordCount)
  }

  /** The breakdown from the four findings: the score is 100 less the penalties, floored at 80. */
  function HeuristicsFrom(tables: bool, multiColumn: bool, standard: bool, wordCount: nat): (r: Heuristics)
    ensures HEURISTICS_FLOOR <= r.score <= 100
  {
    var t := Checks(tables, multiColumn, standard, wordCount);
    Heuristics(MaxInt(HEURISTICS_FLOOR, 100 - t.penalties), t.issues, t.passed)
  }

  /** The breakdown of a résumé; the word count is that of the raw text split on whitespace runs. */
  function HeuristicsOf(resumeText: string): Heuristics {
    HeuristicsFrom(HasTables(resumeText), MultiColumnLayout(resumeText),
                   Substantial(Segment(resumeText), STANDARD_SECTIONS), |SplitRuns(resumeText, IsSpace)|)
  }

  /**
   * A check adds exactly one entry, to `issues` if it failed and to `passed` otherwise, and
   * keeps "no penalty exactly when no issue" when its penalty is positive.
   */
  lemma JudgeProps(t: Tally, failed: bool, issue: Check, pass: Check, penalty: nat)
    requires penalty > 0
    ensures var r := Judge(t, failed, issue, pass, penalty);
      |r.issues| + |r.passed| == |t.issues| + |t.passed| + 1 &&
      (forall c :: c in r.issues <==> c in t.issues || (failed && c == issue)) &&
      (forall c :: c in r.passed <==> c in t.passed || (!failed && c == pass)) &&
      ((t.penalties == 0 <==> t.issues == []) ==> (r.penalties == 0 <==> r.issues == []))
  {
  }

  /** The checks that failed, in terms of the three findings. */
  lemma LayoutIssues(tables: bool, multiColumn: bool, standard: bool)
    ensures forall c :: c in LayoutChecks(tables, multiColumn, standard).issues <==>
      (tables && c == TablesFound) || (multiColumn && c == MultiColumnFound) || (!standard && c == MissingSections)
  {
    var t1 := Judge(Tally([], [], 0), tables, TablesFound, NoTables, TABLES_PENALTY);
    var t2 := Judge(t1, multiColumn, MultiColumnFound, SingleColumn, MULTI_COLUMN_PENALTY);
    JudgeProps(Tally([], [], 0), tables, TablesFound, NoTables, TABLES_PENALTY);
    JudgeProps(t1, multiColumn, MultiColumnFound, SingleColumn, MULTI_COLUMN_PENALTY);
    JudgeProps(t2, !standard, MissingSections, StandardSections, MISSING_SECTIONS_PENALTY);
  }

  /** The checks that passed, in terms of the three findings. */
  lemma LayoutPassed(tables: bool, multiColumn: bool, standard: bool)
    ensures forall c :: c in LayoutChecks(tables, multiColumn, standard).passed <==>
      (!tables && c == NoTables) || (!multiColumn && c == SingleColumn) || (standard && c == StandardSections)
  {
    var t1 := Judge(Tally([], [], 0), tables, TablesFound, NoTables, TABLES_PENALTY);
    var t2 := Judge(t1, multiColumn, MultiColumnFound, SingleColumn, MULTI_COLUMN_PENALTY);
    JudgeProps(Tally([], [], 0), tables, TablesFound, NoTables, TABLES_PENALTY);
    JudgeProps(t1, multiColumn, MultiColumnFound, SingleColumn, MULTI_COLUMN_PENALTY);
    JudgeProps(t2, !standard, MissingSections, StandardSections, MISSING_SECTIONS_PENALTY);
  }

  /** Three entries in all, and no penalty exactly when no layout check failed. */
  lemma LayoutCount(tables: bool, multiColumn: bool, standard: bool)
    ensures var t := LayoutChecks(tables, multiColumn, standard);
      |t.issues| + |t.passed| == 3 && (t.penalties == 0 <==> t.issues == [])
  {
    var t1 := Judge(Tally([], [], 0), tables, TablesFound, NoTables, TABLES_PENALTY);
    var t2 := Judge(t1, multiColumn, MultiColumnFound, SingleColumn, MULTI_COLUMN_PENALTY);
    JudgeProps(Tally([], [], 0), tables, TablesFound, NoTables, TABLES_PENALTY);
    JudgeProps(t1, multiColumn, MultiColumnFound, SingleColumn, MULTI_COLUMN_PENALTY);
    JudgeProps(t2, !standard, MissingSections, StandardSections, MISSING_SECTIONS_PENALTY);
  }

  /** Each layout check lands in exactly one of the two lists; no length entry is among them. */
  lemma LayoutProps(tables: bool, multiColumn: bool, standard: bool)
    ensures var t := LayoutChecks(tables, multiColumn, standard);
      |t.issues| + |t.passed| == 3 &&
      (TablesFound in t.issues <==> tables) && (NoTables in t.passed <==> !tables) &&
      (MultiColumnFound in t.issues <==> multiColumn) && (SingleColumn in t.passed <==> !multiColumn) &&
      (MissingSections in t.issues <==> !standard) && (StandardSections in t.passed <==> standard) &&
      TooShort !in t.issues && TooLong !in t.issues && AppropriateLength !in t.passed &&
      (t.penalties == 0 <==> t.issues == [])
  {
    LayoutIssues(tables, multiColumn, standard);
    LayoutPassed(tables, multiColumn, standard);
    LayoutCount(tables, multiColumn, standard);
  }

  /**
   * Each check lands in exactly one of the two lists, so they hold 4 entries together, and
   * the score is 100 exactly when no check failed.
   */
  lemma HeuristicsChecks(tables: bool, multiColumn: bool, standard: bool, wordCount: nat)
    ensures var h := HeuristicsFrom(tables, multiColumn, standard, wordCount);
      |h.issues| + |h.passed| == 4 &&
      (TablesFound in h.issues <==> tables) && (NoTables in h.passed <==> !tables) &&
      (MultiColumnFound in h.issues <==> multiColumn) && (SingleColumn in h.passed <==> !multiColumn) &&
      (MissingSections in h.issues <==> !standard) && (StandardSections in h.passed <==> standard) &&
      (TooShort in h.issues <==> wordCount < MIN_WORDS) && (TooLong in h.issues <==> wordCount > MAX_WORDS) &&
      (AppropriateLength in h.passed <==> MIN_WORDS <= wordCount <= MAX_WORDS) &&
      (h.score == 100 <==> h.issues == [])
  {
    var t3 := LayoutChecks(tables, multiColumn, standard);
    LayoutProps(tables, multiColumn, standard);
    JudgeProps(t3, wordCount < MIN_WORDS || wordCount > MAX_WORDS,
               if wordCount < MIN_WORDS then TooShort else TooLong, AppropriateLength,
               if wordCount < MIN_WORDS then TOO_SHORT_PENALTY else TOO_LONG_PENALTY);
  }

  /** The body of `calculateATSHeuristicsScore` once the four findings are known. */
  method TallyChecks(tables: bool, multiColumn: bool, standard: bool, wordCount: nat) returns (r: Heuristics)
    ensures r == HeuristicsFrom(tables, multiColumn, standard, wordCount)
  {
    var issues: seq<Check> := [];
    var passed: seq<Check> := [];
    var penalties := 0;
    if tables {
      issues := issues + [TablesFound];
      penalties := penalties + TABLES_PENALTY;
    } else {
      passed := passed + [NoTables];
    }
    ghost var t1 := Tally(issues, passed, penalties);
    assert t1 == Judge(Tally([], [], 0), tables, TablesFound, NoTables, TABLES_PENALTY);
    if multiColumn {
      issues := issues + [MultiColumnFound];
      penalties := penalties + MULTI_COLUMN_PENALTY;
    } else {
      passed := passed + [SingleColumn];
    }
    ghost var t2 := Tally(issues, passed, penalties);
    assert t2 == Judge(t1, multiColumn, MultiColumnFound, SingleColumn, MULTI_COLUMN_PENALTY);
    if !standard {
      issues := issues + [MissingSections];
      penalties := penalties + MISSING_SECTIONS_PENALTY;
    } else {
      passed := passed + [StandardSections];
    }
    ghost var t3 := Tally(issues, passed, penalties);
    assert t3 == Judge(t2, !standard, MissingSections, StandardSections, MISSING_SECTIONS_PENALTY);
    if wordCount < MIN_WORDS {
      issues := issues + [TooShort];
      penalties := penalties + TOO_SHORT_PENALTY;
    } else if wordCount > MAX_WORDS {
      issues := issues + [TooLong];
      penalties := penalties + TOO_LONG_PENALTY;
    } else {
      passed := passed + [AppropriateLength];
    }
    assert t3 == LayoutChecks(tables, multiColumn, standard);
    assert Tally(issues, passed, penalties) == JudgeLength(t3, wordCount);
    r := Heuristics(MaxInt(HEURISTICS_FLOOR, 100 - penalties), issues, passed);
  }

  /** `calculateATSHeuristicsScore`. */
  method CalculateATSHeuristicsScore(resumeText: string) returns (r: Heuristics)
    ensures r == HeuristicsOf(resumeText)
  {
    var tables := HasTables(resumeText);
    var multiColumn := HasMultiColumn(resumeText);
    var sections := DetectSections(resumeText);
    var standard := Substantial(sections, STANDARD_SECTIONS);
    var wordCount := |SplitRuns(resumeText, IsSpace)|;
    r := TallyChecks(tables, multiColumn, standard, wordCount);
  }

  // ---------------------------------------------------------------- calculateATSScore

  const KEYWORD_WEIGHT: real := 0.55
  const SEMANTIC_WEIGHT: real := 0.20
  const SKILLS_WEIGHT: real := 0.10
  const DISTRIBUTION_WEIGHT: real := 0.10
  const HEURISTICS_WEIGHT: real := 0.05

  /** `Math.round` of the weighted sum of the five sub-scores. */
  function WeightedScore(keyword: int, semantic: int, skills: int, distribution: int, heuristics: int): int {
    Round(keyword as real * KEYWORD_WEIGHT + semantic as real * SEMANTIC_WEIGHT + skills as real * SKILLS_WEIGHT +
          distribution as real * DISTRIBUTION_WEIGHT + heuristics as real * HEURISTICS_WEIGHT)
  }

  /** The weights sum to 1, so sub-scores in [0, 100] give a final score in [0, 100]. */
  lemma WeightedScoreBounds(keyword: int, semantic: int, skills: int, distribution: int, heuristics: int)
    requires 0 <= keyword <= 100 && 0 <= semantic <= 100 && 0 <= skills <= 100
    requires 0 <= distribution <= 100 && 0 <= heuristics <= 100
    ensures 0 <= WeightedScore(keyword, semantic, skills, distribution, heuristics) <= 100
  {
    RoundBetween(keyword as real * KEYWORD_WEIGHT + semantic as real * SEMANTIC_WEIGHT + skills as real * SKILLS_WEIGHT +
                 distribution as real * DISTRIBUTION_WEIGHT + heuristics as real * HEURISTICS_WEIGHT, 0, 100);
  }

  /** A higher keyword score never lowers the final score. */
  lemma WeightedScoreMonotone(keyword: int, keyword': int, semantic: int, skills: int, distribution: int, heuristics: int)
    requires keyword <= keyword'
    ensures WeightedScore(keyword, semantic, skills, distribution, heuristics) <=
            WeightedScore(keyword', semantic, skills, distribution, heuristics)
  {
    RoundMonotone(keyword as real * KEYWORD_WEIGHT + semantic as real * SEMANTIC_WEIGHT + skills as real * SKILLS_WEIGHT +
                  distribution as real * DISTRIBUTION_WEIGHT + heuristics as real * HEURISTICS_WEIGHT,
                  keyword' as real * KEYWORD_WEIGHT + semantic as real * SEMANTIC_WEIGHT + skills as real * SKILLS_WEIGHT +
                  distribution as real * DISTRIBUTION_WEIGHT + heuristics as real * HEURISTICS_WEIGHT);
  }

  /** `ScoreBreakdown`. */
  datatype Breakdown = Breakdown(
    keywordMatch: KeywordMatch,
    semanticSimilarity: Semantic,
    requiredSkills: SkillsCoverage,
    distributionQuality: Distribution,
    atsHeuristics: Heuristics)

  /** `ResumeAnalysis`; `score` is `None` where JavaScript computes NaN. */
  datatype ResumeAnalysis = ResumeAnalysis(
    score: Option<int>,
    breakdown: Breakdown,
    missingKeywords: seq<string>,
    strongMatches: seq<string>,
    suggestions: seq<Suggestion>,
    sectionAnalysis: Analysis)

  /** The final score of a breakdown: NaN, that is `None`, exactly when the keyword score is. */
  function FinalScore(b: Breakdown): (r: Option<int>)
    ensures r.Some? <==> b.keywordMatch.score.Some?
  {
    match b.keywordMatch.score
    case None => None
    case Some(k) =>
      Some(WeightedScore(k, b.semanticSimilarity.score, b.requiredSkills.score, b.distributionQuality.score, b.atsHeuristics.score))
  }

  /** The breakdown against `jobKeywords`, given the three sub-scores that do not depend on it. */
  function Combine(resumeText: string, jobKeywords: seq<string>, semantic: Semantic, skills: SkillsCoverage,
                   heuristics: Heuristics): Breakdown {
    Breakdown(KeywordMatchOf(resumeText, jobKeywords), semantic, skills, DistributionFrom(Segment(resumeText), jobKeywords), heuristics)
  }

  /** The breakdown `calculateATSScore` computes against the keyword list `jobKeywords`. */
  function BreakdownWith(resumeText: string, jobDescription: string, tfidf: real, jobKeywords: seq<string>): Breakdown {
    Combine(resumeText, jobKeywords, SemanticOf(tfidf, resumeText, jobDescription),
            SkillsCoverageFrom(resumeText, RequiredSkills(jobDescription)), HeuristicsOf(resumeText))
  }

  /** The final score of `calculateATSScore(resumeText, jobDescription, excluded)`. */
  function Score(resumeText: string, jobDescription: string, excluded: seq<string>, tfidf: real): Option<int> {
    FinalScore(BreakdownWith(resumeText, jobDescription, tfidf, JobKeywords(jobDescription, excluded)))
  }

  /** `calculateATSScore`; `tfidf` is the TF-IDF cosine and `pick(i)` the `i`-th `Math.random` draw. */
  method CalculateATSScore(resumeText: string, jobDescription: string, excludedKeywords: seq<string>,
                           tfidf: real, pick: nat -> nat)
    returns (a: ResumeAnalysis)
    ensures a.breakdown == BreakdownWith(resumeText, jobDescription, tfidf, JobKeywords(jobDescription, excludedKeywords))
    ensures a.score == FinalScore(a.breakdown)
    ensures a.missingKeywords == Take(Missing(resumeText, JobKeywords(jobDescription, excludedKeywords)), SHOWN)
    ensures a.strongMatches == Take(Matched(resumeText, JobKeywords(jobDescription, excludedKeywords)), SHOWN)
    ensures a.suggestions ==
      SuggestionsFor(resumeText, Missing(resumeText, JobKeywords(jobDescription, excludedKeywords)), a.breakdown.requiredSkills.missing, pick)
    ensures a.sectionAnalysis == AnalysisOf(resumeText, JobKeywords(jobDescription, excludedKeywords))
  {
    var jobKeywords := ExtractKeywords(jobDescription, KEYWORD_COUNT);
    if |excludedKeywords| > 0 {
      var excludedSet := ExcludedSet(excludedKeywords);
      jobKeywords := Filter(jobKeywords, Kept(excludedSet));
    }
    assert jobKeywords == JobKeywords(jobDescription, excludedKeywords);
    a := AnalyzeAgainst(resumeText, jobDescription, jobKeywords, tfidf, pick);
  }

  /** The rest of `calculateATSScore`, once the keyword list to score against is known. */
  method AnalyzeAgainst(resumeText: string, jobDescription: string, jobKeywords: seq<string>,
                        tfidf: real, pick: nat -> nat)
    returns (a: ResumeAnalysis)
    ensures a.breakdown == BreakdownWith(resumeText, jobDescription, tfidf, jobKeywords)
    ensures a.score == FinalScore(a.breakdown)
    ensures a.missingKeywords == Take(Missing(resumeText, jobKeywords), SHOWN)
    ensures a.strongMatches == Take(Matched(resumeText, jobKeywords), SHOWN)
    ensures a.suggestions == SuggestionsFor(resumeText, Missing(resumeText, jobKeywords), a.breakdown.requiredSkills.missing, pick)
    ensures a.sectionAnalysis == AnalysisOf(resumeText, jobKeywords)
  {
    var breakdown := ScoreBreakdown(resumeText, jobDescription, jobKeywords, tfidf);
    var finalScore := FinalScore(breakdown);
    var _, missingKeywords := CountKeywordMatches(resumeText, jobKeywords);
    var suggestions := GenerateSuggestions(resumeText, jobDescription, missingKeywords, breakdown.requiredSkills.missing, finalScore, pick);
    var sectionAnalysis := AnalyzeSections(resumeText, jobKeywords);
    a := ResumeAnalysis(finalScore, breakdown, Take(missingKeywords, SHOWN), Take(breakdown.keywordMatch.matchedKeywords, SHOWN),
                        suggestions, sectionAnalysis);
  }

  /** The five sub-scores of `calculateATSScore`, in its order. */
  method ScoreBreakdown(resumeText: string, jobDescription: string, jobKeywords: seq<string>, tfidf: real)
    returns (breakdown: Breakdown)
    ensures breakdown == BreakdownWith(resumeText, jobDescription, tfidf, jobKeywords)
  {
    var keywordMatchScore := CalculateKeywordMatchScore(resumeText, jobKeywords);
    var semanticScore := SemanticOf(tfidf, resumeText, jobDescription);
    var skillsScore := CalculateSkillsCoverageScore(resumeText, jobDescription);
    var distributionScore := CalculateDistributionQualityScore(resumeText, jobKeywords);
    var heuristicsScore := CalculateATSHeuristicsScore(resumeText);
    breakdown := Breakdown(keywordMatchScore, semanticScore, skillsScore, distributionScore, heuristicsScore);
  }

  /** Sub-scores in [0, 100] give a final score in [0, 100]. */
  lemma FinalScoreBounds(b: Breakdown)
    requires b.keywordMatch.score.Some? ==> 0 <= b.keywordMatch.score.value <= 100
    requires 0 <= b.semanticSimilarity.score <= 100 && 0 <= b.requiredSkills.score <= 100
    requires 0 <= b.distributionQuality.score <= 100 && 0 <= b.atsHeuristics.score <= 100
    ensures FinalScore(b).Some? ==> 0 <= FinalScore(b).value <= 100
  {
    if b.keywordMatch.score.Some? {
      WeightedScoreBounds(b.keywordMatch.score.value, b.semanticSimilarity.score, b.requiredSkills.score,
                          b.distributionQuality.score, b.atsHeuristics.score);
    }
  }

  /**
   * The final score is a number exactly when some keyword is left to score against, and then
   * it lies in [0, 100].
   */
  lemma ScoreBounds(resumeText: string, jobDescription: string, excluded: seq<string>, tfidf: real)
    requires 0.0 <= tfidf <= 1.0
    ensures Score(resumeText, jobDescription, excluded, tfidf).Some? <==> JobKeywords(jobDescription, excluded) != []
    ensures Score(resumeText, jobDescription, excluded, tfidf).Some? ==>
      0 <= Score(resumeText, jobDescription, excluded, tfidf).value <= 100
  {
    SemanticBounds(tfidf, resumeText, jobDescription);
    FinalScoreBounds(BreakdownWith(resumeText, jobDescription, tfidf, JobKeywords(jobDescription, excluded)));
  }

  // ---------------------------------------------------------------- excluding missing keywords

  /** Dropping keywords that never occur in the text leaves the summed match count unchanged. */
  lemma {:induction false} TotalMatchesKept(lowerText: string, keywords: seq<string>, keep: string -> bool)
    requires forall k :: k in keywords && !keep(k) ==> !Contains(lowerText, LowerStr(k))
    ensures TotalMatches(lowerText, Filter(keywords, keep)) == TotalMatches(lowerText, keywords)
    decreases |keywords|
  {
    if keywords != [] {
      var init := keywords[..|keywords| - 1];
      var x := keywords[|keywords| - 1];
      assert keywords == init + [x];
      assert forall y :: y in init ==> y in keywords;
      TotalMatchesKept(lowerText, init, keep);
      TotalMatchesSnoc(lowerText, init, x);
      var f := Filter(init, keep);
      if keep(x) {
        assert Filter(keywords, keep) == f + [x];
        TotalMatchesSnoc(lowerText, f, x);
      } else {
        assert Filter(keywords, keep) == f;
        assert MatchCount(lowerText, LowerStr(x)) == 0;
      }
    }
  }

  /** Dropping keywords that occur in no section leaves every section's entry unchanged. */
  lemma {:induction false} DetailsKept(ss: Sections, names: seq<string>, keywords: seq<string>, keep: string -> bool)
    requires forall n, k :: n in names && k in keywords && !keep(k) ==> !Contains(LowerStr(Get(ss, n)), LowerStr(k))
    ensures Details(ss, names, Filter(keywords, keep)) == Details(ss, names, keywords)
    decreases |names|
  {
    if names != [] {
      var init := names[..|names| - 1];
      var name := names[|names| - 1];
      assert forall n :: n in init ==> n in names;
      DetailsKept(ss, init, keywords, keep);
      TotalMatchesKept(LowerStr(Get(ss, name)), keywords, keep);
    }
  }

  /** Dropping keywords the résumé lacks leaves the distribution score and its details unchanged. */
  lemma DistributionKept(resumeText: string, keywords: seq<string>, keep: string -> bool)
    requires forall k :: k in keywords && !keep(k) ==> !HasKeyword(resumeText, k)
    ensures DistributionFrom(Segment(resumeText), Filter(keywords, keep)) == DistributionFrom(Segment(resumeText), keywords)
  {
    var ss := Segment(resumeText);
    forall n, k | n in MAJOR_SECTIONS && k in keywords && !keep(k)
      ensures !Contains(LowerStr(Get(ss, n)), LowerStr(k))
    {
      SectionLacksMissing(resumeText, n, k);
    }
    DetailsKept(ss, MAJOR_SECTIONS, keywords, keep);
  }

  /** The same number of matches over fewer keywords never gives a lower keyword score. */
  lemma FewerKeywords(matched: nat, total: nat, total': nat)
    requires matched <= total' <= total && total' > 0
    ensures KeywordRateScore(matched as real / total as real) <= KeywordRateScore(matched as real / total' as real)
  {
    SmallerDenominator(matched as real, total' as real, total as real);
    KeywordRateMonotone(matched as real / total as real, matched as real / total' as real);
  }

  /** Dropping keywords the résumé lacks keeps the same matches over fewer keywords. */
  lemma KeywordMatchKept(resumeText: string, keywords: seq<string>, keep: string -> bool)
    requires forall k :: k in keywords && !keep(k) ==> !HasKeyword(resumeText, k)
    requires Filter(keywords, keep) != []
    ensures KeywordMatchOf(resumeText, keywords).score.Some?
    ensures KeywordMatchOf(resumeText, keywords).score.value <= KeywordMatchOf(resumeText, Filter(keywords, keep)).score.value
  {
    var kept := Filter(keywords, keep);
    FilterMembers(keywords, keep);
    FilterOfFilter(keywords, keep, Found(resumeText));
    assert Matched(resumeText, kept) == Matched(resumeText, keywords);
    FilterMembers(kept, Found(resumeText));
    FewerKeywords(|Matched(resumeText, keywords)|, |keywords|, |kept|);
  }

  /**
   * Scoring against a list from which only keywords the résumé lacks were dropped never
   * gives a lower final score, as long as some keyword is left; the other three sub-scores
   * do not depend on the list.
   */
  lemma DroppingMissingKeywords(resumeText: string, keywords: seq<string>, keep: string -> bool,
                                semantic: Semantic, skills: SkillsCoverage, heuristics: Heuristics)
    requires forall k :: k in keywords && !keep(k) ==> !HasKeyword(resumeText, k)
    requires Filter(keywords, keep) != []
    ensures FinalScore(Combine(resumeText, keywords, semantic, skills, heuristics)).Some?
    ensures FinalScore(Combine(resumeText, Filter(keywords, keep), semantic, skills, heuristics)).Some?
    ensures FinalScore(Combine(resumeText, keywords, semantic, skills, heuristics)).value <=
            FinalScore(Combine(resumeText, Filter(keywords, keep), semantic, skills, heuristics)).value
  {
    var b := Combine(resumeText, keywords, semantic, skills, heuristics);
    var b' := Combine(resumeText, Filter(keywords, keep), semantic, skills, heuristics);
    KeywordMatchKept(resumeText, keywords, keep);
    DistributionKept(resumeText, keywords, keep);
    WeightedScoreMonotone(b.keywordMatch.score.value, b'.keywordMatch.score.value, semantic.score,
                          skills.score, b.distributionQuality.score, heuristics.score);
  }

  /**
   * Excluding one more keyword that the result against `extracted` less `excluded` lists as
   * missing never lowers the final score, as long as some keyword is left.
   */
  lemma ExcludingMissingKeywordFrom(resumeText: string, extracted: seq<string>, excluded: seq<string>, k: string,
                                    semantic: Semantic, skills: SkillsCoverage, heuristics: Heuristics)
    requires k in Missing(resumeText, ApplyExclusions(extracted, excluded))
    requires ApplyExclusions(extracted, excluded + [k]) != []
    ensures FinalScore(Combine(resumeText, ApplyExclusions(extracted, excluded), semantic, skills, heuristics)).Some?
    ensures FinalScore(Combine(resumeText, ApplyExclusions(extracted, excluded + [k]), semantic, skills, heuristics)).Some?
    ensures FinalScore(Combine(resumeText, ApplyExclusions(extracted, excluded), semantic, skills, heuristics)).value <=
            FinalScore(Combine(resumeText, ApplyExclusions(extracted, excluded + [k]), semantic, skills, heuristics)).value
  {
    var keywords := ApplyExclusions(extracted, excluded);
    var keep := Kept({LowerStr(k)});
    ExcludeOneMore(extracted, excluded, k);
    MatchesPartition(resumeText, keywords);
    forall x | x in keywords && !keep(x)
      ensures !HasKeyword(resumeText, x)
    {
      assert LowerStr(x) == LowerStr(k);
    }
    DroppingMissingKeywords(resumeText, keywords, keep, semantic, skills, heuristics);
  }

  /**
   * Excluding a keyword the current result lists as missing never lowers the final score,
   * as long as some keyword is left.
   */
  lemma ExcludingMissingKeyword(resumeText: string, jobDescription: string, excluded: seq<string>, k: string, tfidf: real)
    requires k in Missing(resumeText, JobKeywords(jobDescription, excluded))
    requires JobKeywords(jobDescription, excluded + [k]) != []
    ensures Score(resumeText, jobDescription, excluded, tfidf).Some?
    ensures Score(resumeText, jobDescription, excluded + [k], tfidf).Some?
    ensures Score(resumeText, jobDescription, excluded, tfidf).value <= Score(resumeText, jobDescription, excluded + [k], tfidf).value
  {
    ExcludingMissingKeywordFrom(resumeText, ExtractKeywords(jobDescription, KEYWORD_COUNT), excluded, k,
                                SemanticOf(tfidf, resumeText, jobDescription),
                                SkillsCoverageFrom(resumeText, RequiredSkills(jobDescription)), HeuristicsOf(resumeText));
  }

  /**
   * Excluding any keywords the résumé lacks never lowers the final score against the
   * unfiltered top-40 list, as long as some keyword is left.
   */
  lemma ExcludingMissingKeywords(resumeText: string, jobDescription: string, excluded: seq<string>, tfidf: real)
    requires forall k :: k in ExtractKeywords(jobDescription, KEYWORD_COUNT) && LowerStr(k) in ExcludedSet(excluded) ==>
      !HasKeyword(resumeText, k)
    requires JobKeywords(jobDescription, excluded) != []
    ensures Score(resumeText, jobDescription, [], tfidf).Some?
    ensures Score(resumeText, jobDescription, excluded, tfidf).Some?
    ensures Score(resumeText, jobDescription, [], tfidf).value <= Score(resumeText, jobDescription, excluded, tfidf).value
  {
    if |excluded| > 0 {
      DroppingMissingKeywords(resumeText, ExtractKeywords(jobDescription, KEYWORD_COUNT), Kept(ExcludedSet(excluded)),
                              SemanticOf(tfidf, resumeText, jobDescription),
                              SkillsCoverageFrom(resumeText, RequiredSkills(jobDescription)), HeuristicsOf(resumeText));
    }
  }
}
