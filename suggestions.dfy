/** The rule-based suggestion engine and per-section quality labels (lib/analysis/suggestions.ts). */
module Suggestions {
  import opened Wrappers
  import opened Chars
  import opened Strings
  import opened Seqs
  import opened TextUtils
  import opened SectionSegmenter
  import opened Keywords

  datatype SuggestionType = KeywordTip | StructureTip | QuantificationTip | FormattingTip | SkillsTip

  datatype Priority = High | Medium | Low

  /**
   * The text of a recommendation or an example, kept symbolic: `Render` spells out the
   * wording, and `KeywordTemplate(keyword, i)` is the `i`-th example template for `keyword`.
   */
  datatype Message =
    | AddKeyword(keyword: string)
    | ConsiderKeyword(keyword: string)
    | AddSkill(skill: string)
    | UseActionVerbs
    | AddMetrics
    | StuffingWarning(sectionName: string)
    | ExpandSkills
    | AddSummary
    | KeywordTemplate(keyword: string, template: nat)
    | ActionVerbExample
    | MetricsExample
    | SummaryExample

  /** A `Suggestion`; `example` and `keywordsToAdd` are optional fields. */
  datatype Suggestion = Suggestion(
    kind: SuggestionType,
    section: string,
    priority: Priority,
    recommendation: Message,
    example: Option<Message>,
    keywordsToAdd: Option<seq<string>>)

  /** `sections[name] || ''`: absent names read as the empty string. */
  function Get(ss: Sections, name: string): string {
    if name in ss.values then ss.values[name] else ""
  }

  // ---------------------------------------------------------------- suggestSectionForKeyword

  const TECHNICAL_INDICATORS: seq<string> :=
    ["python", "java", "javascript", "react", "node", "sql", "aws", "docker", "kubernetes", "git", "api", "framework", "library"]

  const METHODOLOGY_INDICATORS: seq<string> := ["agile", "scrum", "ci/cd", "devops", "testing", "deployment"]

  /** `indicators.some(t => word.includes(t))`. */
  predicate Mentions(word: string, indicators: seq<string>)
    decreases |indicators|
  {
    indicators != [] && (Contains(word, indicators[0]) || Mentions(word, indicators[1..]))
  }

  /** Some indicator is a substring of the word exactly when `Mentions` holds. */
  lemma {:induction false} MentionsIff(word: string, indicators: seq<string>)
    ensures Mentions(word, indicators) <==> exists t :: t in indicators && Contains(word, t)
    decreases |indicators|
  {
    if indicators != [] {
      MentionsIff(word, indicators[1..]);
      assert forall t :: t in indicators <==> t == indicators[0] || t in indicators[1..];
    }
  }

  /** `suggestSectionForKeyword`: Experience only for a methodology that is not a technology. */
  function SectionFor(keyword: string): (r: string)
    ensures r == "Skills" || r == "Experience"
  {
    var lowerKeyword := LowerStr(keyword);
    if Mentions(lowerKeyword, TECHNICAL_INDICATORS) then "Skills"
    else if Mentions(lowerKeyword, METHODOLOGY_INDICATORS) then "Experience"
    else "Skills"
  }

  /** A keyword goes to Experience exactly when it names a methodology and no technology. */
  lemma SectionForExperience(keyword: string)
    ensures SectionFor(keyword) == "Experience" <==>
      !Mentions(LowerStr(keyword), TECHNICAL_INDICATORS) && Mentions(LowerStr(keyword), METHODOLOGY_INDICATORS)
    ensures SectionFor(keyword) != "Experience" ==> SectionFor(keyword) == "Skills"
  {
  }

  // ---------------------------------------------------------------- generateKeywordExample

  /** The example templates of `generateKeywordExample`, numbered 0 to 3. */
  function TemplateText(keyword: string, template: nat): string {
    if template % 4 == 0 then "\"Utilized " + keyword + " to enhance system performance and reliability\""
    else if template % 4 == 1 then "\"Implemented solutions using " + keyword + ", resulting in improved efficiency\""
    else if template % 4 == 2 then "\"Proficient in " + keyword + " with hands-on experience in production environments\""
    else "\"Leveraged " + keyword + " to deliver scalable and maintainable code\""
  }

  /** The wording of each message. */
  function Render(m: Message): string {
    match m
    case AddKeyword(keyword) => "Add \"" + keyword + "\" to your resume if you have experience with it"
    case ConsiderKeyword(keyword) => "Consider including \"" + keyword + "\" if relevant to your experience"
    case AddSkill(skill) => "Add \"" + skill + "\" to your Skills section if you possess this skill"
    case UseActionVerbs =>
      "Start bullets with strong action verbs like \"Architected\", \"Implemented\", \"Optimized\", \"Led\", or \"Delivered\""
    case AddMetrics => "Add specific metrics and numbers to demonstrate impact"
    case StuffingWarning(sectionName) =>
      "Keyword density seems high in " + sectionName +
      " section. Ensure keywords flow naturally to avoid appearing as \"keyword stuffing\""
    case ExpandSkills => "Add or expand your Skills section with relevant technical skills from the job description"
    case AddSummary => "Consider adding a Professional Summary section highlighting your key qualifications"
    case KeywordTemplate(keyword, template) => TemplateText(keyword, template)
    case ActionVerbExample =>
      "Instead of: \"Was responsible for building features\"\nTry: \"Architected and delivered 5 new features, improving user engagement by 25%\""
    case MetricsExample =>
      "Instead of: \"Improved system performance\"\nTry: \"Optimized database queries, reducing average response time by 40% and saving $50K annually\""
    case SummaryExample =>
      "Example: \"Senior Software Engineer with 5+ years of experience in full-stack development, specializing in React, Node.js, and cloud infrastructure. Proven track record of delivering scalable solutions that increase efficiency by 30%+\""
  }

  /** `generateKeywordExample`, with `Math.floor(Math.random() * 4)` given as `choice % 4`. */
  function KeywordExample(keyword: string, choice: nat): (r: Message)
    ensures r.KeywordTemplate? && r.keyword == keyword && r.template < 4
  {
    KeywordTemplate(keyword, choice % 4)
  }

  // ---------------------------------------------------------------- generateSuggestions

  const HIGH_KEYWORDS: nat := 10
  const MEDIUM_KEYWORDS: nat := 20
  const MISSING_SKILLS_SHOWN: nat := 5
  const MIN_ACTION_VERBS: nat := 3
  const DENSITY_WARNING: real := 0.15
  const MIN_SKILLS_SECTION: nat := 50

  function HighTip(keyword: string, choice: nat): Suggestion {
    Suggestion(KeywordTip, SectionFor(keyword), High,
      AddKeyword(keyword), Some(KeywordExample(keyword, choice)), None)
  }

  function MediumTip(keyword: string): Suggestion {
    Suggestion(KeywordTip, SectionFor(keyword), Medium,
      ConsiderKeyword(keyword), None, None)
  }

  function SkillTip(skill: string): Suggestion {
    Suggestion(SkillsTip, "Skills", High,
      AddSkill(skill), None, Some([skill]))
  }

  const ACTION_VERB_TIP := Suggestion(StructureTip, "Experience", High, UseActionVerbs, Some(ActionVerbExample), None)

  const METRICS_TIP := Suggestion(QuantificationTip, "Experience", High, AddMetrics, Some(MetricsExample), None)

  function DensityTip(sectionName: string): Suggestion {
    Suggestion(FormattingTip, sectionName, Medium, StuffingWarning(sectionName), None, None)
  }

  const SKILLS_SECTION_TIP := Suggestion(FormattingTip, "Skills", Medium, ExpandSkills, None, None)

  const SUMMARY_TIP := Suggestion(StructureTip, "Summary", Low, AddSummary, Some(SummaryExample), None)

  /** The high-priority suggestion for the `i`-th keyword draws template `pick(i)`. */
  function HighTipFor(pick: nat -> nat): (string, nat) -> Suggestion {
    (keyword: string, i: nat) => HighTip(keyword, pick(i))
  }

  /** One high-priority suggestion per keyword, in order. */
  function HighTips(keywords: seq<string>, pick: nat -> nat): seq<Suggestion> {
    MapWithIndex(keywords, HighTipFor(pick))
  }

  /** One medium-priority suggestion per keyword, in order. */
  function MediumTips(keywords: seq<string>): seq<Suggestion> {
    Map(keywords, MediumTip)
  }

  /** One Skills suggestion per skill, in order. */
  function SkillTips(skills: seq<string>): seq<Suggestion> {
    Map(skills, SkillTip)
  }

  /** The `i`-th high-priority suggestion is about the `i`-th keyword and uses draw `pick(i)`. */
  lemma HighTipsAt(keywords: seq<string>, pick: nat -> nat)
    ensures forall i :: 0 <= i < |keywords| ==> HighTips(keywords, pick)[i] == HighTip(keywords[i], pick(i))
  {
    MapWithIndexAt(keywords, HighTipFor(pick));
  }

  /** The `i`-th medium-priority suggestion is about the `i`-th keyword. */
  lemma MediumTipsAt(keywords: seq<string>)
    ensures forall i :: 0 <= i < |keywords| ==> MediumTips(keywords)[i] == MediumTip(keywords[i])
  {
    MapAt(keywords, MediumTip);
  }

  /** The `i`-th Skills suggestion is about the `i`-th skill. */
  lemma SkillTipsAt(skills: seq<string>)
    ensures forall i :: 0 <= i < |skills| ==> SkillTips(skills)[i] == SkillTip(skills[i])
  {
    MapAt(skills, SkillTip);
  }

  /** The structure suggestions for a non-empty experience section. */
  function ExperienceTips(experience: string): seq<Suggestion> {
    if experience == "" then []
    else
      (if |LeadingVerbs(ExtractSentences(experience))| < MIN_ACTION_VERBS then [ACTION_VERB_TIP] else []) +
      (if !HasQuantification(experience) then [METRICS_TIP] else [])
  }

  /** The keyword-stuffing warnings, for the sections named by `names`, in order. */
  function DensityTips(ss: Sections, names: seq<string>, missingKeywords: seq<string>): seq<Suggestion>
    decreases |names|
  {
    if names == [] then []
    else
      var name := names[|names| - 1];
      DensityTips(ss, names[..|names| - 1], missingKeywords) +
      (if Density(Get(ss, name), missingKeywords) > DENSITY_WARNING then [DensityTip(name)] else [])
  }

  /** The suggestions about missing Skills and Summary sections. */
  function PresenceTips(ss: Sections): seq<Suggestion> {
    (if Get(ss, "skills") == "" || |Get(ss, "skills")| < MIN_SKILLS_SECTION then [SKILLS_SECTION_TIP] else []) +
    (if Get(ss, "summary") == "" && Get(ss, "objective") == "" then [SUMMARY_TIP] else [])
  }

  /** The keyword and skill suggestions, which come first. */
  function LeadingTips(missingKeywords: seq<string>, missingSkills: seq<string>, pick: nat -> nat): seq<Suggestion> {
    HighTips(Slice(missingKeywords, 0, HIGH_KEYWORDS), pick) +
    MediumTips(Slice(missingKeywords, HIGH_KEYWORDS, MEDIUM_KEYWORDS)) +
    SkillTips(Slice(missingSkills, 0, MISSING_SKILLS_SHOWN))
  }

  /** The suggestions that depend on the detected sections, which come after. */
  function SectionTips(ss: Sections, missingKeywords: seq<string>): seq<Suggestion> {
    ExperienceTips(Get(ss, "experience")) + DensityTips(ss, ss.keys, missingKeywords) + PresenceTips(ss)
  }

  /** What `generateSuggestions` returns for the sections `ss` of the résumé. */
  function SuggestionsFrom(ss: Sections, missingKeywords: seq<string>, missingSkills: seq<string>, pick: nat -> nat): seq<Suggestion> {
    LeadingTips(missingKeywords, missingSkills, pick) + SectionTips(ss, missingKeywords)
  }

  /** What `generateSuggestions` returns. */
  function SuggestionsFor(resumeText: string, missingKeywords: seq<string>, missingSkills: seq<string>, pick: nat -> nat): seq<Suggestion> {
    SuggestionsFrom(Segment(resumeText), missingKeywords, missingSkills, pick)
  }

  /** The loop over the first ten missing keywords. */
  method HighSuggestions(high: seq<string>, pick: nat -> nat) returns (suggestions: seq<Suggestion>)
    ensures suggestions == HighTips(high, pick)
  {
    suggestions := [];
    for i := 0 to |high|
      invariant suggestions == HighTips(high[..i], pick)
    {
      MapWithIndexStep(high, i, HighTipFor(pick));
      suggestions := suggestions + [HighTip(high[i], pick(i))];
    }
    PrefixAll(high);
  }

  /** The loop over the next ten missing keywords. */
  method MediumSuggestions(medium: seq<string>) returns (suggestions: seq<Suggestion>)
    ensures suggestions == MediumTips(medium)
  {
    suggestions := [];
    for i := 0 to |medium|
      invariant suggestions == MediumTips(medium[..i])
    {
      MapStep(medium, i, MediumTip);
      suggestions := suggestions + [MediumTip(medium[i])];
    }
    PrefixAll(medium);
  }

  /** The loop over the first five missing skills. */
  method SkillSuggestions(shown: seq<string>) returns (suggestions: seq<Suggestion>)
    ensures suggestions == SkillTips(shown)
  {
    suggestions := [];
    for i := 0 to |shown|
      invariant suggestions == SkillTips(shown[..i])
    {
      MapStep(shown, i, SkillTip);
      suggestions := suggestions + [SkillTip(shown[i])];
    }
    PrefixAll(shown);
  }

  /** The keyword and skill part of `generateSuggestions`. */
  method LeadingSuggestions(missingKeywords: seq<string>, missingSkills: seq<string>, pick: nat -> nat)
    returns (suggestions: seq<Suggestion>)
    ensures suggestions == LeadingTips(missingKeywords, missingSkills, pick)
  {
    var high := Slice(missingKeywords, 0, HIGH_KEYWORDS);
    var medium := Slice(missingKeywords, HIGH_KEYWORDS, MEDIUM_KEYWORDS);
    var shown := Slice(missingSkills, 0, MISSING_SKILLS_SHOWN);
    var highTips, mediumTips, skillTips := [], [], [];
    if |missingKeywords| > 0 {
      highTips := HighSuggestions(high, pick);
      mediumTips := MediumSuggestions(medium);
    } else {
      assert high == [] && medium == [];
    }
    if |missingSkills| > 0 {
      skillTips := SkillSuggestions(shown);
    } else {
      assert shown == [];
    }
    suggestions := highTips + mediumTips + skillTips;
  }

  /** The structure suggestions for the experience section. */
  method ExperienceSuggestions(experienceSection: string) returns (suggestions: seq<Suggestion>)
    ensures suggestions == ExperienceTips(experienceSection)
  {
    suggestions := [];
    if experienceSection != "" {
      var actionVerbs := ExtractActionVerbs(experienceSection);
      var hasQuant := HasQuantification(experienceSection);
      if |actionVerbs| < MIN_ACTION_VERBS {
        suggestions := suggestions + [ACTION_VERB_TIP];
      }
      if !hasQuant {
        suggestions := suggestions + [METRICS_TIP];
      }
    }
  }

  /** Extending the names by one adds that section's warning, if any. */
  lemma DensityTipsStep(ss: Sections, names: seq<string>, n: nat, missingKeywords: seq<string>)
    requires n < |names|
    ensures DensityTips(ss, names[..n + 1], missingKeywords) == DensityTips(ss, names[..n], missingKeywords) +
      (if Density(Get(ss, names[n]), missingKeywords) > DENSITY_WARNING then [DensityTip(names[n])] else [])
  {
    assert names[..n + 1][..n] == names[..n];
  }

  /** The density loop over the sections, in order. */
  method DensitySuggestions(sections: Sections, missingKeywords: seq<string>) returns (suggestions: seq<Suggestion>)
    ensures suggestions == DensityTips(sections, sections.keys, missingKeywords)
  {
    suggestions := [];
    for n := 0 to |sections.keys|
      invariant suggestions == DensityTips(sections, sections.keys[..n], missingKeywords)
    {
      var sectionName := sections.keys[n];
      var density := CalculateKeywordDensity(Get(sections, sectionName), missingKeywords);
      DensityTipsStep(sections, sections.keys, n, missingKeywords);
      if density > DENSITY_WARNING {
        suggestions := suggestions + [DensityTip(sectionName)];
      }
    }
    PrefixAll(sections.keys);
  }

  /** The suggestions about the Skills and Summary sections. */
  method PresenceSuggestions(sections: Sections) returns (suggestions: seq<Suggestion>)
    ensures suggestions == PresenceTips(sections)
  {
    suggestions := [];
    if Get(sections, "skills") == "" || |Get(sections, "skills")| < MIN_SKILLS_SECTION {
      suggestions := suggestions + [SKILLS_SECTION_TIP];
    }
    if Get(sections, "summary") == "" && Get(sections, "objective") == "" {
      suggestions := suggestions + [SUMMARY_TIP];
    }
  }

  /** The part of `generateSuggestions` that looks at the detected sections. */
  method SectionSuggestions(sections: Sections, missingKeywords: seq<string>) returns (suggestions: seq<Suggestion>)
    ensures suggestions == SectionTips(sections, missingKeywords)
  {
    var experienceTips := ExperienceSuggestions(Get(sections, "experience"));
    var densityTips := DensitySuggestions(sections, missingKeywords);
    var presenceTips := PresenceSuggestions(sections);
    suggestions := experienceTips + densityTips + presenceTips;
  }

  /** `generateSuggestions` once the sections are detected. */
  method SuggestForSections(sections: Sections, missingKeywords: seq<string>, missingSkills: seq<string>, pick: nat -> nat)
    returns (suggestions: seq<Suggestion>)
    ensures suggestions == SuggestionsFrom(sections, missingKeywords, missingSkills, pick)
  {
    var leading := LeadingSuggestions(missingKeywords, missingSkills, pick);
    var rest := SectionSuggestions(sections, missingKeywords);
    suggestions := leading + rest;
  }

  /**
   * `generateSuggestions`. The job description and the current score are not used by it;
   * `pick(i)` stands for the `i`-th `Math.random` draw.
   */
  method GenerateSuggestions(resumeText: string, jobDescription: string, missingKeywords: seq<string>,
                             missingSkills: seq<string>, currentScore: Option<int>, pick: nat -> nat)
    returns (suggestions: seq<Suggestion>)
    ensures suggestions == SuggestionsFor(resumeText, missingKeywords, missingSkills, pick)
  {
    var sections := DetectSections(resumeText);
    suggestions := SuggestForSections(sections, missingKeywords, missingSkills, pick);
  }

  /** The number of high, medium and skill suggestions: ten, ten and five at most. */
  function HighCount(missingKeywords: seq<string>): nat {
    if |missingKeywords| < HIGH_KEYWORDS then |missingKeywords| else HIGH_KEYWORDS
  }

  function MediumCount(missingKeywords: seq<string>): nat {
    if |missingKeywords| < MEDIUM_KEYWORDS then |missingKeywords| - HighCount(missingKeywords)
    else MEDIUM_KEYWORDS - HIGH_KEYWORDS
  }

  function SkillCount(missingSkills: seq<string>): nat {
    if |missingSkills| < MISSING_SKILLS_SHOWN then |missingSkills| else MISSING_SKILLS_SHOWN
  }

  /** Each high-priority keyword suggestion, field by field. */
  lemma HighTipsProps(keywords: seq<string>, pick: nat -> nat)
    ensures var r := HighTips(keywords, pick);
      |r| == |keywords| &&
      forall i :: 0 <= i < |r| ==>
        r[i].kind == KeywordTip && r[i].priority == High && r[i].section == SectionFor(keywords[i]) &&
        r[i].recommendation == AddKeyword(keywords[i]) &&
        r[i].example == Some(KeywordTemplate(keywords[i], pick(i) % 4)) && r[i].keywordsToAdd.None?
  {
    HighTipsAt(keywords, pick);
  }

  /** Each medium-priority keyword suggestion, field by field. */
  lemma MediumTipsProps(keywords: seq<string>)
    ensures var r := MediumTips(keywords);
      |r| == |keywords| &&
      forall i :: 0 <= i < |r| ==>
        r[i].kind == KeywordTip && r[i].priority == Medium && r[i].section == SectionFor(keywords[i]) &&
        r[i].recommendation == ConsiderKeyword(keywords[i]) && r[i].example.None? && r[i].keywordsToAdd.None?
  {
    MediumTipsAt(keywords);
  }

  /**
   * The first ten missing keywords give high-priority keyword suggestions with an example
   * template, the next ten give medium-priority ones without, in order; then come one Skills
   * suggestion for each of the first five missing skills.
   */
  lemma LeadingTipsProps(missingKeywords: seq<string>, missingSkills: seq<string>, pick: nat -> nat)
    ensures var r := LeadingTips(missingKeywords, missingSkills, pick);
      var h, m := HighCount(missingKeywords), MediumCount(missingKeywords);
      |r| == h + m + SkillCount(missingSkills) &&
      r[..h] == HighTips(missingKeywords[..h], pick) &&
      r[h..h + m] == MediumTips(missingKeywords[h..h + m]) &&
      (forall i :: 0 <= i < SkillCount(missingSkills) ==> r[h + m + i] == SkillTip(missingSkills[i]))
  {
    var hi := Slice(missingKeywords, 0, HIGH_KEYWORDS);
    var md := Slice(missingKeywords, HIGH_KEYWORDS, MEDIUM_KEYWORDS);
    var sk := Slice(missingSkills, 0, MISSING_SKILLS_SHOWN);
    assert hi == missingKeywords[..HighCount(missingKeywords)];
    assert md == missingKeywords[HighCount(missingKeywords)..HighCount(missingKeywords) + MediumCount(missingKeywords)];
    SkillTipsAt(sk);
    ConcatParts(HighTips(hi, pick), MediumTips(md), SkillTips(sk));
  }

  /** The keyword and skill suggestions come first, before any that look at the sections. */
  lemma SuggestionsLeadingPart(ss: Sections, missingKeywords: seq<string>, missingSkills: seq<string>, pick: nat -> nat)
    ensures var lead := LeadingTips(missingKeywords, missingSkills, pick);
      SuggestionsFrom(ss, missingKeywords, missingSkills, pick)[..|lead|] == lead
  {
  }

  /** The Experience suggestions: action verbs iff fewer than three, metrics iff none found. */
  lemma ExperienceTipsIff(experience: string)
    ensures ACTION_VERB_TIP in ExperienceTips(experience) <==>
      experience != "" && |LeadingVerbs(ExtractSentences(experience))| < MIN_ACTION_VERBS
    ensures METRICS_TIP in ExperienceTips(experience) <==> experience != "" && !HasQuantification(experience)
    ensures |ExperienceTips(experience)| <= 2
  {
  }

  /** A Skills/medium suggestion iff the skills section is short; a Summary one iff it is absent. */
  lemma PresenceTipsIff(ss: Sections)
    ensures SKILLS_SECTION_TIP in PresenceTips(ss) <==> |Get(ss, "skills")| < MIN_SKILLS_SECTION
    ensures SUMMARY_TIP in PresenceTips(ss) <==> Get(ss, "summary") == "" && Get(ss, "objective") == ""
  {
  }

  /** A keyword the résumé lacks is missing from every one of its sections too. */
  lemma SectionLacksMissing(resumeText: string, name: string, k: string)
    requires !HasKeyword(resumeText, k)
    ensures !HasKeyword(Get(Segment(resumeText), name), k)
  {
    var ss := Segment(resumeText);
    var text := Get(ss, name);
    if name in ss.values {
      SegmentValuesInText(resumeText, name);
    } else {
      assert OccursAt(resumeText, text, 0);
    }
    if HasKeyword(text, k) {
      ContainsLower(resumeText, text);
      ContainsTransitive(LowerStr(resumeText), LowerStr(text), LowerStr(k));
    }
  }

  /** No section of a résumé contains a keyword the résumé lacks, so no density warning fires. */
  lemma {:induction false} NoDensityTips(resumeText: string, names: seq<string>, missingKeywords: seq<string>)
    requires forall k :: k in missingKeywords ==> !HasKeyword(resumeText, k)
    ensures DensityTips(Segment(resumeText), names, missingKeywords) == []
    decreases |names|
  {
    if names != [] {
      NoDensityTips(resumeText, names[..|names| - 1], missingKeywords);
      var ss := Segment(resumeText);
      var name := names[|names| - 1];
      var text := Get(ss, name);
      forall i | 0 <= i < |missingKeywords|
        ensures !HasKeyword(text, missingKeywords[i])
      {
        assert missingKeywords[i] in missingKeywords;
        SectionLacksMissing(resumeText, name, missingKeywords[i]);
      }
      DensityZero(text, missingKeywords);
    }
  }

  /**
   * When the missing keywords are those `countKeywordMatches` reports for the same résumé,
   * as in `calculateATSScore`, the keyword-density warnings never fire.
   */
  lemma NoStuffingWarnings(resumeText: string, keywords: seq<string>)
    ensures DensityTips(Segment(resumeText), Segment(resumeText).keys, Missing(resumeText, keywords)) == []
  {
    MatchesPartition(resumeText, keywords);
    NoDensityTips(resumeText, Segment(resumeText).keys, Missing(resumeText, keywords));
  }

  // ---------------------------------------------------------------- analyzeSections

  datatype Quality = Good | Average | Poor | Unknown

  /** One entry of `SectionAnalysis`. */
  datatype SectionReport = SectionReport(
    wordCount: nat,
    keywordCount: nat,
    keywordDensity: real,
    hasActionVerbs: bool,
    hasQuantification: bool,
    quality: Quality,
    suggestedKeywords: seq<string>)

  /** `SectionAnalysis`: an object keyed by section name, keys in insertion order. */
  datatype Analysis = Analysis(keys: seq<string>, reports: map<string, SectionReport>)

  const MIN_WORDS_FOR_QUALITY: nat := 20
  const GOOD_KEYWORDS: nat := 5
  const AVERAGE_KEYWORDS: nat := 2
  const SUGGESTED_SHOWN: nat := 5

  /** `text.split(/\s+/).filter(w => w.length > 0)`. */
  function Words(text: string): seq<string> {
    Filter(SplitRuns(text, IsSpace), NonEmpty)
  }

  function InSection(text: string): string -> bool {
    k => Contains(LowerStr(text), LowerStr(k))
  }

  function NotInSection(text: string): string -> bool {
    k => !Contains(LowerStr(text), LowerStr(k))
  }

  /** The quality label for a word count and a keyword count. */
  function QualityOf(words: nat, found: nat): Quality {
    if words > MIN_WORDS_FOR_QUALITY then
      if found >= GOOD_KEYWORDS then Good else if found >= AVERAGE_KEYWORDS then Average else Poor
    else Unknown
  }

  /** The report built from a section's word count, found-keyword count, features and misses. */
  function Assemble(words: nat, found: nat, hasVerbs: bool, hasQuant: bool, missing: seq<string>): SectionReport {
    SectionReport(
      words, found,
      if words > 0 then found as real / words as real else 0.0,
      hasVerbs, hasQuant,
      QualityOf(words, found),
      Take(missing, SUGGESTED_SHOWN))
  }

  /** The report `analyzeSections` builds for one section's text. */
  function ReportOf(text: string, keywords: seq<string>): SectionReport {
    Assemble(
      |Words(text)|,
      |Filter(keywords, InSection(text))|,
      |LeadingVerbs(ExtractSentences(text))| > 0,
      HasQuantification(text),
      Filter(keywords, NotInSection(text)))
  }

  /** `text => ReportOf(text, keywords)`. */
  function ReportWith(keywords: seq<string>): string -> SectionReport {
    text => ReportOf(text, keywords)
  }

  /** The reports, by `report`, of the sections named by `names`. */
  function ReportsOf(ss: Sections, names: seq<string>, report: string -> SectionReport): map<string, SectionReport>
    decreases |names|
  {
    if names == [] then map[]
    else
      var name := names[|names| - 1];
      ReportsOf(ss, names[..|names| - 1], report)[name := report(Get(ss, name))]
  }

  /** The analysis of the sections `ss`, each reported by `report`. */
  function AnalysisFrom(ss: Sections, report: string -> SectionReport): Analysis {
    Analysis(ss.keys, ReportsOf(ss, ss.keys, report))
  }

  /** What `analyzeSections` returns. */
  function AnalysisOf(resumeText: string, keywords: seq<string>): Analysis {
    AnalysisFrom(Segment(resumeText), ReportWith(keywords))
  }

  /** One turn of the inner loop of `analyzeSections`: the `j`-th keyword is looked up. */
  method ScanKeyword(text: string, lowerText: string, keywords: seq<string>, j: nat,
                     keywordCount: nat, foundKeywords: set<string>)
    returns (keywordCount': nat, foundKeywords': set<string>)
    requires lowerText == LowerStr(text) && j < |keywords|
    requires keywordCount == |Filter(keywords[..j], InSection(text))|
    requires forall k :: k in foundKeywords <==> k in keywords[..j] && Contains(lowerText, LowerStr(k))
    ensures keywordCount' == |Filter(keywords[..j + 1], InSection(text))|
    ensures forall k :: k in foundKeywords' <==> k in keywords[..j + 1] && Contains(lowerText, LowerStr(k))
  {
    FilterStep(keywords, j, InSection(text));
    assert keywords[..j + 1] == keywords[..j] + [keywords[j]];
    keywordCount', foundKeywords' := keywordCount, foundKeywords;
    if Contains(lowerText, LowerStr(keywords[j])) {
      keywordCount' := keywordCount + 1;
      foundKeywords' := foundKeywords + {keywords[j]};
    }
  }

  /** The inner loop of `analyzeSections`: keywords found in one section, counted and collected. */
  method ScanSection(text: string, keywords: seq<string>) returns (keywordCount: nat, foundKeywords: set<string>)
    ensures keywordCount == |Filter(keywords, InSection(text))|
    ensures forall k :: k in keywords ==> (k in foundKeywords <==> Contains(LowerStr(text), LowerStr(k)))
  {
    keywordCount := 0;
    foundKeywords := {};
    var lowerText := LowerStr(text);
    for j := 0 to |keywords|
      invariant keywordCount == |Filter(keywords[..j], InSection(text))|
      invariant forall k :: k in foundKeywords <==> k in keywords[..j] && Contains(lowerText, LowerStr(k))
    {
      keywordCount, foundKeywords := ScanKeyword(text, lowerText, keywords, j, keywordCount, foundKeywords);
    }
    PrefixAll(keywords);
  }

  /** The quality label, as the `if` chain of `analyzeSections` sets it. */
  method LabelSection(words: nat, keywordCount: nat) returns (quality: Quality)
    ensures quality == QualityOf(words, keywordCount)
  {
    quality := Unknown;
    if words > MIN_WORDS_FOR_QUALITY {
      if keywordCount >= GOOD_KEYWORDS {
        quality := Good;
      } else if keywordCount >= AVERAGE_KEYWORDS {
        quality := Average;
      } else {
        quality := Poor;
      }
    }
  }

  /** The word count, action-verb and quantification facts of one section's text. */
  method SectionFeatures(text: string) returns (wordCount: nat, hasVerbs: bool, hasQuant: bool)
    ensures wordCount == |Words(text)|
    ensures hasVerbs <==> |LeadingVerbs(ExtractSentences(text))| > 0
    ensures hasQuant == HasQuantification(text)
  {
    var words := Words(text);
    var actionVerbs := ExtractActionVerbs(text);
    wordCount, hasVerbs := |words|, |actionVerbs| > 0;
    hasQuant := HasQuantification(text);
  }

  /** `keywords.filter(k => !foundKeywords.has(k))`: the keywords the section lacks, in order. */
  method KeywordsNotFound(text: string, keywords: seq<string>, foundKeywords: set<string>) returns (missing: seq<string>)
    requires forall k :: k in keywords ==> (k in foundKeywords <==> Contains(LowerStr(text), LowerStr(k)))
    ensures missing == Filter(keywords, NotInSection(text))
  {
    missing := Filter(keywords, k => k !in foundKeywords);
    FilterCongruent(keywords, k => k !in foundKeywords, NotInSection(text));
  }

  /** The report for one section, as the loop body of `analyzeSections` builds it. */
  method AnalyzeSection(text: string, keywords: seq<string>) returns (report: SectionReport)
    ensures report == ReportWith(keywords)(text)
  {
    var wordCount, hasVerbs, hasQuant := SectionFeatures(text);
    var keywordCount, foundKeywords := ScanSection(text, keywords);
    var quality := LabelSection(wordCount, keywordCount);
    var missingKeywords := KeywordsNotFound(text, keywords, foundKeywords);
    var suggestedKeywords := Take(missingKeywords, SUGGESTED_SHOWN);
    report := SectionReport(
      wordCount, keywordCount,
      if wordCount > 0 then keywordCount as real / wordCount as real else 0.0,
      hasVerbs, hasQuant, quality, suggestedKeywords);
  }

  /** One turn of the loop of `analyzeSections`: the report of the `n`-th section is added. */
  method AddReport(sections: Sections, keywords: seq<string>, n: nat, reports: map<string, SectionReport>)
    returns (reports': map<string, SectionReport>)
    requires n < |sections.keys|
    requires reports == ReportsOf(sections, sections.keys[..n], ReportWith(keywords))
    ensures reports' == ReportsOf(sections, sections.keys[..n + 1], ReportWith(keywords))
  {
    var name := sections.keys[n];
    var report := AnalyzeSection(Get(sections, name), keywords);
    ReportsStep(sections, sections.keys, n, ReportWith(keywords));
    reports' := reports[name := report];
  }

  /** The loop of `analyzeSections` over the detected sections, in order. */
  method ReportSections(sections: Sections, keywords: seq<string>) returns (reports: map<string, SectionReport>)
    ensures reports == ReportsOf(sections, sections.keys, ReportWith(keywords))
  {
    reports := map[];
    for n := 0 to |sections.keys|
      invariant reports == ReportsOf(sections, sections.keys[..n], ReportWith(keywords))
    {
      reports := AddReport(sections, keywords, n, reports);
    }
    PrefixAll(sections.keys);
  }

  /** `analyzeSections`: one report per detected section. */
  method AnalyzeSections(resumeText: string, keywords: seq<string>) returns (analysis: Analysis)
    ensures analysis == AnalysisOf(resumeText, keywords)
  {
    var sections := DetectSections(resumeText);
    var reports := ReportSections(sections, keywords);
    analysis := Analysis(sections.keys, reports);
    assert analysis == AnalysisFrom(sections, ReportWith(keywords));
  }

  /** Extending the names by one adds that section's report. */
  lemma ReportsStep(ss: Sections, names: seq<string>, n: nat, report: string -> SectionReport)
    requires n < |names|
    ensures ReportsOf(ss, names[..n + 1], report) == ReportsOf(ss, names[..n], report)[names[n] := report(Get(ss, names[n]))]
  {
    assert names[..n + 1][..n] == names[..n];
  }

  /** The reports are keyed by exactly the listed names. */
  lemma {:induction false} ReportsKeys(ss: Sections, names: seq<string>, report: string -> SectionReport)
    ensures ReportsOf(ss, names, report).Keys == set n | n in names
    ensures forall n :: n in names ==> ReportsOf(ss, names, report)[n] == report(Get(ss, n))
    decreases |names|
  {
    if names != [] {
      var init := names[..|names| - 1];
      ReportsKeys(ss, init, report);
      assert names == init + [names[|names| - 1]];
    }
  }

  /** For well-formed sections, the analysis has their keys, in order, and each one's report. */
  lemma AnalysisFromKeys(ss: Sections, report: string -> SectionReport)
    requires WellFormed(ss)
    ensures AnalysisFrom(ss, report).keys == ss.keys
    ensures AnalysisFrom(ss, report).reports.Keys == ss.values.Keys
    ensures forall n :: n in ss.values ==> AnalysisFrom(ss, report).reports[n] == report(ss.values[n])
  {
    ReportsKeys(ss, ss.keys, report);
  }

  /**
   * The analysis has exactly the keys of `detectSections`, in its order, and the report for
   * each section is that section's report.
   */
  lemma AnalysisKeys(resumeText: string, keywords: seq<string>)
    ensures AnalysisOf(resumeText, keywords).keys == Segment(resumeText).keys
    ensures AnalysisOf(resumeText, keywords).reports.Keys == Segment(resumeText).values.Keys
    ensures forall n :: n in Segment(resumeText).values ==>
      AnalysisOf(resumeText, keywords).reports[n] == ReportWith(keywords)(Segment(resumeText).values[n])
  {
    SegmentCharacterised(resumeText);
    AnalysisFromKeys(Segment(resumeText), ReportWith(keywords));
  }

  /**
   * An assembled report keeps the counts; its density is keywords per word, or 0 without words;
   * its label follows the bands; and it suggests a prefix of at most five of the misses.
   */
  lemma AssembleProps(words: nat, found: nat, hasVerbs: bool, hasQuant: bool, missing: seq<string>)
    ensures var r := Assemble(words, found, hasVerbs, hasQuant, missing);
      r.wordCount == words && r.keywordCount == found &&
      r.hasActionVerbs == hasVerbs && r.hasQuantification == hasQuant &&
      (words > 0 ==> r.keywordDensity == found as real / words as real) &&
      (words == 0 ==> r.keywordDensity == 0.0) &&
      (r.quality == Unknown <==> words <= MIN_WORDS_FOR_QUALITY) &&
      (r.quality == Good <==> words > MIN_WORDS_FOR_QUALITY && found >= GOOD_KEYWORDS) &&
      (r.quality == Average <==> words > MIN_WORDS_FOR_QUALITY && AVERAGE_KEYWORDS <= found < GOOD_KEYWORDS) &&
      (r.quality == Poor <==> words > MIN_WORDS_FOR_QUALITY && found < AVERAGE_KEYWORDS) &&
      |r.suggestedKeywords| <= SUGGESTED_SHOWN &&
      |r.suggestedKeywords| == (if |missing| < SUGGESTED_SHOWN then |missing| else SUGGESTED_SHOWN) &&
      r.suggestedKeywords == missing[..|r.suggestedKeywords|]
  {
  }

  /**
   * The keywords split into those the lower-cased section contains and those it does not,
   * and the second kind are keywords the section lacks.
   */
  lemma KeywordsSplit(text: string, keywords: seq<string>)
    ensures |Filter(keywords, InSection(text))| + |Filter(keywords, NotInSection(text))| == |keywords|
    ensures forall k :: k in Filter(keywords, NotInSection(text)) ==> k in keywords && !Contains(LowerStr(text), LowerStr(k))
  {
    FilterPartition(keywords, InSection(text), NotInSection(text));
    FilterMembers(keywords, NotInSection(text));
  }

  /**
   * A section report counts the words and the keywords found in the section, never more
   * than there are, and suggests the first five keywords not found, in input order, each of
   * them a keyword whose lower-case form the lower-cased section does not contain.
   */
  lemma ReportProps(text: string, keywords: seq<string>)
    ensures var r := ReportWith(keywords)(text);
      r.wordCount == |Words(text)| &&
      r.keywordCount <= |keywords| &&
      r.keywordCount + |Filter(keywords, NotInSection(text))| == |keywords| &&
      r.suggestedKeywords == Filter(keywords, NotInSection(text))[..|r.suggestedKeywords|] &&
      (forall k :: k in r.suggestedKeywords ==> k in keywords && !Contains(LowerStr(text), LowerStr(k)))
  {
    var missing := Filter(keywords, NotInSection(text));
    KeywordsSplit(text, keywords);
    TakeMembers(missing, SUGGESTED_SHOWN);
    assert ReportWith(keywords)(text).suggestedKeywords == Take(missing, SUGGESTED_SHOWN);
  }
}
