/** Required-skill detection and coverage (lib/analysis/skills.ts). */
module Skills {
  import opened Wrappers
  import opened Chars
  import opened Strings
  import opened Seqs
  import opened TextUtils
  import SectionSegmenter

  // ---------------------------------------------------------------- extractSkillCandidates

  /** The split class `[•\-\*\n;]`. */
  predicate IsItemSeparator(c: char) {
    c == '•' || c == '-' || c == '*' || c == '\n' || c == ';'
  }

  /** The capture class `[A-Za-z0-9\s\.\+\#\-]`. */
  predicate IsSkillChar(c: char) {
    IsUpper(c) || IsLowerLetter(c) || IsDigit(c) || IsSpace(c) || c == '.' || c == '+' || c == '#' || c == '-'
  }

  /** The first `k` characters of `t` are all in the capture class. */
  predicate SkillPrefix(t: string, k: nat)
    requires k <= |t|
  {
    forall i :: 0 <= i < k ==> IsSkillChar(t[i])
  }

  /** `(?:\s*[\(,]|$)` after the first `k` characters: end of item, or `(` or `,` after white space. */
  predicate Terminated(t: string, k: nat)
    requires k <= |t|
  {
    k == |t| ||
    var m := k + PrefixRun(t[k..], IsSpace);
    m < |t| && (t[m] == '(' || t[m] == ',')
  }

  const MIN_SKILL_MATCH: nat := 2
  const MAX_SKILL_MATCH: nat := 50

  /** A capture of `k` characters lets the whole pattern match. */
  predicate Captures(t: string, k: nat) {
    MIN_SKILL_MATCH <= k <= MAX_SKILL_MATCH && k <= |t| && SkillPrefix(t, k) && Terminated(t, k)
  }

  /** The lazy `{2,50}?`: the shortest capture length from `k` on that lets the pattern match. */
  function LazyCapture(t: string, k: nat): (r: Option<nat>)
    requires k >= MIN_SKILL_MATCH
    ensures r.Some? ==> k <= r.value && Captures(t, r.value)
    ensures r.Some? ==> forall j :: k <= j < r.value ==> !Captures(t, j)
    ensures r.None? ==> forall j :: k <= j ==> !Captures(t, j)
    decreases MAX_SKILL_MATCH + 1 - k
  {
    if k > MAX_SKILL_MATCH || k > |t| then None
    else if SkillPrefix(t, k) && Terminated(t, k) then Some(k)
    else LazyCapture(t, k + 1)
  }

  /** The filler words `^(the|and|or|with|for|experience|years?|minimum|required)$` rejects. */
  const EXCLUDED: set<string> :=
    {"the", "and", "or", "with", "for", "experience", "year", "years", "minimum", "required"}

  const MIN_ITEM_LENGTH: nat := 3
  const MAX_ITEM_LENGTH: nat := 100

  /** The skill one item yields, if any. */
  function ItemSkill(item: string): Option<string> {
    var trimmed := Trim(item);
    if |trimmed| < MIN_ITEM_LENGTH || |trimmed| > MAX_ITEM_LENGTH then None
    else
      match LazyCapture(trimmed, MIN_SKILL_MATCH)
      case None => None
      case Some(k) =>
        var skill := LowerStr(Trim(trimmed[..k]));
        if skill in EXCLUDED then None else Some(skill)
  }

  /** The skills of a list of items, in order. */
  function Candidates(items: seq<string>): seq<string>
    decreases |items|
  {
    if items == [] then []
    else
      var init := Candidates(items[..|items| - 1]);
      match ItemSkill(items[|items| - 1])
      case None => init
      case Some(s) => init + [s]
  }

  /** What `extractSkillCandidates` returns. */
  function SkillCandidates(text: string): seq<string> {
    Candidates(SplitBy(text, IsItemSeparator))
  }

  /** `extractSkillCandidates`: a loop over the items that pushes each skill found. */
  method ExtractSkillCandidates(text: string) returns (skills: seq<string>)
    ensures skills == SkillCandidates(text)
  {
    var items := SplitBy(text, IsItemSeparator);
    skills := [];
    var i := 0;
    while i < |items|
      invariant 0 <= i <= |items|
      invariant skills == Candidates(items[..i])
    {
      assert items[..i + 1][..i] == items[..i];
      var trimmed := Trim(items[i]);
      if |trimmed| < MIN_ITEM_LENGTH || |trimmed| > MAX_ITEM_LENGTH {
        i := i + 1;
        continue;
      }
      var skillMatch := LazyCapture(trimmed, MIN_SKILL_MATCH);
      if skillMatch.Some? {
        var skill := LowerStr(Trim(trimmed[..skillMatch.value]));
        if skill !in EXCLUDED {
          skills := skills + [skill];
        }
      }
      i := i + 1;
    }
    assert items[..i] == items;
  }

  /** The shape of every candidate. */
  predicate SkillShaped(s: string) {
    0 < |s| <= MAX_SKILL_MATCH && Trimmed(s) && IsLowercase(s) && s !in EXCLUDED &&
    forall i :: 0 <= i < |s| ==> IsSkillChar(s[i])
  }

  /** A string that starts with a non-space character trims to a non-empty prefix of itself. */
  lemma TrimFromNonSpace(u: string)
    requires |u| > 0 && !IsSpace(u[0])
    ensures 0 < |Trim(u)| <= |u| && Trim(u) == u[..|Trim(u)|]
  {
    assert PrefixRun(u, IsSpace) == 0;
    assert u[0..] == u;
    assert SuffixRun(u, IsSpace) < |u|;
  }

  /** The trimmed capture of an item is a non-empty piece of it, at most 50 long, in the class. */
  lemma CaptureProps(t: string, k: nat)
    requires |t| > 0 && !IsSpace(t[0]) && Captures(t, k)
    ensures 0 < |Trim(t[..k])| <= MAX_SKILL_MATCH
    ensures forall i :: 0 <= i < |Trim(t[..k])| ==> IsSkillChar(Trim(t[..k])[i])
    ensures Contains(t, Trim(t[..k]))
  {
    var u := t[..k];
    TrimFromNonSpace(u);
    var v := Trim(u);
    assert forall i :: 0 <= i < |v| ==> v[i] == t[i];
    assert OccursAt(t, v, 0);
  }

  /** One item's skill is a lowercase, trimmed, non-empty piece of the item, at most 50 long. */
  lemma ItemSkillProps(item: string)
    requires ItemSkill(item).Some?
    ensures SkillShaped(ItemSkill(item).value)
    ensures Contains(LowerStr(item), ItemSkill(item).value)
  {
    var t := Trim(item);
    var k := LazyCapture(t, MIN_SKILL_MATCH).value;
    var v := Trim(t[..k]);
    CaptureProps(t, k);
    TrimIsSubstring(item);
    ContainsTransitive(item, t, v);
    ContainsLower(item, v);
    LowerStrIsLowercase(v);
    var w := LowerStr(v);
    assert w == ItemSkill(item).value;
    assert Trimmed(w) by {
      assert !IsSpace(v[0]) && !IsSpace(v[|v| - 1]);
    }
    assert forall i :: 0 <= i < |w| ==> IsSkillChar(w[i]) by {
      forall i | 0 <= i < |w|
        ensures IsSkillChar(w[i])
      {
        assert IsSkillChar(v[i]);
      }
    }
  }

  /** Every candidate has the skill shape, avoids the separators and is a piece of the text. */
  lemma {:induction false} CandidatesProps(text: string, items: seq<string>)
    requires forall k :: 0 <= k < |items| ==> Contains(text, items[k])
    ensures forall s :: s in Candidates(items) ==> SkillShaped(s) && Contains(LowerStr(text), s)
    decreases |items|
  {
    if items != [] {
      var init := items[..|items| - 1];
      CandidatesProps(text, init);
      var last := items[|items| - 1];
      if ItemSkill(last).Some? {
        ItemSkillProps(last);
        ContainsLower(text, last);
        ContainsTransitive(LowerStr(text), LowerStr(last), ItemSkill(last).value);
      }
    }
  }

  /** The candidates of a text are lowercase, trimmed, 1-50 characters, never a filler word. */
  lemma SkillCandidatesProps(text: string)
    ensures forall s :: s in SkillCandidates(text) ==> SkillShaped(s) && Contains(LowerStr(text), s)
  {
    SplitByContains(text, IsItemSeparator);
    CandidatesProps(text, SplitBy(text, IsItemSeparator));
  }

  // ---------------------------------------------------------------- extractSkillsNearMarker

  /** One alternative of a marker pattern: its words, separated by `\s+`. */
  type Phrase = seq<string>

  /** A marker pattern: a case-insensitive choice between phrases. */
  type Marker = seq<Phrase>

  /** The required-skill markers, each `skills?`-style optional suffix written out. */
  const REQUIRED_SKILL_MARKERS: seq<Marker> := [
    [["required", "skills"], ["required", "skill"], ["required", "qualifications"],
     ["required", "qualification"], ["required", "experience"]],
    [["must", "have"]],
    [["minimum", "qualifications"], ["minimum", "qualification"], ["minimum", "requirements"],
     ["minimum", "requirement"]],
    [["essential", "skills"], ["essential", "skill"]],
    [["mandatory"]],
    [["necessary", "skills"], ["necessary", "skill"]]
  ]

  /** The marker matches the text at index `i`. */
  predicate MarkerAt(text: string, i: nat, marker: Marker)
    requires i <= |text|
  {
    exists k :: 0 <= k < |marker| && SectionSegmenter.MatchWords(text, i, marker[k]).Some?
  }

  /** The indices below `n` where the marker matches, ascending. */
  function MarkerPositionsBelow(text: string, marker: Marker, n: nat): (ps: seq<nat>)
    requires n <= |text|
    ensures forall k :: 0 <= k < |ps| ==> ps[k] < n
    decreases n
  {
    if n == 0 then []
    else MarkerPositionsBelow(text, marker, n - 1) + (if MarkerAt(text, n - 1, marker) then [n - 1] else [])
  }

  /**
   * The indices `matchAll` reports for a marker. None of the phrases can overlap another
   * occurrence of the same marker, so these are all the indices where the marker matches.
   */
  function MarkerPositions(text: string, marker: Marker): seq<nat> {
    MarkerPositionsBelow(text, marker, |text|)
  }

  /** The reported indices are ascending. */
  lemma {:induction false} MarkerPositionsAscending(text: string, marker: Marker, n: nat)
    requires n <= |text|
    ensures forall k, l :: 0 <= k < l < |MarkerPositionsBelow(text, marker, n)| ==>
      MarkerPositionsBelow(text, marker, n)[k] < MarkerPositionsBelow(text, marker, n)[l]
    decreases n
  {
    if n > 0 {
      MarkerPositionsAscending(text, marker, n - 1);
    }
  }

  /** The reported indices are exactly those where the marker matches. */
  lemma {:induction false} MarkerPositionsExact(text: string, marker: Marker, n: nat)
    requires n <= |text|
    ensures forall i :: 0 <= i < n ==> (i in MarkerPositionsBelow(text, marker, n) <==> MarkerAt(text, i, marker))
    decreases n
  {
    if n > 0 {
      MarkerPositionsExact(text, marker, n - 1);
      var ps := MarkerPositionsBelow(text, marker, n - 1);
      forall i | 0 <= i < n
        ensures i in MarkerPositionsBelow(text, marker, n) <==> MarkerAt(text, i, marker)
      {
        if i < n - 1 {
          assert i !in (if MarkerAt(text, n - 1, marker) then [n - 1] else []);
        } else {
          assert i !in ps;
        }
      }
    }
  }

  const WINDOW_SIZE: nat := 500

  /** `text.substring(startPos, Math.min(startPos + windowSize, text.length))`. */
  function Window(text: string, start: nat, size: nat): (w: string)
    requires start <= |text|
    ensures |w| == if start + size <= |text| then size else |text| - start
    ensures w == text[start..start + |w|]
  {
    if start + size <= |text| then text[start..start + size] else text[start..]
  }

  /** The candidates of the windows at the given indices, in order. */
  function WindowCandidates(text: string, positions: seq<nat>, size: nat): seq<string>
    requires forall k :: 0 <= k < |positions| ==> positions[k] <= |text|
    decreases |positions|
  {
    if positions == [] then []
    else
      WindowCandidates(text, positions[..|positions| - 1], size) +
      SkillCandidates(Window(text, positions[|positions| - 1], size))
  }

  /** The candidates of every window of every marker, markers in order. */
  function MarkerCandidates(text: string, markers: seq<Marker>, size: nat): seq<string>
    decreases |markers|
  {
    if markers == [] then []
    else
      MarkerCandidates(text, markers[..|markers| - 1], size) +
      WindowCandidates(text, MarkerPositions(text, markers[|markers| - 1]), size)
  }

  /** What `extractSkillsNearMarker` returns: the candidates in first-insertion order of the `Set`. */
  function NearMarker(text: string, markers: seq<Marker>, size: nat): seq<string> {
    Dedup(MarkerCandidates(text, markers, size))
  }

  /** The inner loop of `extractSkillsNearMarker`: add the candidates of every window of one marker. */
  method AddMarkerSkills(text: string, marker: Marker, windowSize: nat, skills0: seq<string>) returns (skills: seq<string>)
    ensures skills == AddAll(skills0, WindowCandidates(text, MarkerPositions(text, marker), windowSize))
  {
    skills := skills0;
    var matches := MarkerPositions(text, marker);
    var p := 0;
    while p < |matches|
      invariant 0 <= p <= |matches|
      invariant skills == AddAll(skills0, WindowCandidates(text, matches[..p], windowSize))
    {
      assert matches[..p + 1][..p] == matches[..p];
      var startPos := matches[p];
      var window := Window(text, startPos, windowSize);
      var skillCandidates := ExtractSkillCandidates(window);
      AddAllAppend(skills0, WindowCandidates(text, matches[..p], windowSize), skillCandidates);
      skills := AddAll(skills, skillCandidates);
      p := p + 1;
    }
    assert matches[..p] == matches;
  }

  /** `extractSkillsNearMarker`: nested loops over markers and their matches, adding to a set. */
  method ExtractSkillsNearMarker(text: string, markers: seq<Marker>, windowSize: nat) returns (skills: seq<string>)
    ensures skills == NearMarker(text, markers, windowSize)
  {
    skills := [];
    var m := 0;
    while m < |markers|
      invariant 0 <= m <= |markers|
      invariant skills == Dedup(MarkerCandidates(text, markers[..m], windowSize))
    {
      assert markers[..m + 1][..m] == markers[..m];
      var before := MarkerCandidates(text, markers[..m], windowSize);
      AddAllAppend([], before, WindowCandidates(text, MarkerPositions(text, markers[m]), windowSize));
      skills := AddMarkerSkills(text, markers[m], windowSize, skills);
      m := m + 1;
    }
    assert markers[..m] == markers;
  }

  /** Every window lies inside the text, so its candidates are pieces of the text. */
  lemma {:induction false} WindowCandidatesProps(text: string, positions: seq<nat>, size: nat)
    requires forall k :: 0 <= k < |positions| ==> positions[k] <= |text|
    ensures forall s :: s in WindowCandidates(text, positions, size) ==> SkillShaped(s) && Contains(LowerStr(text), s)
    decreases |positions|
  {
    if positions != [] {
      WindowCandidatesProps(text, positions[..|positions| - 1], size);
      var w := Window(text, positions[|positions| - 1], size);
      SkillCandidatesProps(w);
      assert OccursAt(text, w, positions[|positions| - 1]);
      ContainsLower(text, w);
      forall s | s in SkillCandidates(w)
        ensures Contains(LowerStr(text), s)
      {
        ContainsTransitive(LowerStr(text), LowerStr(w), s);
      }
    }
  }

  lemma {:induction false} MarkerCandidatesProps(text: string, markers: seq<Marker>, size: nat)
    ensures forall s :: s in MarkerCandidates(text, markers, size) ==> SkillShaped(s) && Contains(LowerStr(text), s)
    decreases |markers|
  {
    if markers != [] {
      MarkerCandidatesProps(text, markers[..|markers| - 1], size);
      WindowCandidatesProps(text, MarkerPositions(text, markers[|markers| - 1]), size);
    }
  }

  /** The skills near markers are distinct, skill-shaped pieces of the text. */
  lemma NearMarkerProps(text: string, markers: seq<Marker>, size: nat)
    ensures NoDup(NearMarker(text, markers, size))
    ensures forall s :: s in NearMarker(text, markers, size) <==> s in MarkerCandidates(text, markers, size)
    ensures forall s :: s in NearMarker(text, markers, size) ==> SkillShaped(s) && Contains(LowerStr(text), s)
  {
    DedupProps(MarkerCandidates(text, markers, size));
    MarkerCandidatesProps(text, markers, size);
  }

  // ---------------------------------------------------------------- detectRequiredSkills

  /** What `detectRequiredSkills` returns. */
  function RequiredSkills(jobDescription: string): seq<string> {
    NearMarker(CleanText(jobDescription), REQUIRED_SKILL_MARKERS, WINDOW_SIZE)
  }

  method DetectRequiredSkills(jobDescription: string) returns (skills: seq<string>)
    ensures skills == RequiredSkills(jobDescription)
  {
    var cleaned := CleanText(jobDescription);
    skills := ExtractSkillsNearMarker(cleaned, REQUIRED_SKILL_MARKERS, WINDOW_SIZE);
  }

  /** The required skills are distinct, skill-shaped, and occur in the cleaned description. */
  lemma RequiredSkillsProps(jobDescription: string)
    ensures NoDup(RequiredSkills(jobDescription))
    ensures forall s :: s in RequiredSkills(jobDescription) ==>
      SkillShaped(s) && Contains(LowerStr(CleanText(jobDescription)), s)
  {
    NearMarkerProps(CleanText(jobDescription), REQUIRED_SKILL_MARKERS, WINDOW_SIZE);
  }

  /** In a cleaned text every white-space run is one space, so `\s+` in a marker matches one space. */
  lemma CleanSpaceRun(text: string, j: nat)
    requires SingleSpaced(text) && j <= |text|
    ensures PrefixRun(text[j..], IsSpace) <= 1
    ensures PrefixRun(text[j..], IsSpace) == 1 ==> text[j] == ' '
  {
    if j + 1 < |text| {
      assert !(IsSpace(text[j]) && IsSpace(text[j + 1]));
      assert text[j..][0] == text[j] && text[j..][1] == text[j + 1];
    }
  }

  // ---------------------------------------------------------------- generateSkillVariations

  /** One entry of the `replacements` table. */
  datatype Replacement = Replacement(key: string, values: seq<string>)

  const REPLACEMENTS: seq<Replacement> := [
    Replacement("javascript", ["js", "javascript", "java script"]),
    Replacement("typescript", ["ts", "typescript", "type script"]),
    Replacement("reactjs", ["react", "reactjs", "react.js"]),
    Replacement("nodejs", ["node", "nodejs", "node.js"]),
    Replacement("python", ["python", "py"]),
    Replacement("c++", ["c++", "cpp", "c plus plus"]),
    Replacement("c#", ["c#", "csharp", "c sharp"]),
    Replacement("sql", ["sql", "structured query language"]),
    Replacement("nosql", ["nosql", "no sql", "no-sql"]),
    Replacement("machine learning", ["ml", "machine learning"]),
    Replacement("artificial intelligence", ["ai", "artificial intelligence"]),
    Replacement("continuous integration", ["ci", "continuous integration"]),
    Replacement("continuous deployment", ["cd", "continuous deployment"])
  ]

  /** `values.some(v => skill.includes(v))`. */
  predicate Triggers(skill: string, values: seq<string>) {
    exists v :: v in values && Contains(skill, v)
  }

  /** The lists of the table entries that the skill triggers, concatenated in table order. */
  function Expansions(skill: string, table: seq<Replacement>): seq<string>
    decreases |table|
  {
    if table == [] then []
    else
      var last := table[|table| - 1];
      Expansions(skill, table[..|table| - 1]) + (if Triggers(skill, last.values) then last.values else [])
  }

  /** What `generateSkillVariations` returns for a table. */
  function Variations(skill: string, table: seq<Replacement>): seq<string> {
    Dedup([skill] + Expansions(skill, table))
  }

  function SkillVariations(skill: string): seq<string> {
    Variations(skill, REPLACEMENTS)
  }

  /** The loop of `generateSkillVariations` over a replacement table. */
  method ExpandVariations(skill: string, table: seq<Replacement>) returns (variations: seq<string>)
    ensures variations == Variations(skill, table)
  {
    variations := [skill];
    var i := 0;
    while i < |table|
      invariant 0 <= i <= |table|
      invariant variations == [skill] + Expansions(skill, table[..i])
    {
      assert table[..i + 1][..i] == table[..i];
      var values := table[i].values;
      if exists v :: v in values && Contains(skill, v) {
        variations := variations + values;
      }
      i := i + 1;
    }
    assert table[..i] == table;
    variations := Dedup(variations);
  }

  /** `generateSkillVariations`. */
  method GenerateSkillVariations(skill: string) returns (variations: seq<string>)
    ensures variations == SkillVariations(skill)
  {
    variations := ExpandVariations(skill, REPLACEMENTS);
  }

  /** Expansions hold exactly the values of the triggered entries. */
  lemma {:induction false} ExpansionsMembers(skill: string, table: seq<Replacement>)
    ensures forall x :: x in Expansions(skill, table) <==>
      exists k :: 0 <= k < |table| && Triggers(skill, table[k].values) && x in table[k].values
    decreases |table|
  {
    if table != [] {
      var init := table[..|table| - 1];
      ExpansionsMembers(skill, init);
      forall x
        ensures x in Expansions(skill, table) <==>
          exists k :: 0 <= k < |table| && Triggers(skill, table[k].values) && x in table[k].values
      {
        if x in Expansions(skill, table) && x !in Expansions(skill, init) {
          var k := |table| - 1;
          assert Triggers(skill, table[k].values) && x in table[k].values;
        }
        if exists k :: 0 <= k < |table| && Triggers(skill, table[k].values) && x in table[k].values {
          var k :| 0 <= k < |table| && Triggers(skill, table[k].values) && x in table[k].values;
          if k < |init| {
            assert init[k] == table[k];
          }
        }
      }
    }
  }

  /**
   * The variations start with the skill itself, hold no duplicate, and hold a whole list
   * exactly when some member of that list is a substring of the skill.
   */
  lemma VariationsProps(skill: string, table: seq<Replacement>)
    ensures |Variations(skill, table)| > 0 && Variations(skill, table)[0] == skill
    ensures NoDup(Variations(skill, table))
    ensures forall x :: x in Variations(skill, table) <==>
      x == skill || exists k :: 0 <= k < |table| && Triggers(skill, table[k].values) && x in table[k].values
  {
    var xs := [skill] + Expansions(skill, table);
    DedupProps(xs);
    ExpansionsMembers(skill, table);
    assert xs == [skill] + Expansions(skill, table);
    assert Dedup(xs) == AddAll([], xs);
    AddAllAppend([], [skill], Expansions(skill, table));
    assert AddAll([], [skill]) == [skill] by {
      assert [skill][..0] == [];
    }
    AddAllProps([skill], Expansions(skill, table));
  }

  // ---------------------------------------------------------------- checkSkillsCoverage

  /** Some variation of the lowercased skill is a substring of the lowercased résumé. */
  predicate IsCovered(resumeText: string, skill: string) {
    exists v :: v in SkillVariations(LowerStr(skill)) && Contains(LowerStr(resumeText), v)
  }

  function Covers(resumeText: string): string -> bool {
    s => IsCovered(resumeText, s)
  }

  function Lacks(resumeText: string): string -> bool {
    s => !IsCovered(resumeText, s)
  }

  /** `checkSkillsCoverage`: each skill goes to `covered` or to `missing`, in order. */
  method CheckSkillsCoverage(resumeText: string, requiredSkills: seq<string>) returns (covered: seq<string>, missing: seq<string>)
    ensures covered == Filter(requiredSkills, Covers(resumeText))
    ensures missing == Filter(requiredSkills, Lacks(resumeText))
  {
    var lowerResume := LowerStr(resumeText);
    covered := [];
    missing := [];
    var i := 0;
    while i < |requiredSkills|
      invariant 0 <= i <= |requiredSkills|
      invariant covered == Filter(requiredSkills[..i], Covers(resumeText))
      invariant missing == Filter(requiredSkills[..i], Lacks(resumeText))
    {
      assert requiredSkills[..i + 1][..i] == requiredSkills[..i];
      var skill := requiredSkills[i];
      var variations := GenerateSkillVariations(LowerStr(skill));
      var found := exists v :: v in variations && Contains(lowerResume, v);
      if found {
        covered := covered + [skill];
      } else {
        missing := missing + [skill];
      }
      i := i + 1;
    }
    assert requiredSkills[..i] == requiredSkills;
  }

  /**
   * `covered` and `missing` are order-preserving subsequences of the required skills that
   * together account for each of them; a skill is covered exactly when a variation occurs.
   */
  lemma CoveragePartition(resumeText: string, skills: seq<string>)
    ensures |Filter(skills, Covers(resumeText))| + |Filter(skills, Lacks(resumeText))| == |skills|
    ensures multiset(Filter(skills, Covers(resumeText))) + multiset(Filter(skills, Lacks(resumeText))) == multiset(skills)
    ensures IsSubsequence(Filter(skills, Covers(resumeText)), skills)
    ensures IsSubsequence(Filter(skills, Lacks(resumeText)), skills)
    ensures forall s :: s in Filter(skills, Covers(resumeText)) <==> s in skills && IsCovered(resumeText, s)
    ensures forall s :: s in Filter(skills, Lacks(resumeText)) <==> s in skills && !IsCovered(resumeText, s)
  {
    FilterPartition(skills, Covers(resumeText), Lacks(resumeText));
    FilterIsSubsequence(skills, Covers(resumeText));
    FilterIsSubsequence(skills, Lacks(resumeText));
    FilterMembers(skills, Covers(resumeText));
    FilterMembers(skills, Lacks(resumeText));
  }

  /** A skill that literally occurs in the résumé, ignoring case, is covered. */
  lemma LiteralSkillCovered(resumeText: string, skill: string)
    requires Contains(LowerStr(resumeText), LowerStr(skill))
    ensures IsCovered(resumeText, skill)
  {
    VariationsProps(LowerStr(skill), REPLACEMENTS);
    assert SkillVariations(LowerStr(skill))[0] in SkillVariations(LowerStr(skill));
  }
}
