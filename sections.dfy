/**
 * Résumé section segmentation, `detectSections` of lib/utils/text.ts: the text is cut
 * into lines, header lines open a section, and each section's lines are joined and trimmed.
 * A JavaScript object is a map together with the insertion order of its keys.
 */
module SectionSegmenter {
  import opened Wrappers
  import opened Chars
  import opened Strings
  import opened Seqs

  // ---------------------------------------------------------------- header lines

  /**
   * Matches the words of a header phrase from `pos` on, ignoring case, with one or more
   * white-space characters between words; returns where the phrase ends.
   */
  function MatchWords(line: string, pos: nat, words: seq<string>): (r: Option<nat>)
    requires pos <= |line|
    ensures r.Some? ==> pos <= r.value <= |line|
    decreases |words|
  {
    if words == [] then Some(pos)
    else
      var w := words[0];
      if pos + |w| <= |line| && LowerStr(line[pos..pos + |w|]) == w then
        if |words| == 1 then Some(pos + |w|)
        else
          var n := PrefixRun(line[pos + |w|..], IsSpace);
          if n == 0 then None else MatchWords(line, pos + |w| + n, words[1..])
      else None
  }

  /** `^phrase\s*:` for one phrase of a header pattern. */
  predicate PhraseHeader(line: string, words: seq<string>) {
    match MatchWords(line, 0, words)
    case None => false
    case Some(e) =>
      var c := e + PrefixRun(line[e..], IsSpace);
      c < |line| && line[c] == ':'
  }

  /** The pattern of one section matches the line: one of its phrases is a header there. */
  predicate PatternMatches(line: string, phrases: seq<seq<string>>) {
    exists k :: 0 <= k < |phrases| && PhraseHeader(line, phrases[k])
  }

  /** The section names in the order the patterns are tried. */
  const SECTION_NAMES: seq<string> :=
    ["summary", "experience", "education", "skills", "certifications", "projects"]

  /** The alternatives of each section's pattern, as word lists. */
  const SECTION_PHRASES: seq<seq<seq<string>>> := [
    [["professional", "summary"], ["summary"], ["career", "objective"], ["objective"], ["profile"]],
    [["work", "experience"], ["experience"], ["employment", "history"], ["employment"], ["professional", "background"]],
    [["education"], ["academic", "background"], ["qualifications"]],
    [["technical", "skills"], ["skills"], ["competencies"], ["expertise"]],
    [["certifications"], ["certification"], ["licenses"], ["license"]],
    [["projects"], ["project"], ["portfolio"]]
  ]

  /** The key of the text before the first header. */
  const PREAMBLE: string := "header"

  /** The first section, from pattern `k` on, whose pattern matches the line. */
  function HeaderFrom(line: string, k: nat): (r: Option<string>)
    requires k <= |SECTION_NAMES|
    ensures r.Some? ==> r.value in SECTION_NAMES[k..]
    decreases |SECTION_NAMES| - k
  {
    if k == |SECTION_NAMES| then None
    else if PatternMatches(line, SECTION_PHRASES[k]) then Some(SECTION_NAMES[k])
    else HeaderFrom(line, k + 1)
  }

  /** The section a line opens, if it is a header line: the first pattern in list order wins. */
  function HeaderOf(line: string): Option<string> {
    HeaderFrom(line, 0)
  }

  /** The first pattern in list order that matches the line decides its section. */
  lemma {:induction false} HeaderFromFirstMatch(line: string, k: nat, j: nat)
    requires k <= j < |SECTION_NAMES|
    requires PatternMatches(line, SECTION_PHRASES[j])
    requires forall i :: k <= i < j ==> !PatternMatches(line, SECTION_PHRASES[i])
    ensures HeaderFrom(line, k) == Some(SECTION_NAMES[j])
    decreases j - k
  {
    if k < j {
      HeaderFromFirstMatch(line, k + 1, j);
    }
  }

  /** A line is a header line exactly when some section's pattern matches it. */
  lemma {:induction false} HeaderFromNone(line: string, k: nat)
    requires k <= |SECTION_NAMES|
    ensures HeaderFrom(line, k).None? <==> forall i :: k <= i < |SECTION_NAMES| ==> !PatternMatches(line, SECTION_PHRASES[i])
    decreases |SECTION_NAMES| - k
  {
    if k < |SECTION_NAMES| {
      HeaderFromNone(line, k + 1);
    }
  }

  lemma HeaderOfName(line: string)
    ensures HeaderOf(line).Some? ==> HeaderOf(line).value in SECTION_NAMES && HeaderOf(line).value != PREAMBLE
  {
  }

  // ---------------------------------------------------------------- the segmentation

  /** An object from section names to contents, with its keys in insertion order. */
  datatype Sections = Sections(keys: seq<string>, values: map<string, string>)

  const NoSections := Sections([], map[])

  /** The key list and the map agree, and no key is listed twice. */
  predicate WellFormed(ss: Sections) {
    NoDup(ss.keys) && (forall k :: k in ss.keys ==> k in ss.values) && (forall k :: k in ss.values ==> k in ss.keys)
  }

  /** `sections[key] = value`: a new key goes last, an existing one keeps its place. */
  function Record(ss: Sections, key: string, value: string): (r: Sections)
    ensures WellFormed(ss) ==> WellFormed(r)
    ensures r.values == ss.values[key := value]
  {
    if key in ss.keys then Sections(ss.keys, ss.values[key := value])
    else Sections(ss.keys + [key], ss.values[key := value])
  }

  /** The loop's variables: `currentSection`, `sectionContent` and `sections`. */
  datatype Segmenter = Segmenter(current: string, content: seq<string>, found: Sections)

  /** Saving the open section: only when it has content lines. */
  function Flush(st: Segmenter): Sections {
    if |st.content| > 0 then Record(st.found, st.current, Trim(Join(st.content, '\n'))) else st.found
  }

  /**
   * One iteration of the loop over lines, for a header recogniser `hdr` (the lemmas below
   * hold for any recogniser that only yields section names; the program uses HeaderOf).
   */
  function Step(st: Segmenter, line: string, hdr: string -> Option<string>): Segmenter {
    match hdr(line)
    case Some(name) => Segmenter(name, [], Flush(st))
    case None => Segmenter(st.current, st.content + [line], st.found)
  }

  /** The state after the given lines. */
  function Run(lines: seq<string>, n: nat, hdr: string -> Option<string>): Segmenter
    requires n <= |lines|
    decreases n
  {
    if n == 0 then Segmenter(PREAMBLE, [], NoSections)
    else Step(Run(lines, n - 1, hdr), lines[n - 1], hdr)
  }

  /** What `detectSections` returns for the text. */
  function Segment(text: string): Sections {
    var lines := SplitBy(text, IsNewline);
    Flush(Run(lines, |lines|, HeaderOf))
  }

  /** The inner loop of `detectSections`: tries the patterns in order and stops at the first match. */
  method FindSection(line: string) returns (r: Option<string>)
    ensures r == HeaderOf(line)
  {
    var k := 0;
    while k < |SECTION_NAMES|
      invariant 0 <= k <= |SECTION_NAMES|
      invariant HeaderOf(line) == HeaderFrom(line, k)
    {
      if PatternMatches(line, SECTION_PHRASES[k]) {
        return Some(SECTION_NAMES[k]);
      }
      k := k + 1;
    }
    return None;
  }

  /** One iteration of the loop of `detectSections` over a line. */
  method ScanLine(currentSection: string, sectionContent: seq<string>, sections: Sections, line: string)
    returns (currentSection': string, sectionContent': seq<string>, sections': Sections)
    ensures Segmenter(currentSection', sectionContent', sections') ==
      Step(Segmenter(currentSection, sectionContent, sections), line, HeaderOf)
  {
    var found := FindSection(line);
    currentSection', sectionContent', sections' := currentSection, sectionContent, sections;
    if found.Some? {
      if |sectionContent| > 0 {
        sections' := Record(sections, currentSection, Trim(Join(sectionContent, '\n')));
      }
      currentSection' := found.value;
      sectionContent' := [];
    } else {
      sectionContent' := sectionContent + [line];
    }
  }

  /** `detectSections`: one pass over the lines, saving a section whenever a header opens the next. */
  method DetectSections(text: string) returns (sections: Sections)
    ensures sections == Segment(text)
  {
    var lines := SplitBy(text, IsNewline);
    var currentSection := PREAMBLE;
    var sectionContent: seq<string> := [];
    sections := NoSections;
    var i := 0;
    while i < |lines|
      invariant 0 <= i <= |lines|
      invariant Run(lines, i, HeaderOf) == Segmenter(currentSection, sectionContent, sections)
    {
      currentSection, sectionContent, sections := ScanLine(currentSection, sectionContent, sections, lines[i]);
      i := i + 1;
    }
    assert Segment(text) == Flush(Run(lines, |lines|, HeaderOf));
    if |sectionContent| > 0 {
      sections := Record(sections, currentSection, Trim(Join(sectionContent, '\n')));
    }
  }

  // ---------------------------------------------------------------- what the segmentation guarantees

  /** No line in `lines[a..b]` is a header line. */
  predicate HeaderFree(lines: seq<string>, a: int, b: int, hdr: string -> Option<string>)
    requires 0 <= a <= b <= |lines|
  {
    forall k :: a <= k < b ==> hdr(lines[k]).None?
  }

  /** Position `a` starts the section `key`: the text start for the preamble, else just after its header. */
  predicate Opens(lines: seq<string>, key: string, a: int, hdr: string -> Option<string>) {
    (a == 0 && key == PREAMBLE) || (0 < a <= |lines| && hdr(lines[a - 1]) == Some(key))
  }

  /** `lines[a..b]` is the whole body of one occurrence of section `key`. */
  predicate SectionRun(lines: seq<string>, key: string, a: int, b: int, hdr: string -> Option<string>) {
    0 <= a < b <= |lines| && Opens(lines, key, a, hdr) && HeaderFree(lines, a, b, hdr) &&
    (b == |lines| || hdr(lines[b]).Some?)
  }

  /** The recorded text of the lines `lines[a..b]`. */
  function SectionText(lines: seq<string>, a: int, b: int): string
    requires 0 <= a <= b <= |lines|
  {
    Trim(Join(lines[a..b], '\n'))
  }

  /** `v` is the text of some occurrence of section `key` that ends by `bound`. */
  predicate RecordedFrom(lines: seq<string>, key: string, v: string, bound: int, hdr: string -> Option<string>) {
    exists a, b :: 0 <= a < b <= bound && SectionRun(lines, key, a, b, hdr) && v == SectionText(lines, a, b)
  }

  /** A possible key: the preamble or a section name. */
  predicate IsSectionKey(k: string) {
    k == PREAMBLE || k in SECTION_NAMES
  }

  /** The recogniser only ever yields section names. */
  ghost predicate YieldsNames(hdr: string -> Option<string>) {
    forall l :: hdr(l).Some? ==> hdr(l).value in SECTION_NAMES
  }

  /** `lines[a..b]` is the last occurrence of section `key` among those that end by `e`. */
  ghost predicate LastRun(lines: seq<string>, key: string, a: int, b: int, e: int, hdr: string -> Option<string>) {
    SectionRun(lines, key, a, b, hdr) && b <= e &&
    forall a2, b2 :: SectionRun(lines, key, a2, b2, hdr) && b2 <= e ==> a2 <= a
  }

  /**
   * Every section occurrence that ended before `start` has its key recorded, and each key holds
   * the text of its last such occurrence: a later section of the same name overwrites an earlier one.
   */
  ghost predicate RunComplete(lines: seq<string>, start: int, found: Sections, hdr: string -> Option<string>) {
    (forall k, a, b :: SectionRun(lines, k, a, b, hdr) && b < start ==> k in found.values) &&
    (forall k, a, b :: LastRun(lines, k, a, b, start - 1, hdr) ==>
      k in found.values && found.values[k] == SectionText(lines, a, b))
  }

  /** What holds of the loop's state after `i` of the lines. */
  ghost predicate RunInvariant(lines: seq<string>, i: int, st: Segmenter, start: int, hdr: string -> Option<string>)
    requires 0 <= i <= |lines|
  {
    0 <= start <= i && st.content == lines[start..i] && HeaderFree(lines, start, i, hdr) &&
    Opens(lines, st.current, start, hdr) && IsSectionKey(st.current) &&
    WellFormed(st.found) &&
    (forall k :: k in st.found.values ==> IsSectionKey(k)) &&
    (forall k :: k in st.found.values ==> RecordedFrom(lines, k, st.found.values[k], start - 1, hdr)) &&
    RunComplete(lines, start, st.found, hdr)
  }

  /** A section occurrence that ends at `i` is the one the loop has open. */
  lemma OpenRun(lines: seq<string>, i: int, st: Segmenter, start: int, hdr: string -> Option<string>, k: string, a: int)
    requires 0 <= i <= |lines| && RunInvariant(lines, i, st, start, hdr)
    requires SectionRun(lines, k, a, i, hdr)
    ensures a == start && k == st.current
  {
  }

  /** Saving the open section at a section end `i` records every occurrence that ended by `i`, the last one winning. */
  lemma FlushComplete(lines: seq<string>, i: int, st: Segmenter, start: int, hdr: string -> Option<string>)
    requires 0 <= i <= |lines| && RunInvariant(lines, i, st, start, hdr)
    requires i == |lines| || hdr(lines[i]).Some?
    ensures RunComplete(lines, i + 1, Flush(st), hdr)
  {
    var r := Flush(st);
    var open := |st.content| > 0;
    assert open ==> SectionRun(lines, st.current, start, i, hdr);
    forall k, a, b | SectionRun(lines, k, a, b, hdr) && b < i + 1
      ensures k in r.values
    {
      if b == i {
        OpenRun(lines, i, st, start, hdr, k, a);
      } else {
        assert hdr(lines[b]).Some?;
        assert b < start;
      }
    }
    forall k, a, b | LastRun(lines, k, a, b, i, hdr)
      ensures k in r.values && r.values[k] == SectionText(lines, a, b)
    {
      if b == i {
        OpenRun(lines, i, st, start, hdr, k, a);
      } else {
        assert hdr(lines[b]).Some?;
        assert b < start;
        assert LastRun(lines, k, a, b, start - 1, hdr);
        assert open && k == st.current ==> start <= a;
      }
    }
  }

  /** Saving a section keeps every recorded value accounted for. */
  lemma FlushRecorded(lines: seq<string>, i: int, st: Segmenter, start: int, hdr: string -> Option<string>)
    requires 0 <= i < |lines| && RunInvariant(lines, i, st, start, hdr) && hdr(lines[i]).Some?
    ensures WellFormed(Flush(st))
    ensures forall k :: k in Flush(st).values ==> IsSectionKey(k)
    ensures forall k :: k in Flush(st).values ==> RecordedFrom(lines, k, Flush(st).values[k], i, hdr)
  {
    var found := Flush(st);
    forall k | k in found.values
      ensures RecordedFrom(lines, k, found.values[k], i, hdr)
    {
      if |st.content| > 0 && k == st.current {
        assert SectionRun(lines, k, start, i, hdr);
        assert found.values[k] == SectionText(lines, start, i);
      } else {
        assert RecordedFrom(lines, k, st.found.values[k], start - 1, hdr);
      }
    }
  }

  /** A header line saves the section so far and opens its own section just after it. */
  lemma HeaderStepKeepsInvariant(lines: seq<string>, i: int, st: Segmenter, start: int, hdr: string -> Option<string>)
    requires YieldsNames(hdr)
    requires 0 <= i < |lines| && RunInvariant(lines, i, st, start, hdr) && hdr(lines[i]).Some?
    ensures RunInvariant(lines, i + 1, Segmenter(hdr(lines[i]).value, [], Flush(st)), i + 1, hdr)
  {
    FlushRecorded(lines, i, st, start, hdr);
    FlushComplete(lines, i, st, start, hdr);
  }

  /** Any other line joins the open section. */
  lemma BodyStepKeepsInvariant(lines: seq<string>, i: int, st: Segmenter, start: int, hdr: string -> Option<string>)
    requires 0 <= i < |lines| && RunInvariant(lines, i, st, start, hdr) && hdr(lines[i]).None?
    ensures RunInvariant(lines, i + 1, Segmenter(st.current, st.content + [lines[i]], st.found), start, hdr)
  {
    assert lines[start..i + 1] == lines[start..i] + [lines[i]];
  }

  lemma StepKeepsInvariant(lines: seq<string>, i: int, st: Segmenter, start: int, hdr: string -> Option<string>,
                           next: Segmenter)
    returns (start': int)
    requires YieldsNames(hdr)
    requires 0 <= i < |lines| && RunInvariant(lines, i, st, start, hdr)
    requires next == Step(st, lines[i], hdr)
    ensures RunInvariant(lines, i + 1, next, start', hdr)
  {
    if hdr(lines[i]).Some? {
      HeaderStepKeepsInvariant(lines, i, st, start, hdr);
      start' := i + 1;
    } else {
      BodyStepKeepsInvariant(lines, i, st, start, hdr);
      start' := start;
    }
  }

  lemma {:induction false} RunKeepsInvariant(lines: seq<string>, i: int, hdr: string -> Option<string>) returns (start: int)
    requires YieldsNames(hdr)
    requires 0 <= i <= |lines|
    ensures RunInvariant(lines, i, Run(lines, i, hdr), start, hdr)
    decreases i
  {
    if i == 0 {
      start := 0;
      assert forall k, a, b :: !LastRun(lines, k, a, b, -1, hdr);
    } else {
      var prev := RunKeepsInvariant(lines, i - 1, hdr);
      start := StepKeepsInvariant(lines, i - 1, Run(lines, i - 1, hdr), prev, hdr, Run(lines, i, hdr));
    }
  }

  /** The segmentation, for any recogniser of section names. */
  lemma RunFlushCharacterised(lines: seq<string>, hdr: string -> Option<string>)
    requires YieldsNames(hdr)
    ensures WellFormed(Flush(Run(lines, |lines|, hdr)))
    ensures forall k :: k in Flush(Run(lines, |lines|, hdr)).values ==> IsSectionKey(k)
    ensures forall k :: k in Flush(Run(lines, |lines|, hdr)).values ==>
      RecordedFrom(lines, k, Flush(Run(lines, |lines|, hdr)).values[k], |lines|, hdr)
    ensures forall k, a, b :: SectionRun(lines, k, a, b, hdr) ==> k in Flush(Run(lines, |lines|, hdr)).values
    ensures forall k, a, b :: LastRun(lines, k, a, b, |lines|, hdr) ==>
      Flush(Run(lines, |lines|, hdr)).values[k] == SectionText(lines, a, b)
  {
    var start := RunKeepsInvariant(lines, |lines|, hdr);
    var st := Run(lines, |lines|, hdr);
    var r := Flush(st);
    FlushComplete(lines, |lines|, st, start, hdr);
    forall k | k in r.values
      ensures RecordedFrom(lines, k, r.values[k], |lines|, hdr)
    {
      if |st.content| > 0 && k == st.current {
        assert SectionRun(lines, k, start, |lines|, hdr);
      } else {
        assert RecordedFrom(lines, k, st.found.values[k], start - 1, hdr);
      }
    }
  }

  /**
   * The keys of `detectSections` are the preamble or section names, listed once each; every
   * value is the trimmed text of one whole section body, which holds no header line; every
   * section with at least one content line is recorded, and a later section of the same name
   * overwrites an earlier one.
   */
  lemma SegmentCharacterised(text: string)
    ensures WellFormed(Segment(text))
    ensures forall k :: k in Segment(text).values ==> IsSectionKey(k)
    ensures forall k :: k in Segment(text).values ==>
      RecordedFrom(SplitBy(text, IsNewline), k, Segment(text).values[k], |SplitBy(text, IsNewline)|, HeaderOf)
    ensures forall k, a, b :: SectionRun(SplitBy(text, IsNewline), k, a, b, HeaderOf) ==> k in Segment(text).values
    ensures forall k, a, b :: LastRun(SplitBy(text, IsNewline), k, a, b, |SplitBy(text, IsNewline)|, HeaderOf) ==>
      Segment(text).values[k] == SectionText(SplitBy(text, IsNewline), a, b)
  {
    forall l
      ensures HeaderOf(l).Some? ==> HeaderOf(l).value in SECTION_NAMES
    {
      HeaderOfName(l);
    }
    RunFlushCharacterised(SplitBy(text, IsNewline), HeaderOf);
  }

  /** The first header line at or after `a`, or `|lines|` when there is none. */
  function NextHeader(lines: seq<string>, a: nat, hdr: string -> Option<string>): (b: nat)
    requires a <= |lines|
    ensures a <= b <= |lines| && HeaderFree(lines, a, b, hdr)
    ensures b == |lines| || hdr(lines[b]).Some?
    decreases |lines| - a
  {
    if a == |lines| || hdr(lines[a]).Some? then a else NextHeader(lines, a + 1, hdr)
  }

  /**
   * Text before the first header goes to 'header': the preamble is recorded exactly when the
   * first line is not a header line, and then it holds the lines up to the first header.
   */
  lemma SegmentPreamble(text: string)
    ensures PREAMBLE in Segment(text).values <==> HeaderOf(SplitBy(text, IsNewline)[0]).None?
    ensures HeaderOf(SplitBy(text, IsNewline)[0]).None? ==>
      Segment(text).values[PREAMBLE] ==
      SectionText(SplitBy(text, IsNewline), 0, NextHeader(SplitBy(text, IsNewline), 0, HeaderOf))
  {
    var lines := SplitBy(text, IsNewline);
    forall l
      ensures HeaderOf(l).Some? ==> HeaderOf(l).value != PREAMBLE
    {
      HeaderOfName(l);
    }
    SegmentCharacterised(text);
    if HeaderOf(lines[0]).None? {
      var b := NextHeader(lines, 0, HeaderOf);
      assert SectionRun(lines, PREAMBLE, 0, b, HeaderOf);
      assert LastRun(lines, PREAMBLE, 0, b, |lines|, HeaderOf);
    } else {
      assert forall v :: !RecordedFrom(lines, PREAMBLE, v, |lines|, HeaderOf);
    }
  }

  /** Every recorded value is a substring of the résumé text. */
  lemma SegmentValuesInText(text: string, k: string)
    requires k in Segment(text).values
    ensures Contains(text, Segment(text).values[k])
  {
    var lines := SplitBy(text, IsNewline);
    SegmentCharacterised(text);
    var a, b :| 0 <= a < b <= |lines| && SectionRun(lines, k, a, b, HeaderOf) && Segment(text).values[k] == SectionText(lines, a, b);
    SplitJoin(text, IsNewline, '\n');
    JoinSliceIsSubstring(lines, a, b, '\n');
    TrimIsSubstring(Join(lines[a..b], '\n'));
    ContainsTransitive(text, Join(lines[a..b], '\n'), SectionText(lines, a, b));
  }

  /** A text with no line break is either one header line, giving no sections, or all preamble. */
  lemma SegmentSingleLine(text: string)
    requires forall i :: 0 <= i < |text| ==> text[i] != '\n'
    ensures HeaderOf(text).Some? ==> Segment(text) == NoSections
    ensures HeaderOf(text).None? ==> Segment(text) == Sections([PREAMBLE], map[PREAMBLE := Trim(text)])
  {
    var lines := SplitBy(text, IsNewline);
    assert FirstIndex(text, IsNewline) == |text|;
    assert lines == [text];
    assert Run(lines, 1, HeaderOf) == Step(Segmenter(PREAMBLE, [], NoSections), text, HeaderOf);
  }

  /** A header needs its colon: a line without one is always content. */
  lemma NoColonNoHeader(line: string)
    requires forall i :: 0 <= i < |line| ==> line[i] != ':'
    ensures HeaderOf(line).None?
  {
    forall j, k | 0 <= j < |SECTION_NAMES| && 0 <= k < |SECTION_PHRASES[j]|
      ensures !PhraseHeader(line, SECTION_PHRASES[j][k])
    {
    }
    HeaderFromNone(line, 0);
  }
}
