/**
 * Text preprocessing (lib/utils/text.ts): cleaning, tokenising, sentence splitting and
 * the layout and wording heuristics. Section segmentation is in module SectionSegmenter.
 */
module TextUtils {
  import opened Wrappers
  import opened Chars
  import opened Strings
  import opened Seqs

  // ---------------------------------------------------------------- cleanText

  /** `s.replace(/\r\n/g, '\n')`, scanning left to right. */
  function ReplaceCrLf(s: string): (r: string)
    ensures (forall i :: 0 <= i < |s| ==> s[i] != '\r') ==> r == s
    ensures |r| <= |s|
    decreases |s|
  {
    if s == [] then []
    else if |s| >= 2 && s[0] == '\r' && s[1] == '\n' then "\n" + ReplaceCrLf(s[2..])
    else [s[0]] + ReplaceCrLf(s[1..])
  }

  /** Replacing `\r\n` by `\n` only removes carriage returns: every other character `x`
      keeps its number of occurrences. */
  lemma {:induction false} ReplaceCrLfCounts(s: string, x: char)
    ensures x != '\r' ==> CountChar(ReplaceCrLf(s), x) == CountChar(s, x)
    ensures CountChar(ReplaceCrLf(s), '\r') <= CountChar(s, '\r')
    decreases |s|
  {
    if s == [] {
    } else if |s| >= 2 && s[0] == '\r' && s[1] == '\n' {
      var t := s[2..];
      ReplaceCrLfCounts(t, x);
      assert s[1..][1..] == t;
      assert ("\n" + ReplaceCrLf(t))[1..] == ReplaceCrLf(t);
    } else {
      var t := s[1..];
      ReplaceCrLfCounts(t, x);
      assert ([s[0]] + ReplaceCrLf(t))[1..] == ReplaceCrLf(t);
    }
  }

  /** Text without a `\r\n` pair comes back unchanged, even when it holds lone carriage returns. */
  lemma {:induction false} ReplaceCrLfNoPair(s: string)
    requires forall i :: 0 <= i < |s| - 1 ==> !(s[i] == '\r' && s[i + 1] == '\n')
    ensures ReplaceCrLf(s) == s
    decreases |s|
  {
    if s != [] {
      ReplaceCrLfNoPair(s[1..]);
      assert s == [s[0]] + s[1..];
    }
  }

  /** The length drops by exactly the number of carriage returns removed. */
  lemma {:induction false} ReplaceCrLfLength(s: string)
    ensures |ReplaceCrLf(s)| + CountChar(s, '\r') == |s| + CountChar(ReplaceCrLf(s), '\r')
    decreases |s|
  {
    if s == [] {
    } else if |s| >= 2 && s[0] == '\r' && s[1] == '\n' {
      var t := s[2..];
      ReplaceCrLfLength(t);
      assert s[1..][1..] == t;
      assert ("\n" + ReplaceCrLf(t))[1..] == ReplaceCrLf(t);
    } else {
      var t := s[1..];
      ReplaceCrLfLength(t);
      assert ([s[0]] + ReplaceCrLf(t))[1..] == ReplaceCrLf(t);
    }
  }

  /** `s.replace(/c/g, d)` for a single character `c`. */
  function ReplaceChar(s: string, c: char, d: char): (r: string)
    ensures |r| == |s|
    ensures forall i :: 0 <= i < |s| ==> r[i] == if s[i] == c then d else s[i]
    // no `c` survives, every other character of `s` is still there, and nothing new appears but `d`
    ensures c != d ==> c !in r
    ensures forall x :: x != c && x in s ==> x in r
    ensures forall x :: x in r ==> x == d || x in s
    ensures c in s ==> d in r
  {
    seq(|s|, i requires 0 <= i < |s| => if s[i] == c then d else s[i])
  }

  /** Every white-space character is a plain space and no two are adjacent. */
  predicate SingleSpaced(s: string) {
    (forall i :: 0 <= i < |s| && IsSpace(s[i]) ==> s[i] == ' ') &&
    (forall i :: 0 <= i < |s| - 1 ==> !(IsSpace(s[i]) && IsSpace(s[i + 1])))
  }

  /** The shape `cleanText` produces. */
  predicate Clean(s: string) {
    SingleSpaced(s) && Trimmed(s)
  }

  /** `s.replace(/\s+/g, ' ')`: each maximal white-space run becomes one space. */
  function CollapseWs(s: string): (r: string)
    ensures SingleSpaced(r)
    ensures |s| > 0 ==> |r| > 0 && (IsSpace(r[0]) <==> IsSpace(s[0]))
    ensures SingleSpaced(s) ==> r == s
    decreases |s|
  {
    if s == [] then []
    else if IsSpace(s[0]) then
      var rest := s[PrefixRun(s, IsSpace)..];
      var c := CollapseWs(rest);
      assert SingleSpaced(s) ==> PrefixRun(s, IsSpace) == 1 && SingleSpaced(rest);
      assert |c| > 0 ==> !IsSpace(c[0]);
      " " + c
    else
      assert SingleSpaced(s) ==> SingleSpaced(s[1..]);
      [s[0]] + CollapseWs(s[1..])
  }

  lemma SingleSpacedSlice(s: string, a: int, b: int)
    requires 0 <= a <= b <= |s| && SingleSpaced(s)
    ensures SingleSpaced(s[a..b])
  {
    var t := s[a..b];
    forall i | 0 <= i < |t| - 1
      ensures !(IsSpace(t[i]) && IsSpace(t[i + 1]))
    {
      assert t[i] == s[a + i] && t[i + 1] == s[a + i + 1];
    }
  }

  /** Trimming single-spaced text gives clean text whose only white space is plain spaces. */
  lemma TrimClean(s: string)
    requires SingleSpaced(s)
    ensures Clean(Trim(s))
    ensures forall i :: 0 <= i < |Trim(s)| ==> Trim(s)[i] != '\r' && Trim(s)[i] != '\t' && Trim(s)[i] != '\n'
  {
    var r := Trim(s);
    SingleSpacedSlice(s, PrefixRun(s, IsSpace), PrefixRun(s, IsSpace) + |r|);
  }

  /** `cleanText`: line breaks and tabs become spaces, runs collapse to one space, then trim. */
  function CleanText(text: string): (r: string)
    ensures Clean(r)
    ensures forall i :: 0 <= i < |r| ==> r[i] != '\r' && r[i] != '\t' && r[i] != '\n'
  {
    var collapsed := CollapseWs(ReplaceChar(ReplaceChar(ReplaceCrLf(text), '\r', '\n'), '\t', ' '));
    TrimClean(collapsed);
    Trim(collapsed)
  }

  /** Text already in the shape `cleanText` produces is left as it is. */
  lemma CleanTextOfClean(s: string)
    requires Clean(s)
    ensures CleanText(s) == s
  {
    assert ReplaceCrLf(s) == s;
    assert ReplaceChar(s, '\r', '\n') == s;
    assert ReplaceChar(s, '\t', ' ') == s;
  }

  /** `cleanText` is idempotent. */
  lemma CleanTextIdempotent(s: string)
    ensures CleanText(CleanText(s)) == CleanText(s)
  {
    CleanTextOfClean(CleanText(s));
  }

  // ---------------------------------------------------------------- tokenize

  /** The characters a token can hold: `[a-z0-9_-]`. */
  predicate IsTokenChar(c: char) {
    IsLowerLetter(c) || IsDigit(c) || c == '_' || c == '-'
  }

  /** `/[^\w\s-]/` replaced by a space. */
  function MaskPunctuation(c: char): char {
    if IsWordChar(c) || IsSpace(c) || c == '-' then c else ' '
  }

  predicate NonEmpty(w: string) { |w| > 0 }

  /** `tokenize`: lowercase, blank out punctuation, split on white space, drop empty pieces. */
  function Tokenize(text: string): (tokens: seq<string>)
    ensures forall k :: 0 <= k < |tokens| ==> |tokens[k]| > 0
    ensures forall k, j :: 0 <= k < |tokens| && 0 <= j < |tokens[k]| ==> IsTokenChar(tokens[k][j])
  {
    var lower := LowerStr(text);
    var masked := seq(|lower|, i requires 0 <= i < |lower| => MaskPunctuation(lower[i]));
    var pieces := SplitRuns(masked, IsSpace);
    SplitRunsPieces(masked, IsSpace);
    FilterMembers(pieces, NonEmpty);
    var tokens := Filter(pieces, NonEmpty);
    assert forall k :: 0 <= k < |tokens| ==> |tokens[k]| > 0 by {
      forall k | 0 <= k < |tokens|
        ensures |tokens[k]| > 0
      {
        assert tokens[k] in tokens;
      }
    }
    assert forall k, j :: 0 <= k < |tokens| && 0 <= j < |tokens[k]| ==> IsTokenChar(tokens[k][j]) by {
      forall k, j | 0 <= k < |tokens| && 0 <= j < |tokens[k]|
        ensures IsTokenChar(tokens[k][j])
      {
        assert tokens[k] in pieces;
        var c := tokens[k][j];
        assert !IsSpace(c) && c in masked;
        var m :| 0 <= m < |masked| && masked[m] == c;
        assert !IsUpper(lower[m]);
      }
    }
    tokens
  }

  /** A text of white space only has no tokens. */
  lemma TokenizeAllSpace(text: string)
    requires forall i :: 0 <= i < |text| ==> IsSpace(text[i])
    ensures Tokenize(text) == []
  {
    var lower := LowerStr(text);
    var masked := seq(|lower|, i requires 0 <= i < |lower| => MaskPunctuation(lower[i]));
    var pieces := SplitRuns(masked, IsSpace);
    SplitRunsAllSeparators(masked, IsSpace);
    FilterNone(pieces, NonEmpty);
    assert Tokenize(text) == Filter(pieces, NonEmpty);
  }

  // ---------------------------------------------------------------- extractSentences

  predicate IsSentenceEnd(c: char) { c == '.' || c == '!' || c == '?' }

  function TrimEach(parts: seq<string>): seq<string> {
    seq(|parts|, k requires 0 <= k < |parts| => Trim(parts[k]))
  }

  /** No `.`, `!` or `?` in `w`. */
  predicate NoSentenceEnd(w: string) {
    forall j :: 0 <= j < |w| ==> !IsSentenceEnd(w[j])
  }

  lemma TrimmedPiecesNoSentenceEnd(text: string)
    ensures forall k :: 0 <= k < |TrimEach(SplitRuns(text, IsSentenceEnd))| ==>
      NoSentenceEnd(TrimEach(SplitRuns(text, IsSentenceEnd))[k])
  {
    var pieces := SplitRuns(text, IsSentenceEnd);
    SplitRunsPieces(text, IsSentenceEnd);
    var trimmed := TrimEach(pieces);
    forall k | 0 <= k < |trimmed|
      ensures NoSentenceEnd(trimmed[k])
    {
      TrimNoSentenceEnd(pieces[k]);
    }
  }

  /** Trimming cannot bring in a `.`, `!` or `?`. */
  lemma TrimNoSentenceEnd(p: string)
    requires forall j :: 0 <= j < |p| ==> !IsSentenceEnd(p[j])
    ensures NoSentenceEnd(Trim(p))
  {
    var a := PrefixRun(p, IsSpace);
    forall j | 0 <= j < |Trim(p)|
      ensures !IsSentenceEnd(Trim(p)[j])
    {
      assert Trim(p)[j] == p[a + j];
    }
  }

  /** `extractSentences`: split on runs of `.`, `!`, `?`, trim, drop empty pieces. */
  function ExtractSentences(text: string): (r: seq<string>)
    ensures forall k :: 0 <= k < |r| ==> |r[k]| > 0 && Trimmed(r[k]) && NoSentenceEnd(r[k])
  {
    var trimmed := TrimEach(SplitRuns(text, IsSentenceEnd));
    TrimmedPiecesNoSentenceEnd(text);
    FilterMembers(trimmed, NonEmpty);
    var r := Filter(trimmed, NonEmpty);
    assert forall k :: 0 <= k < |r| ==> |r[k]| > 0 && Trimmed(r[k]) && NoSentenceEnd(r[k]) by {
      forall k | 0 <= k < |r|
        ensures |r[k]| > 0 && Trimmed(r[k]) && NoSentenceEnd(r[k])
      {
        assert r[k] in trimmed;
      }
    }
    r
  }

  // ---------------------------------------------------------------- hasTables

  /** `/\|[\s\w]+\|/`: two pipes with at least one word or space character, and only those, between. */
  predicate PipeCellAt(s: string, i: int, j: int)
    requires 0 <= i < j < |s|
  {
    s[i] == '|' && s[j] == '|' && i + 1 < j &&
    forall k :: i < k < j ==> IsSpace(s[k]) || IsWordChar(s[k])
  }

  /** `/\t\w+\t/`. */
  predicate TabCellAt(s: string, i: int, j: int)
    requires 0 <= i < j < |s|
  {
    s[i] == '\t' && s[j] == '\t' && i + 1 < j &&
    forall k :: i < k < j ==> IsWordChar(s[k])
  }

  predicate IsBoxDrawing(c: char) {
    c == '\U{250C}' || c == '\U{2514}' || c == '\U{251C}' || c == '\U{2524}' || c == '\U{2500}' || c == '\U{2502}'
  }

  /** `hasTables`: one of the three indicators occurs somewhere in the text. */
  predicate HasTables(text: string) {
    (exists i, j :: 0 <= i < j < |text| && PipeCellAt(text, i, j)) ||
    (exists i, j :: 0 <= i < j < |text| && TabCellAt(text, i, j)) ||
    (exists i :: 0 <= i < |text| && IsBoxDrawing(text[i]))
  }

  /** Cleaned text has no tabs, so on it only pipes and box drawing count as tables. */
  lemma HasTablesOfClean(text: string)
    requires Clean(text)
    ensures HasTables(text) <==>
      (exists i, j :: 0 <= i < j < |text| && PipeCellAt(text, i, j)) ||
      (exists i :: 0 <= i < |text| && IsBoxDrawing(text[i]))
  {
    forall i, j | 0 <= i < j < |text|
      ensures !TabCellAt(text, i, j)
    {
      if text[i] == '\t' {
        assert IsSpace(text[i]);
      }
    }
  }

  // ---------------------------------------------------------------- hasMultiColumn

  /** Five white-space characters start at `i`. */
  predicate GapAt(s: string, i: int) {
    0 <= i && i + 5 <= |s| && forall k :: i <= k < i + 5 ==> IsSpace(s[k])
  }

  /** The leftmost position from `from` on where a gap starts, or `|s|`. */
  function FirstGap(s: string, from: nat): (g: nat)
    requires from <= |s|
    ensures from <= g <= |s|
    ensures g < |s| ==> GapAt(s, g)
    ensures forall i :: from <= i < g ==> !GapAt(s, i)
    decreases |s| - from
  {
    if from + 5 > |s| then |s|
    else if GapAt(s, from) then from
    else FirstGap(s, from + 1)
  }

  /** `line.split(/\s{5,}/)`: cut at every run of five or more white-space characters. */
  function ColumnSegments(line: string): (segs: seq<string>)
    ensures |segs| >= 1
    // the segments hold no gap themselves, and there is more than one exactly when the line has a gap
    ensures forall k :: 0 <= k < |segs| ==> FirstGap(segs[k], 0) == |segs[k]|
    ensures |segs| == 1 <==> FirstGap(line, 0) == |line|
    decreases |line|
  {
    var g := FirstGap(line, 0);
    if g == |line| then [line]
    else
      var e := g + PrefixRun(line[g..], IsSpace);
      NoGapBefore(line, g);
      [line[..g]] + ColumnSegments(line[e..])
  }

  /** The text before the first gap holds no gap. */
  lemma NoGapBefore(s: string, g: nat)
    requires g <= |s|
    requires forall i :: 0 <= i < g ==> !GapAt(s, i)
    ensures FirstGap(s[..g], 0) == g
  {
    var h := FirstGap(s[..g], 0);
    assert h < g ==> GapAt(s, h);
  }

  /** A line whose gaps leave at least two segments, each longer than 10 after trimming. */
  predicate IsColumnLine(line: string) {
    var segs := ColumnSegments(line);
    |segs| > 1 && forall k :: 0 <= k < |segs| ==> |Trim(segs[k])| > 10
  }

  /** How many of the lines look like columns. */
  function ColumnLineCount(lines: seq<string>): (n: nat)
    ensures n <= |lines|
    decreases |lines|
  {
    if lines == [] then 0
    else ColumnLineCount(lines[..|lines| - 1]) + (if IsColumnLine(lines[|lines| - 1]) then 1 else 0)
  }

  /** The multi-column verdict: more than three lines look like columns. */
  predicate MultiColumnLayout(text: string) {
    ColumnLineCount(SplitBy(text, IsNewline)) > 3
  }

  /** One more line adds one to the count exactly when it looks like columns. */
  lemma ColumnLineCountStep(lines: seq<string>, i: nat)
    requires i < |lines|
    ensures ColumnLineCount(lines[..i + 1]) == ColumnLineCount(lines[..i]) + (if IsColumnLine(lines[i]) then 1 else 0)
  {
    assert lines[..i + 1][..i] == lines[..i];
  }

  /** `hasMultiColumn`: counts the column-like lines in a loop. */
  method HasMultiColumn(text: string) returns (b: bool)
    ensures b <==> ColumnLineCount(SplitBy(text, IsNewline)) > 3
  {
    var lines := SplitBy(text, IsNewline);
    var count := 0;
    var i := 0;
    while i < |lines|
      invariant 0 <= i <= |lines|
      invariant count == ColumnLineCount(lines[..i])
    {
      ColumnLineCountStep(lines, i);
      if IsColumnLine(lines[i]) {
        count := count + 1;
      }
      i := i + 1;
    }
    assert lines[..i] == lines;
    b := count > 3;
  }

  /** A line with no five consecutive white-space characters is a single segment. */
  lemma NoGapOneSegment(line: string)
    requires forall i :: 0 <= i < |line| ==> !GapAt(line, i)
    ensures ColumnSegments(line) == [line]
  {
  }

  lemma {:induction false} NoColumnLines(lines: seq<string>)
    requires forall k, i :: 0 <= k < |lines| && 0 <= i < |lines[k]| ==> !GapAt(lines[k], i)
    ensures ColumnLineCount(lines) == 0
    decreases |lines|
  {
    if lines != [] {
      NoColumnLines(lines[..|lines| - 1]);
      NoGapOneSegment(lines[|lines| - 1]);
    }
  }

  /** Cleaned text, as the document parsers return it, never looks multi-column. */
  lemma CleanTextNotMultiColumn(text: string)
    requires Clean(text)
    ensures !MultiColumnLayout(text)
  {
    var lines := SplitBy(text, IsNewline);
    assert FirstIndex(text, IsNewline) == |text|;
    assert lines == [text];
    forall i | 0 <= i < |text|
      ensures !GapAt(text, i)
    {
      if i + 5 <= |text| {
        assert !(IsSpace(text[i]) && IsSpace(text[i + 1]));
      }
    }
    NoColumnLines(lines);
  }

  // ---------------------------------------------------------------- extractActionVerbs

  /** The verbs of `actionVerbPattern`, in the order of the alternation. */
  const ACTION_VERBS: seq<string> := [
    "achieved", "administrated", "analyzed", "architected", "built", "collaborated",
    "created", "delivered", "designed", "developed", "directed", "engineered",
    "enhanced", "established", "executed", "facilitated", "founded", "generated",
    "implemented", "improved", "increased", "introduced", "launched", "led",
    "managed", "optimized", "organized", "performed", "planned", "produced",
    "programmed", "reduced", "resolved", "spearheaded", "streamlined", "strengthened"
  ]

  /** `s` begins, ignoring case, with the word `w` followed by a word boundary. */
  predicate StartsWithWord(s: string, w: string) {
    |w| <= |s| && LowerStr(s[..|w|]) == w && (|w| == |s| || !IsWordChar(s[|w|]))
  }

  /** The first listed verb, from index `k` on, that starts the sentence as a word. */
  function VerbFrom(s: string, k: nat): (r: Option<string>)
    requires k <= |ACTION_VERBS|
    ensures r.Some? ==> r.value in ACTION_VERBS[k..] && StartsWithWord(s, r.value)
    ensures r.None? ==> forall v :: v in ACTION_VERBS[k..] ==> !StartsWithWord(s, v)
    decreases |ACTION_VERBS| - k
  {
    if k == |ACTION_VERBS| then None
    else if StartsWithWord(s, ACTION_VERBS[k]) then Some(ACTION_VERBS[k])
    else
      assert forall v :: v in ACTION_VERBS[k..] ==> v == ACTION_VERBS[k] || v in ACTION_VERBS[k + 1..];
      VerbFrom(s, k + 1)
  }

  /** `sentence.match(actionVerbPattern)`, lowercased. */
  function LeadingVerb(sentence: string): Option<string> {
    VerbFrom(sentence, 0)
  }

  /** The verbs that open the sentences, one per sentence at most, in order. */
  function LeadingVerbs(sentences: seq<string>): seq<string>
    decreases |sentences|
  {
    if sentences == [] then []
    else
      var init := LeadingVerbs(sentences[..|sentences| - 1]);
      match LeadingVerb(sentences[|sentences| - 1])
      case Some(v) => init + [v]
      case None => init
  }

  lemma {:induction false} LeadingVerbsProps(sentences: seq<string>)
    ensures |LeadingVerbs(sentences)| <= |sentences|
    ensures forall v :: v in LeadingVerbs(sentences) ==> v in ACTION_VERBS && IsLowercase(v)
    decreases |sentences|
  {
    if sentences != [] {
      LeadingVerbsProps(sentences[..|sentences| - 1]);
      var r := LeadingVerb(sentences[|sentences| - 1]);
      if r.Some? {
        LowerStrIsLowercase(sentences[|sentences| - 1][..|r.value|]);
      }
    }
  }

  /** One more sentence adds its opening verb, if it has one. */
  lemma LeadingVerbsStep(sentences: seq<string>, i: nat)
    requires i < |sentences|
    ensures LeadingVerbs(sentences[..i + 1]) ==
      match LeadingVerb(sentences[i])
      case Some(v) => LeadingVerbs(sentences[..i]) + [v]
      case None => LeadingVerbs(sentences[..i])
  {
    assert sentences[..i + 1][..i] == sentences[..i];
  }

  /** `extractActionVerbs`: pushes the opening verb of each sentence. */
  method ExtractActionVerbs(text: string) returns (verbs: seq<string>)
    ensures verbs == LeadingVerbs(ExtractSentences(text))
    ensures |verbs| <= |ExtractSentences(text)|
    ensures forall v :: v in verbs ==> v in ACTION_VERBS && IsLowercase(v)
  {
    var sentences := ExtractSentences(text);
    verbs := [];
    var i := 0;
    while i < |sentences|
      invariant 0 <= i <= |sentences|
      invariant verbs == LeadingVerbs(sentences[..i])
    {
      LeadingVerbsStep(sentences, i);
      var m := LeadingVerb(sentences[i]);
      if m.Some? {
        verbs := verbs + [m.value];
      }
      i := i + 1;
    }
    assert sentences[..i] == sentences;
    LeadingVerbsProps(sentences);
  }

  // ---------------------------------------------------------------- hasQuantification

  /** `\d+([,.]?\d+)*`: digit groups separated by at most one `,` or `.` each. */
  predicate IsNumber(t: string) {
    |t| > 0 && IsDigit(t[0]) && IsDigit(t[|t| - 1]) &&
    (forall i :: 0 <= i < |t| ==> IsDigit(t[i]) || t[i] == ',' || t[i] == '.') &&
    (forall i :: 0 <= i < |t| - 1 ==> IsDigit(t[i]) || IsDigit(t[i + 1]))
  }

  /** The unit words of the pattern, in lowercase. */
  const UNITS: set<string> := {
    "%", "percent", "million", "thousand", "billion", "k", "m", "b", "x", "times",
    "hour", "hours", "day", "days", "week", "weeks", "month", "months", "year", "years"
  }

  /** `\b` at position `i`. */
  predicate Boundary(s: string, i: int)
    requires 0 <= i <= |s|
  {
    (i > 0 && IsWordChar(s[i - 1])) != (i < |s| && IsWordChar(s[i]))
  }

  /** A match of the quantification pattern: number `s[p..q]`, spaces `s[q..r]`, unit `s[r..e]`. */
  predicate QuantityAt(s: string, p: int, q: int, r: int, e: int) {
    0 <= p < q <= r < e <= |s| &&
    Boundary(s, p) && IsNumber(s[p..q]) &&
    (forall k :: q <= k < r ==> IsSpace(s[k])) &&
    LowerStr(s[r..e]) in UNITS && Boundary(s, e)
  }

  /** `hasQuantification`: the pattern matches somewhere. */
  predicate HasQuantification(text: string) {
    exists p, q, r, e | 0 <= p < q <= r < e <= |text| :: QuantityAt(text, p, q, r, e)
  }

  /** Lowercasing changes no word character into a non-word one, nor back. */
  lemma BoundaryLower(s: string, i: int)
    requires 0 <= i <= |s|
    ensures Boundary(s, i) <==> Boundary(LowerStr(s), i)
  {
  }

  /** Lowercasing keeps digits, `,` and `.` as they are. */
  lemma NumberLower(x: string)
    ensures IsNumber(x) <==> IsNumber(LowerStr(x))
  {
  }

  lemma QuantityAtLower(s: string, p: int, q: int, r: int, e: int)
    ensures QuantityAt(s, p, q, r, e) <==> QuantityAt(LowerStr(s), p, q, r, e)
  {
    if 0 <= p < q <= r < e <= |s| {
      var t := LowerStr(s);
      BoundaryLower(s, p);
      BoundaryLower(s, e);
      LowerStrSlice(s, p, q);
      NumberLower(s[p..q]);
      LowerStrSlice(s, r, e);
      LowerStrIdempotent(s[r..e]);
      assert LowerStr(t[r..e]) == LowerStr(s[r..e]);
      assert forall k :: q <= k < r ==> (IsSpace(t[k]) <==> IsSpace(s[k]));
    }
  }

  /** Every match starts with a digit, so a text without digits never quantifies. */
  lemma NoDigitNoQuantity(text: string)
    requires forall i :: 0 <= i < |text| ==> !IsDigit(text[i])
    ensures !HasQuantification(text)
  {
    forall p, q, r, e | 0 <= p < q <= r < e <= |text|
      ensures !QuantityAt(text, p, q, r, e)
    {
      assert text[p..q][0] == text[p];
    }
  }

  /**
   * `%` is not a word character, so the `\b` after it needs a word character to follow:
   * a percentage counts only when a letter, digit or `_` comes right after the sign.
   */
  lemma PercentNeedsWordAfter(s: string, p: int, q: int, r: int, e: int)
    requires QuantityAt(s, p, q, r, e) && s[r..e] == "%"
    ensures e < |s| && IsWordChar(s[e])
  {
    assert s[e - 1] == s[r..e][0];
  }

  /** "50%growth" quantifies; "grew 50%", with the sign last, does not. */
  lemma PercentExamples()
    ensures HasQuantification("50%growth")
    ensures !HasQuantification("grew 50%")
  {
    var s := "50%growth";
    assert s[0..2] == "50" && s[2..3] == "%";
    assert LowerStr("%") == "%";
    assert QuantityAt(s, 0, 2, 2, 3);
    var t := "grew 50%";
    forall p, q, r, e | 0 <= p < q <= r < e <= |t|
      ensures !QuantityAt(t, p, q, r, e)
    {
    }
  }

  /** The pattern carries the `i` flag: case does not matter. */
  lemma HasQuantificationIgnoresCase(text: string)
    ensures HasQuantification(text) <==> HasQuantification(LowerStr(text))
  {
    if HasQuantification(text) {
      var p, q, r, e :| QuantityAt(text, p, q, r, e);
      QuantityAtLower(text, p, q, r, e);
    }
    if HasQuantification(LowerStr(text)) {
      var p, q, r, e :| QuantityAt(LowerStr(text), p, q, r, e);
      QuantityAtLower(text, p, q, r, e);
    }
  }
}
