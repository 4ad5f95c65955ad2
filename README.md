# ATS résumé scorer — a verified Dafny model

This project models the scoring engine of an "applicant tracking system" optimiser as Dafny code. The engine compares a résumé with a job description and produces four things:

- a 0–100 match score;
- a breakdown into five weighted sub-scores:
  - keyword match 55 %;
  - semantic similarity 20 %;
  - required-skill coverage 10 %;
  - keyword distribution 10 %;
  - ATS layout heuristics 5 %;
- the missing keywords and the strongest matches;
- rule-based improvement suggestions and a quality label per résumé section.

The model follows the source file by file.

| module | file | models |
|---|---|---|
| `Stopwords` | stopwords.dfy | `lib/utils/stopwords.ts` |
| `TextUtils` | text.dfy | `lib/utils/text.ts`: cleaning, tokenising, sentence splitting, the table / multi-column / action-verb / quantification heuristics |
| `SectionSegmenter` | sections.dfy | `detectSections` from `lib/utils/text.ts` |
| `NGrams` | ngrams.dfy | `lib/analysis/ngrams.ts` |
| `Keywords` | keywords.dfy | `lib/analysis/keywords.ts` |
| `Similarity` | similarity.dfy | `lib/analysis/tfidf.ts` (LCS, Jaccard, bigram overlap, boost curve, TF counting) |
| `Skills` | skills.dfy | `lib/analysis/skills.ts` |
| `Suggestions` | suggestions.dfy | `lib/analysis/suggestions.ts` |
| `Scoring` | scoring.dfy | `lib/analysis/scoring.ts` |

Four helper modules are shared by all of them:

- `Wrappers`: `Option`.
- `Chars`: ASCII character classes and lowercasing.
- `Strings`: trimming, splitting, joining, substring search and match counting.
- `Seqs`: filters, maps, de-duplication, prefixes, sums and a stable descending sort.

## How the source is modelled

**Two kinds of definition.** Where the source is pure, the model defines a function with a named result. Where the source mutates, the model has a method with loops:

- a counter loop;
- an array pushed in a loop;
- a dictionary filled in a loop;
- the DP tables of the LCS.

Each such method is proved equal to a specification function. The properties of that function are then proved as lemmas. Examples:

- `SectionSegmenter.DetectSections` equals `Segment`.
- `Similarity.CalculateLcs` and `Similarity.CalculateLcsFast` equal `Lcs`. They keep the source's `array2` table and the two rolling arrays that are swapped.
- `Keywords.CountKeywordMatches` equals `Matched`/`Missing`.
- `Scoring.CalculateATSScore` equals `BreakdownWith`/`FinalScore`.

**ASCII character-level predicates.** Every regular expression of the source becomes an explicit predicate over ASCII characters:

- `\s` is space, tab, newline, carriage return, vertical tab or form feed.
- `\w` is `[A-Za-z0-9_]`.
- `toLowerCase` maps `A`–`Z` only.

**JavaScript objects.** An object whose `Object.entries` order matters becomes a map plus the list of its keys in insertion order. This covers the detected sections, the n-gram count tables and the per-section analysis. A later write to an existing key keeps the key's position, as in JavaScript.

**Reals and rounding.** JavaScript numbers become `real`. `Math.round` becomes `Numeric.Round`, which is floor(x + 1/2).

**Section headers.** A résumé line is a section header only in one case:

- it starts, ignoring case, with one of the listed phrases;
- the words of the phrase are separated by white space;
- the phrase is followed by optional white space and a `:`.

The patterns also have an alternative that ends in `\n`. It never fires, because every line comes from `split('\n')`. The model leaves it out, and `SectionSegmenter.NoColonNoHeader` proves that a line without a colon is never a header.

**Global-regex match counts.** A count of a keyword's matches under a global regular expression (`text.match(new RegExp(k, 'g')).length`) becomes the number of left-to-right, non-overlapping literal occurrences, `Strings.MatchCount`. On the `calculateATSScore` path every keyword that reaches this code comes out of the n-gram extractor. `NGrams.AllNGramsTexts` proves that such keywords consist only of `[a-z0-9_ -]`, so they contain no regular-expression syntax. Keywords supplied from outside that path are covered under "Left out".

### Where the code is authoritative

- **Weights.** The final score uses 55/20/10/10/5, as written at `lib/analysis/scoring.ts:44-50`. Weights shown elsewhere in the user interface are not used.
- **No dismissed-issue parameter.** `calculateATSScore` takes the résumé, the job description and the excluded keywords, and nothing else.
- **Empty keyword list.** When no job keyword is left, the source computes `0 / 0`, which is NaN, and the NaN spreads to the final score. The model returns `None` for the keyword sub-score and for the final score in that case. Every other case yields `Some`.

## Model

| member | source | states |
|---|---|---|
| Stopwords.StopwordIgnoresCase | lib/utils/stopwords.ts:46-49 | a word is a stopword exactly when its lowercase form is |
| Stopwords.StopwordIff | lib/utils/stopwords.ts:2-49 | a word is a stopword iff its lowercase form is in STOPWORDS or COMMON_RESUME_WORDS |
| Stopwords.StructuralWordsAreStopwords | lib/utils/stopwords.ts:37-44 | "experience", "skills", "education", "professional", "company" are stopwords in any letter case |
| Chars.Lower | lib/utils/text.ts:20 | ASCII lowercasing: the result is never upper case, upper-case letters become lower-case letters, everything else is unchanged, and space, word and digit classes are preserved |
| Strings.Trim | lib/utils/text.ts:12 | the result has no leading or trailing white space, is the slice of the input after its leading white space, and a trimmed input is returned unchanged |
| Strings.IndexOf | lib/analysis/keywords.ts:28 | -1 iff the needle never occurs from `from` on; otherwise the first occurrence at or after `from` |
| Strings.PositionsProps | lib/analysis/keywords.ts:26-31 | every position is an occurrence at or after the start, and consecutive positions are at least the needle's length apart (so strictly increasing) |
| Strings.MatchCount | lib/analysis/keywords.ts:84-89 | the count of non-overlapping occurrences is 0 exactly when the needle does not occur |
| Seqs.SortDescProps | lib/analysis/ngrams.ts:19-21 | the descending sort is a permutation of its input, keeps its length and is sorted by non-increasing key |
| Seqs.DedupProps | lib/analysis/skills.ts:154 | `[...new Set(xs)]` has no duplicates and the same members as xs |
| TextUtils.ReplaceCrLf | lib/utils/text.ts:8 | an input with no carriage return is left unchanged, and the result is never longer than the input |
| TextUtils.ReplaceCrLfCounts | lib/utils/text.ts:8 | turning `\r\n` into `\n` removes only carriage returns: every other character keeps its number of occurrences |
| TextUtils.ReplaceCrLfNoPair | lib/utils/text.ts:8 | text without a `\r\n` pair is unchanged, even when it holds lone carriage returns |
| TextUtils.ReplaceCrLfLength | lib/utils/text.ts:8 | the text shrinks by exactly the number of carriage returns removed |
| TextUtils.ReplaceChar | lib/utils/text.ts:9-10 | same length; no `c` is left; every other character of the input survives; the only new character is `d`, which appears whenever `c` did |
| TextUtils.CollapseWs | lib/utils/text.ts:11 | the result has no two adjacent white-space characters, is empty only for empty input, starts with white space iff the input did, and leaves single-spaced input unchanged |
| TextUtils.TrimClean | lib/utils/text.ts:11-12 | trimming a single-spaced string gives a clean string free of CR, tab and newline |
| TextUtils.CleanText | lib/utils/text.ts:6-13 | the result is clean (no leading or trailing white space, no two adjacent white-space characters) and contains no CR, tab or newline |
| TextUtils.CleanTextOfClean | lib/utils/text.ts:6-13 | a clean string is a fixed point of cleanText |
| TextUtils.CleanTextIdempotent | lib/utils/text.ts:6-13 | cleanText(cleanText(x)) == cleanText(x) |
| TextUtils.Tokenize | lib/utils/text.ts:18-24 | every token is non-empty and made only of `[a-z0-9_-]` |
| TextUtils.TokenizeAllSpace | lib/utils/text.ts:18-24 | an all-white-space input yields no tokens |
| TextUtils.TrimmedPiecesNoSentenceEnd | lib/utils/text.ts:31-32 | no trimmed piece of the split on `[.!?]+` contains `.`, `!` or `?` |
| TextUtils.ExtractSentences | lib/utils/text.ts:29-34 | every sentence is non-empty, trimmed and free of `.`, `!` and `?` |
| TextUtils.HasTablesOfClean | lib/utils/text.ts:95-104 | on cleaned text (no tabs) a table is detected iff there is a pipe-delimited cell of word/space characters or a box-drawing character |
| TextUtils.FirstGap | lib/utils/text.ts:115 | the first position from `from` where a run of at least five white-space characters starts, or the end |
| TextUtils.ColumnSegments | lib/utils/text.ts:115 | splitting on runs of 5+ white space yields at least one segment; no segment contains such a run; there is more than one segment iff the line has one |
| TextUtils.ColumnLineCount | lib/utils/text.ts:113-119 | the number of column lines never exceeds the number of lines |
| TextUtils.HasMultiColumn | lib/utils/text.ts:109-122 | the loop's answer is true iff more than 3 lines split into at least two segments, each longer than 10 after trimming |
| TextUtils.ColumnLineCountStep | lib/utils/text.ts:113-119 | one loop turn adds 1 exactly for a column line |
| TextUtils.NoGapOneSegment | lib/utils/text.ts:115 | a line without a 5-space run is one segment |
| TextUtils.NoColumnLines | lib/utils/text.ts:113-119 | lines without 5-space runs contribute no column line |
| TextUtils.CleanTextNotMultiColumn | lib/utils/text.ts:109-122 | a cleaned text is never classified as multi-column |
| TextUtils.VerbFrom | lib/utils/text.ts:128 | returns a listed verb that begins the sentence as a whole word, or None iff no listed verb does |
| TextUtils.LeadingVerbsProps | lib/utils/text.ts:133-138 | at most one verb per sentence; every verb is a listed action verb in lower case |
| TextUtils.ExtractActionVerbs | lib/utils/text.ts:127-141 | the loop collects the leading verb of each sentence: at most one per sentence, each a lowercase listed verb |
| TextUtils.BoundaryLower | lib/utils/text.ts:147 | a `\b` word boundary is unaffected by lowercasing |
| TextUtils.NumberLower | lib/utils/text.ts:147 | the number pattern is unaffected by lowercasing |
| TextUtils.QuantityAtLower | lib/utils/text.ts:147 | a quantity match at given offsets is unaffected by lowercasing |
| TextUtils.HasQuantificationIgnoresCase | lib/utils/text.ts:146-149 | the quantification test is case-insensitive (the `/i` flag) |
| TextUtils.NoDigitNoQuantity | lib/utils/text.ts:146-149 | a text without digits never counts as quantified |
| TextUtils.PercentNeedsWordAfter | lib/utils/text.ts:147 | a `%` unit matches only when a word character follows it, because `\b` after a non-word character needs one |
| TextUtils.PercentExamples | lib/utils/text.ts:147 | "50%growth" counts as quantified and "grew 50%", with the sign last, does not |
| SectionSegmenter.MatchWords | lib/utils/text.ts:43-48 | matching a header phrase word by word ends inside the line |
| SectionSegmenter.HeaderFrom | lib/utils/text.ts:59-69 | a recognised header is one of the listed section names |
| SectionSegmenter.HeaderFromFirstMatch | lib/utils/text.ts:59-69 | the first pattern in list order that matches decides the section name |
| SectionSegmenter.HeaderFromNone | lib/utils/text.ts:59-72 | a line is content iff no pattern matches it |
| SectionSegmenter.HeaderOfName | lib/utils/text.ts:42-49 | a header line names a listed section, never 'header' |
| SectionSegmenter.Record | lib/utils/text.ts:63 | `sections[key] = value`: the value map is updated at key (a later section of the same name overwrites the earlier one) and the key order stays a duplicate-free list of the map's keys |
| SectionSegmenter.FindSection | lib/utils/text.ts:59-70 | the pattern loop returns exactly the header recognised for the line |
| SectionSegmenter.ScanLine | lib/utils/text.ts:56-74 | one turn of the line loop: the new (current section, content, sections) is one segmentation step |
| SectionSegmenter.DetectSections | lib/utils/text.ts:39-83 | the line loop plus the final save compute the segmentation `Segment(text)` |
| SectionSegmenter.FlushRecorded | lib/utils/text.ts:62-64 | saving the open section keeps every recorded value a trimmed run of header-free lines after its header |
| SectionSegmenter.HeaderStepKeepsInvariant | lib/utils/text.ts:60-68 | a header line preserves the segmentation invariant |
| SectionSegmenter.BodyStepKeepsInvariant | lib/utils/text.ts:72-74 | a content line preserves the segmentation invariant |
| SectionSegmenter.StepKeepsInvariant | lib/utils/text.ts:55-75 | every step preserves the segmentation invariant |
| SectionSegmenter.RunKeepsInvariant | lib/utils/text.ts:55-75 | the invariant holds after any number of lines |
| SectionSegmenter.OpenRun | lib/utils/text.ts:55-75 | a section body that ends at the current line is the section the loop has open |
| SectionSegmenter.FlushComplete | lib/utils/text.ts:60-64 | saving at a section end records every section body that has ended, each key holding its last body |
| SectionSegmenter.RunFlushCharacterised | lib/utils/text.ts:55-80 | for any header recogniser: keys are section names or 'header', and each value is the trimmed '\n'-join of a maximal header-free, non-empty run of lines that starts after its header line (or at the top, for 'header'), so a section without content lines is not recorded; every section with content lines is recorded, and a key holds the text of its last such section |
| SectionSegmenter.SegmentCharacterised | lib/utils/text.ts:39-83 | detectSections' keys are a subset of {header, summary, experience, education, skills, certifications, projects}; each value is the trimmed text of one section body, so no value contains a header line; every section with content lines is recorded; a later section of the same name overwrites the earlier one |
| SectionSegmenter.NextHeader | lib/utils/text.ts:55-75 | the first header line at or after a position, or the end: the lines before it are all content |
| SectionSegmenter.SegmentPreamble | lib/utils/text.ts:52-80 | text before the first header goes to 'header': that key is present iff the first line is not a header, and then holds the lines up to the first header, joined and trimmed |
| SectionSegmenter.SegmentValuesInText | lib/utils/text.ts:51-80 | every section value is a substring of the text |
| SectionSegmenter.SegmentSingleLine | lib/utils/text.ts:51-80 | on input with no newline the result is {} for a header line and {header: trim(text)} otherwise |
| SectionSegmenter.NoColonNoHeader | lib/utils/text.ts:43-48 | a line without ':' is never a header (the `\n` alternative cannot fire) |
| NGrams.TallyCounts | lib/analysis/ngrams.ts:13-17 | the count table's keys are the distinct items in first-occurrence order, and each count is the item's multiplicity |
| NGrams.TallySum | lib/analysis/ngrams.ts:13-17 | the counts add up to the number of tallied items |
| NGrams.UnigramCandidates | lib/analysis/ngrams.ts:13-14 | the unigram windows are the tokens longer than 2 that are not stopwords |
| NGrams.CountWindows | lib/analysis/ngrams.ts:13-64 | the counting loop produces the tally of the qualifying windows of n tokens |
| NGrams.ExtractUnigrams | lib/analysis/ngrams.ts:9-22 | the method returns the sorted unigram table |
| NGrams.ExtractBigrams | lib/analysis/ngrams.ts:27-45 | the method returns the frequent bigram table |
| NGrams.ExtractTrigrams | lib/analysis/ngrams.ts:50-70 | the method returns the frequent trigram table |
| NGrams.WindowsFromValid | lib/analysis/ngrams.ts:31-39 | every counted window text comes from a window whose words all qualify |
| NGrams.EntriesDistinct | lib/analysis/ngrams.ts:19-20 | distinct keys give entries with distinct texts |
| NGrams.TableCharacterised | lib/analysis/ngrams.ts:13-66 | table texts are distinct; each entry has the table's kind, comes from a qualifying window and carries its exact count; every qualifying window is listed; the counts sum to the number of windows |
| NGrams.SortedTable | lib/analysis/ngrams.ts:21-44 | sorting keeps the entries (as a set and in total count), keeps texts distinct and yields non-increasing counts |
| NGrams.UnigramsCharacterised | lib/analysis/ngrams.ts:9-22 | unigram texts are distinct, longer than 2 and not stopwords; each count is the token's number of occurrences; every such token is listed; entries are non-increasing in count; counts sum to the number of qualifying tokens |
| NGrams.CandidatesFromWindows | lib/analysis/ngrams.ts:31-64 | every candidate text is the join of a window whose words are all longer than 2 and not stopwords |
| NGrams.FilterFrequent | lib/analysis/ngrams.ts:43-68 | the count ≥ 2 filter keeps exactly the texts occurring at least twice, with their counts |
| NGrams.FrequentEntries | lib/analysis/ngrams.ts:31-68 | the filtered table lists exactly the windows that occur at least twice, each from a qualifying window |
| NGrams.FrequentCharacterised | lib/analysis/ngrams.ts:27-70 | bigram/trigram tables: distinct texts, sorted by non-increasing count, only qualifying windows with count ≥ 2 and their exact count, and every window occurring twice is listed |
| NGrams.WindowSpaces | lib/analysis/ngrams.ts:32-55 | a window of n space-free tokens joined by ' ' has exactly n-1 spaces |
| NGrams.CandidateSpaces | lib/analysis/ngrams.ts:32-55 | every n-word candidate text has exactly n-1 spaces |
| NGrams.TableSpaces | lib/analysis/ngrams.ts:13-64 | an entry's number of spaces is its kind's word count minus one |
| NGrams.ListedInTable | lib/analysis/ngrams.ts:19-69 | every extracted n-gram is an entry of the table of its own kind |
| NGrams.AllNGrams | lib/analysis/ngrams.ts:75-91 | at most maxCount n-grams are returned |
| NGrams.UnweighWithWeight | lib/analysis/ngrams.ts:82-90 | adding a weight and dropping it again gives back the n-grams unchanged |
| NGrams.MergedEntries | lib/analysis/ngrams.ts:81-85 | every merged entry weighs count × words and comes from one of the three tables with the matching number of spaces |
| NGrams.ThreeTablesNoDup | lib/analysis/ngrams.ts:81-85 | tables whose texts have 2, 1 and 0 spaces merge without duplicate texts |
| NGrams.MergedNoDup | lib/analysis/ngrams.ts:81-85 | the merged list has pairwise distinct texts |
| NGrams.RankAndCut | lib/analysis/ngrams.ts:87-90 | the sort is a permutation; the kept prefix has min(maxCount, size) entries, distinct texts, non-increasing weights, only merged entries, and outweighs every dropped entry |
| NGrams.AllNGramsCharacterised | lib/analysis/ngrams.ts:75-91 | extractAllNGrams returns min(maxCount, candidates) distinct n-grams in non-increasing weight (count×3/×2/×1); each is an unchanged entry of its table whose space count matches its kind; the ranking is a permutation of the merge and no dropped candidate outweighs a kept one |
| NGrams.CandidateTexts | lib/analysis/ngrams.ts:32-55 | candidate texts are non-empty and made of `[a-z0-9_ -]` |
| NGrams.AllNGramsTexts | lib/analysis/ngrams.ts:75-91 | every extracted keyword is non-empty and made of `[a-z0-9_ -]` |
| Keywords.ExtractKeywordsCharacterised | lib/analysis/keywords.ts:9-14 | at most `count` keywords, pairwise distinct, each non-empty over `[a-z0-9_ -]` |
| Keywords.TextsNoDup | lib/analysis/keywords.ts:13 | the keyword texts are pairwise distinct exactly when no two n-grams share a text |
| Keywords.FindPositions | lib/analysis/keywords.ts:25-31 | the indexOf loop collects exactly the non-overlapping occurrence positions |
| Keywords.HitsStep | lib/analysis/keywords.ts:28-30 | one loop turn records the position and resumes the search after the match |
| Keywords.KeywordPositions | lib/analysis/keywords.ts:24-38 | one record per n-gram with its text, count and occurrence positions |
| Keywords.ExtractKeywordsWithData | lib/analysis/keywords.ts:19-39 | one record per extracted n-gram of the cleaned text, with keyword, frequency and the positions of its occurrences in the lowercased cleaned text |
| Keywords.CountKeywordMatches | lib/analysis/keywords.ts:53-69 | the loop returns the matched and missing filters of the keyword list |
| Keywords.MatchesPartition | lib/analysis/keywords.ts:44-69 | matched and missing are order-preserving subsequences that partition the keywords (lengths and multisets add up); a keyword is matched iff its lowercase is a substring of the lowercased résumé, missing otherwise |
| Keywords.WordCount | lib/analysis/keywords.ts:78-79 | a split on `\s+` always has at least one piece, so the zero-words guard never fires |
| Keywords.CalculateKeywordDensity | lib/analysis/keywords.ts:74-92 | the loop computes total matches / words, which is never negative |
| Keywords.TotalMatchesSnoc | lib/analysis/keywords.ts:84-89 | one more keyword adds its match count |
| Keywords.TotalMatchesStep | lib/analysis/keywords.ts:84-89 | one loop turn adds that keyword's match count |
| Keywords.TotalMatchesZero | lib/analysis/keywords.ts:84-89 | the total is 0 iff no keyword occurs in the lowercased text |
| Keywords.DensityZero | lib/analysis/keywords.ts:74-92 | the density is 0 iff the text contains none of the keywords |
| Numeric.Round | lib/analysis/scoring.ts:44 | Math.round: the result is within half a unit below and strictly less than half a unit above x |
| Numeric.RoundMonotone | lib/analysis/scoring.ts:44 | rounding is monotone |
| Numeric.RoundBetween | lib/analysis/scoring.ts:108 | rounding a value between two integers stays between them |
| Numeric.RoundInt | lib/analysis/scoring.ts:44 | rounding an integer gives it back |
| Similarity.FilteredTokens | lib/analysis/tfidf.ts:112-115 | every kept token is longer than 1 and not a stopword |
| Similarity.CalculateTF | lib/analysis/tfidf.ts:12-26 | the TF map has exactly the distinct tokens as keys, each mapped to its occurrences / token count |
| Similarity.TermFrequencyBounds | lib/analysis/tfidf.ts:12-26 | a present token's term frequency lies in (0, 1] |
| Similarity.JaccardProps | lib/analysis/tfidf.ts:116-121 | Jaccard lies in [0, 1], is symmetric, is 0 for disjoint sets (so for an empty union) and 1 for equal non-empty sets |
| Similarity.BigramSimilarityProps | lib/analysis/tfidf.ts:157-176 | bigram similarity lies in [0, 1] and is 0 when either side has fewer than two tokens (an empty bigram set) |
| Similarity.Lcs | lib/analysis/tfidf.ts:206-218 | the LCS length is at most each sequence's length |
| Similarity.LcsIsCommon | lib/analysis/tfidf.ts:197-219 | there is a common subsequence of length Lcs(a, b) |
| Similarity.LcsIsLongest | lib/analysis/tfidf.ts:197-219 | no common subsequence is longer than Lcs(a, b) |
| Similarity.LcsSelf | lib/analysis/tfidf.ts:197-219 | a sequence's LCS with itself is its length |
| Similarity.LcsStep | lib/analysis/tfidf.ts:209-215 | the DP recurrence holds for prefixes |
| Similarity.FillRow | lib/analysis/tfidf.ts:208-216 | one outer iteration fills row i with the LCS of the prefixes and leaves every other row unchanged |
| Similarity.CalculateLcs | lib/analysis/tfidf.ts:197-219 | the full-table DP returns the LCS of the (first 100 token) prefixes |
| Similarity.LcsCappedBound | lib/analysis/tfidf.ts:202-204 | the capped LCS is at most both lengths, and at most 100 when either side is longer than 100 |
| Similarity.FillCurr | lib/analysis/tfidf.ts:230-239 | one outer iteration fills curr with the LCS of a[..i] and every prefix of b |
| Similarity.CalculateLcsFast | lib/analysis/tfidf.ts:224-243 | the two-row rolling DP returns exactly the LCS, the same value as the full table on untruncated input |
| Similarity.CalculateLcsSimilarity | lib/analysis/tfidf.ts:181-192 | the method returns the ratio LCS / max(untruncated lengths) |
| Similarity.LcsRatioProps | lib/analysis/tfidf.ts:186-191 | the ratio lies in [0, 1], is 0 when either side is empty, and is 1 for equal non-empty inputs of at most 100 tokens |
| Similarity.LcsSimilarityProps | lib/analysis/tfidf.ts:181-192 | LCS similarity of two texts lies in [0, 1], is 0 when either has no meaningful token, and 1 for identical texts with 1–100 tokens |
| Similarity.CombinedBounds | lib/analysis/tfidf.ts:130-134 | the 0.40/0.30/0.15/0.15 combination maps [0,1]⁴ into [0, 1] and all-ones to 1 |
| Similarity.BoostMonotone | lib/analysis/tfidf.ts:137-151 | the boost curve is nondecreasing |
| Similarity.BoostContinuous | lib/analysis/tfidf.ts:137-151 | the boost curve is continuous (slope at most 3) with joins 15→45, 30→60 and 50→75 |
| Similarity.BoostRange | lib/analysis/tfidf.ts:137-151 | the boost curve maps [0, 100] into [0, 100], with 0→0 and 100→100 |
| Similarity.SemanticScoreProps | lib/analysis/tfidf.ts:130-151 | the rounded boosted score lies in [0, 100] and is monotone in each of the four component similarities |
| Similarity.SemanticSimilarityBounds | lib/analysis/tfidf.ts:106-152 | the semantic similarity of two texts lies in [0, 100] for any TF-IDF cosine in [0, 1] |
| Skills.LazyCapture | lib/analysis/skills.ts:66 | the lazy `{2,50}?` group takes the shortest admissible length from the minimum, or None iff none is admissible |
| Skills.ExtractSkillCandidates | lib/analysis/skills.ts:51-79 | the item loop computes the candidate list of the window |
| Skills.TrimFromNonSpace | lib/analysis/skills.ts:69 | trimming a string that starts with non-space keeps a non-empty prefix |
| Skills.CaptureProps | lib/analysis/skills.ts:66-69 | a capture trims to 1–50 skill characters and is a substring of the item |
| Skills.ItemSkillProps | lib/analysis/skills.ts:58-74 | a kept candidate is skill-shaped (lowercase, trimmed, 1–50 characters of `[a-z0-9 .+#-]`, not an excluded filler word) and occurs in the lowercased item |
| Skills.CandidatesProps | lib/analysis/skills.ts:55-76 | every candidate from substrings of a text is skill-shaped and occurs in the lowercased text |
| Skills.SkillCandidatesProps | lib/analysis/skills.ts:51-79 | every candidate of a window is skill-shaped and occurs in the lowercased window |
| Skills.MarkerPositionsBelow | lib/analysis/skills.ts:29 | marker matches found below n lie below n |
| Skills.MarkerPositionsAscending | lib/analysis/skills.ts:29 | marker matches are listed in increasing order |
| Skills.MarkerPositionsExact | lib/analysis/skills.ts:29-32 | exactly the positions where the marker matches (case-insensitively) are listed |
| Skills.Window | lib/analysis/skills.ts:34-36 | the window starts at the match and spans min(windowSize, remaining) characters |
| Skills.AddMarkerSkills | lib/analysis/skills.ts:29-42 | the inner loop over one marker's matches adds the candidates of each window, in match order, to the set |
| Skills.ExtractSkillsNearMarker | lib/analysis/skills.ts:24-46 | the nested marker/match loops compute the de-duplicated candidates of all windows |
| Skills.WindowCandidatesProps | lib/analysis/skills.ts:31-41 | every candidate of every window is skill-shaped and occurs in the lowercased text |
| Skills.MarkerCandidatesProps | lib/analysis/skills.ts:28-43 | every collected candidate is skill-shaped and occurs in the lowercased text |
| Skills.NearMarkerProps | lib/analysis/skills.ts:24-46 | the result has no duplicates, has the same members as the collected candidates, and each member is skill-shaped and in the lowercased text |
| Skills.DetectRequiredSkills | lib/analysis/skills.ts:84-87 | the method returns the near-marker skills of the cleaned job description |
| Skills.RequiredSkillsProps | lib/analysis/skills.ts:84-87 | detected required skills are duplicate-free, skill-shaped and occur in the lowercased cleaned job description |
| Skills.CleanSpaceRun | lib/analysis/skills.ts:85 | in cleaned text a `\s+` run is exactly one space |
| Skills.ExpandVariations | lib/analysis/skills.ts:148-154 | the replacement loop plus de-duplication compute the variation list |
| Skills.GenerateSkillVariations | lib/analysis/skills.ts:128-155 | the method returns the variations over the source's replacement table |
| Skills.ExpansionsMembers | lib/analysis/skills.ts:148-152 | an expansion is a member of some replacement list with a member that is a substring of the skill |
| Skills.VariationsProps | lib/analysis/skills.ts:128-155 | the variations start with the skill itself, have no duplicates, and are exactly the skill plus every replacement list one of whose members is a substring of the skill |
| Skills.CheckSkillsCoverage | lib/analysis/skills.ts:100-123 | the loop returns the covered and missing filters of the skill list |
| Skills.CoveragePartition | lib/analysis/skills.ts:104-122 | covered and missing are order-preserving subsequences that partition the skills; a skill is covered iff some variation of its lowercase is a substring of the lowercased résumé |
| Skills.LiteralSkillCovered | lib/analysis/skills.ts:112-129 | a skill that literally appears (case-insensitively) is covered |
| Suggestions.MentionsIff | lib/analysis/suggestions.ts:129-135 | `indicators.some(t => word.includes(t))` holds iff some indicator is a substring |
| Suggestions.SectionFor | lib/analysis/suggestions.ts:124-141 | the suggested section is 'Skills' or 'Experience' |
| Suggestions.SectionForExperience | lib/analysis/suggestions.ts:124-141 | the answer is 'Experience' iff the keyword contains no technical indicator but some methodology indicator, and 'Skills' otherwise |
| Suggestions.KeywordExample | lib/analysis/suggestions.ts:146-155 | the example is one of the four keyword templates, applied to the keyword |
| Suggestions.HighTipsAt | lib/analysis/suggestions.ts:24-32 | the i-th high tip is built from the i-th keyword and the i-th template pick |
| Suggestions.MediumTipsAt | lib/analysis/suggestions.ts:34-41 | the i-th medium tip is built from the i-th keyword |
| Suggestions.SkillTipsAt | lib/analysis/suggestions.ts:46-54 | the i-th skill tip is built from the i-th skill |
| Suggestions.HighSuggestions | lib/analysis/suggestions.ts:24-32 | the push loop yields the high tips in order |
| Suggestions.MediumSuggestions | lib/analysis/suggestions.ts:34-41 | the push loop yields the medium tips in order |
| Suggestions.SkillSuggestions | lib/analysis/suggestions.ts:46-54 | the push loop yields the skill tips in order |
| Suggestions.LeadingSuggestions | lib/analysis/suggestions.ts:20-55 | keyword and skill suggestions come out as specified |
| Suggestions.ExperienceSuggestions | lib/analysis/suggestions.ts:58-82 | the experience checks yield the specified tips |
| Suggestions.DensityTipsStep | lib/analysis/suggestions.ts:85-96 | one loop turn adds a warning exactly when the section's density exceeds 0.15 |
| Suggestions.DensitySuggestions | lib/analysis/suggestions.ts:85-96 | the loop over sections, in key order, yields the density warnings |
| Suggestions.PresenceSuggestions | lib/analysis/suggestions.ts:99-116 | the two presence checks yield the specified tips |
| Suggestions.SectionSuggestions | lib/analysis/suggestions.ts:85-116 | density warnings followed by presence tips |
| Suggestions.SuggestForSections | lib/analysis/suggestions.ts:16-118 | all suggestions for given sections, in the source's order |
| Suggestions.GenerateSuggestions | lib/analysis/suggestions.ts:9-119 | generateSuggestions returns the specified suggestion list for the résumé's detected sections |
| Suggestions.HighTipsProps | lib/analysis/suggestions.ts:24-32 | each high tip is a keyword/high suggestion for its keyword, in order, in SectionFor(keyword), with a template example and no keywordsToAdd |
| Suggestions.MediumTipsProps | lib/analysis/suggestions.ts:34-41 | each medium tip is a keyword/medium suggestion for its keyword, in order, with no example |
| Suggestions.LeadingTipsProps | lib/analysis/suggestions.ts:20-55 | the list starts with high tips for missingKeywords[0..10], then medium tips for missingKeywords[10..20], then one skills/'Skills'/high tip with keywordsToAdd [skill] for each of the first 5 missing skills |
| Suggestions.SuggestionsLeadingPart | lib/analysis/suggestions.ts:19-55 | the keyword and skill tips form a prefix of all suggestions |
| Suggestions.ExperienceTipsIff | lib/analysis/suggestions.ts:58-82 | an action-verb tip iff the experience section is non-empty with fewer than 3 action verbs; a metrics tip iff it is non-empty without quantification; at most two tips |
| Suggestions.PresenceTipsIff | lib/analysis/suggestions.ts:99-116 | a Skills/medium tip iff the skills section is missing or shorter than 50; a Summary/low tip iff neither summary nor objective is present |
| Suggestions.SectionLacksMissing | lib/analysis/suggestions.ts:85-86 | a keyword absent from the résumé is absent from every detected section |
| Suggestions.NoDensityTips | lib/analysis/suggestions.ts:85-96 | when none of the keywords occurs in the résumé, no density warning fires |
| Suggestions.NoStuffingWarnings | lib/analysis/suggestions.ts:85-96 | with the missing keywords of countKeywordMatches on the same résumé (lib/analysis/scoring.ts:53-60), no keyword-density warning is ever generated |
| Suggestions.ScanKeyword | lib/analysis/suggestions.ts:173-178 | one turn of the keyword loop keeps the count and the found set exact |
| Suggestions.ScanSection | lib/analysis/suggestions.ts:169-178 | the count is the number of keywords found in the section; the set holds exactly the found keywords |
| Suggestions.LabelSection | lib/analysis/suggestions.ts:181-190 | the label chain computes the quality label |
| Suggestions.SectionFeatures | lib/analysis/suggestions.ts:165-167 | word count, action-verb presence and quantification of the section |
| Suggestions.KeywordsNotFound | lib/analysis/suggestions.ts:193 | the not-found filter keeps exactly the keywords absent from the section, in order |
| Suggestions.AnalyzeSection | lib/analysis/suggestions.ts:165-204 | one section's report is the specified report |
| Suggestions.AddReport | lib/analysis/suggestions.ts:164-205 | one turn of the section loop adds that section's report |
| Suggestions.ReportSections | lib/analysis/suggestions.ts:164-205 | the section loop builds the report map |
| Suggestions.AnalyzeSections | lib/analysis/suggestions.ts:160-208 | analyzeSections returns the specified analysis of the detected sections |
| Suggestions.ReportsStep | lib/analysis/suggestions.ts:196 | one section adds its report at its name |
| Suggestions.ReportsKeys | lib/analysis/suggestions.ts:164-205 | the report map has exactly the listed names, each with its section's report |
| Suggestions.AnalysisFromKeys | lib/analysis/suggestions.ts:164-205 | the analysis has the sections' key order and key set, each with its section's report |
| Suggestions.AnalysisKeys | lib/analysis/suggestions.ts:160-208 | analyzeSections has exactly the keys of detectSections, in the same order |
| Suggestions.AssembleProps | lib/analysis/suggestions.ts:181-204 | density is count / words (0 with no words); 'unknown' iff words ≤ 20, otherwise 'good' iff count ≥ 5, 'medium' iff 2–4, else 'poor'; suggested keywords are the first 5 not-found keywords |
| Suggestions.KeywordsSplit | lib/analysis/suggestions.ts:173-193 | found and not-found keywords add up to all keywords; not-found ones are absent from the section |
| Suggestions.ReportProps | lib/analysis/suggestions.ts:165-204 | a section report's keyword count is ≤ \|keywords\| and complements the not-found list; suggested keywords are its prefix, each absent from the section |
| Scoring.ExclusionProps | lib/analysis/scoring.ts:20-26 | the kept keywords are an order-preserving subsequence; a keyword is kept iff no excluded keyword equals it case-insensitively; no exclusions keeps all |
| Scoring.ExcludeOneMore | lib/analysis/scoring.ts:23-26 | excluding one more keyword filters the previous result |
| Scoring.KeywordRateBands | lib/analysis/scoring.ts:90-108 | the keyword score follows the bands ≥0.90→95–100, 0.75→88–95, 0.60→80–88, 0.45→70–80, 0.30→58–70, 0.15→45–58, else 0–45 |
| Scoring.KeywordFullMatch | lib/analysis/scoring.ts:91-108 | a match rate of 1 gives 100 |
| Scoring.KeywordRateMonotone | lib/analysis/scoring.ts:90-108 | the rounded keyword score is nondecreasing in the match rate, despite the overlapping raw segments |
| Scoring.KeywordMatchOf | lib/analysis/scoring.ts:85-113 | the score exists iff the keyword list is non-empty and lies in [0, 100]; matched counts the matched keywords and is at most the total |
| Scoring.CalculateKeywordMatchScore | lib/analysis/scoring.ts:85-113 | the method returns the specified keyword-match record |
| Scoring.SemanticOf | lib/analysis/scoring.ts:118-125 | similarity is score / 100 |
| Scoring.SemanticBounds | lib/analysis/scoring.ts:118-125 | the semantic score lies in [0, 100] and the similarity in [0, 1] |
| Scoring.SkillsRateBands | lib/analysis/scoring.ts:146-160 | the skills score follows the bands ≥0.85→95–100, 0.70→88–95, 0.50→78–88, 0.30→65–78, else 0–65 |
| Scoring.SkillsRateMonotone | lib/analysis/scoring.ts:146-160 | the rounded skills score is nondecreasing in the coverage rate |
| Scoring.SkillsCoverageFrom | lib/analysis/scoring.ts:130-165 | covered and missing add up to the total; 98 when no required skills are detected; the score lies in [0, 100] |
| Scoring.CalculateSkillsCoverageScore | lib/analysis/scoring.ts:130-165 | the method returns the specified skills record for the detected required skills |
| Scoring.DistributionFrom | lib/analysis/scoring.ts:170-221 | the distribution score lies in [75, 100] |
| Scoring.DetailsStep | lib/analysis/scoring.ts:178-206 | one turn adds a detail exactly for a present major section |
| Scoring.DetailsProps | lib/analysis/scoring.ts:178-206 | the details are for the present major sections, in order, each measured on that section |
| Scoring.DistributionFull | lib/analysis/scoring.ts:194-215 | the score is 100 iff no section is stuffed and the distribution is even (at most one section, or at least two sections with matches) |
| Scoring.CountMatches | lib/analysis/scoring.ts:184-191 | the inner loop totals the keywords' match counts |
| Scoring.Density | lib/analysis/scoring.ts:193-200 | a section is stuffed iff it has words and more than 0.25 keyword matches per word |
| Scoring.MeasureSection | lib/analysis/scoring.ts:181-200 | one section's measured detail |
| Scoring.MeasureSections | lib/analysis/scoring.ts:178-206 | the loop yields the details, a penalty of 8 per stuffed section and the number of analysed sections |
| Scoring.DistributionOver | lib/analysis/scoring.ts:171-221 | the method returns the specified distribution for given sections |
| Scoring.CalculateDistributionQualityScore | lib/analysis/scoring.ts:170-221 | the method returns the specified distribution of the résumé's detected sections |
| Scoring.HeuristicsFrom | lib/analysis/scoring.ts:226-275 | the heuristics score lies in [80, 100] |
| Scoring.JudgeProps | lib/analysis/scoring.ts:231-255 | one check adds exactly one entry, to issues if it failed and to passed otherwise |
| Scoring.LayoutIssues | lib/analysis/scoring.ts:231-255 | the layout issues are exactly the failed layout checks |
| Scoring.LayoutPassed | lib/analysis/scoring.ts:231-255 | the layout passes are exactly the passed layout checks |
| Scoring.LayoutCount | lib/analysis/scoring.ts:231-255 | the three layout checks add three entries; the penalty is 0 iff there is no issue |
| Scoring.LayoutProps | lib/analysis/scoring.ts:231-255 | each layout check lands in issues iff it failed and in passed iff it did not |
| Scoring.HeuristicsChecks | lib/analysis/scoring.ts:226-275 | four entries in issues plus passed; each check lands on the right side (tables, multi-column, sections, < 200 / > 2000 words); the score is 100 iff there is no issue |
| Scoring.TallyChecks | lib/analysis/scoring.ts:229-268 | the pushes and penalties compute the specified heuristics |
| Scoring.CalculateATSHeuristicsScore | lib/analysis/scoring.ts:226-275 | the method returns the specified heuristics of the résumé |
| Scoring.WeightedScoreBounds | lib/analysis/scoring.ts:44-50 | the rounded 0.55/0.20/0.10/0.10/0.05 sum of scores in [0, 100] lies in [0, 100] |
| Scoring.WeightedScoreMonotone | lib/analysis/scoring.ts:44-50 | the weighted score is nondecreasing in the keyword score |
| Scoring.FinalScore | lib/analysis/scoring.ts:44-50 | the final score exists iff the keyword score does |
| Scoring.CalculateATSScore | lib/analysis/scoring.ts:14-79 | breakdown, score, missing keywords (first 15), strong matches (first 15), suggestions and section analysis are the specified ones for the job keywords after exclusion |
| Scoring.AnalyzeAgainst | lib/analysis/scoring.ts:28-78 | the same, for a given job-keyword list |
| Scoring.ScoreBreakdown | lib/analysis/scoring.ts:28-41 | the five sub-score calls produce the specified breakdown |
| Scoring.FinalScoreBounds | lib/analysis/scoring.ts:44-50 | with all sub-scores in [0, 100] the final score lies in [0, 100] |
| Scoring.ScoreBounds | lib/analysis/scoring.ts:14-79 | a final score exists iff a job keyword is left after exclusion, and then it lies in [0, 100] |
| Scoring.TotalMatchesKept | lib/analysis/scoring.ts:186-191 | dropping keywords that do not occur leaves the match total unchanged |
| Scoring.DetailsKept | lib/analysis/scoring.ts:178-206 | dropping keywords absent from every section leaves the details unchanged |
| Scoring.DistributionKept | lib/analysis/scoring.ts:170-221 | dropping keywords absent from the résumé leaves the distribution unchanged |
| Scoring.FewerKeywords | lib/analysis/scoring.ts:87-108 | the same matches out of fewer keywords never lower the keyword score |
| Scoring.KeywordMatchKept | lib/analysis/scoring.ts:85-113 | dropping missing keywords never lowers the keyword score |
| Scoring.DroppingMissingKeywords | lib/analysis/scoring.ts:29-50 | dropping missing keywords never lowers the final score |
| Scoring.ExcludingMissingKeywordFrom | lib/analysis/scoring.ts:22-50 | excluding one more currently missing keyword, with one left, never lowers the final score |
| Scoring.ExcludingMissingKeyword | lib/analysis/scoring.ts:14-50 | excluding a currently missing keyword, with at least one keyword left, never lowers calculateATSScore's score |
| Scoring.ExcludingMissingKeywords | lib/analysis/scoring.ts:14-50 | excluding only keywords that are absent from the résumé never lowers the score compared with no exclusions |

## Left out

- **TF-IDF cosine.** The cosine similarity (lib/analysis/tfidf.ts:31-101) uses `Math.log` and `Math.sqrt` on floating point. It is a parameter `tfidf`, assumed to lie in [0, 1] where bounds are proved. Only TF counting (`Similarity.CalculateTF`) is modelled. The assumption fails when either text contains the token "constructor". Its TF is NaN (see the next item), and `v[term] || 0` (lib/analysis/tfidf.ts:88-89) reads the inherited `Object` function on the vector that lacks the key. So the source's cosine, semantic score and final score are NaN on such inputs.
- **Inherited object keys.** The count tables (lib/analysis/ngrams.ts:11-15, 29-37, 52-62, lib/analysis/tfidf.ts:13-17) are plain JavaScript objects. `counts[token] || 0` reads keys that every object inherits. Tokens are lowercase, so two tokens are affected: "constructor" and "__proto__". For "constructor" the source reads the inherited `Object` function and stores a string such as `"function Object() { [native code] }1"`. Its weight and TF are then NaN, and the sort comparators (lib/analysis/ngrams.ts:21, 88) return NaN, so where it ranks depends on the JavaScript engine. For "__proto__" the assignment of a string is ignored, so the token is never stored. The model counts both as ordinary tokens. Its claims about counts, completeness, order, term frequencies and the scores built on them describe the source only for texts without these two tokens. Bigram and trigram keys contain a space, so they are never inherited keys.
- NGrams.TallyCounts: each count is the item's multiplicity for every item. In the source "constructor" gets a string count and "__proto__" is never stored.
- NGrams.TableCharacterised: exact counts and "every qualifying window is listed" hold in the source only for unigram tables without "constructor" or "__proto__". Bigram and trigram tables are unaffected.
- NGrams.UnigramsCharacterised: exact counts, completeness and non-increasing order hold in the source only for texts without the tokens "constructor" and "__proto__".
- NGrams.AllNGramsCharacterised: non-increasing weights and "no dropped candidate outweighs a kept one" hold in the source only when the unigram "constructor" is absent, whose weight would be NaN.
- Similarity.CalculateTF: occurrences / token count for every distinct token. In the source "constructor" gets NaN and "__proto__" gets no entry.
- Similarity.TermFrequencyBounds: the (0, 1] bound fails in the source for "constructor", whose TF is NaN.
- Similarity.SemanticSimilarityBounds: assumes a cosine in [0, 1]. In the source the cosine is NaN when either text contains the token "constructor".
- Scoring.ScoreBounds: the [0, 100] bound rests on the same cosine assumption. In the source the final score is NaN when the résumé or the job description contains the token "constructor".
- **Math.random.** The random pick in `generateKeywordExample` is the parameter `pick`, a function from the keyword's index to a natural number. Its value mod 4 selects the template.
- **Floating point.** Scores and ratios are exact reals. Rounding differences of IEEE doubles are not modelled.
- **Unicode.** Lowercasing, `\w` and `\s` are ASCII-only. The box-drawing characters of the table check are the listed code points.
- **n-gram tie order.** Ties in the n-gram sort are not modelled, because `Object.entries` lists integer-like keys first. The model keeps first-occurrence order under a stable sort, and no lemma states the order among equal counts or weights.
- **Suggestion texts.** Recommendation and example texts are the symbolic `Suggestions.Message` values; `Suggestions.Render` spells them out. The lemmas speak about the messages, not about the rendered strings.
- Suggestions.KeywordExample: states only that the example is `KeywordTemplate(keyword, i)` for some template index i < 4, not which index the random draw picks.
- Suggestions.GenerateSuggestions: the unused `currentScore` argument is carried but plays no part, as in the source.
- Scoring.KeywordMatchOf: an empty keyword list gives `None` where the source computes NaN (0/0). Nothing is claimed about the NaN's later arithmetic.
- Scoring.KeywordRateMonotone: requires a non-negative rate. Rates are matched/total, so every rate the program can form is non-negative.
- **Global-regex counts.** `Strings.MatchCount` counts literal occurrences. This mirrors the global regular expression for keywords made of `[a-z0-9_ -]`, which are the only keywords `calculateATSScore` forms. Regular-expression syntax inside a keyword is not modelled.
- **Client-supplied keywords.** The suggestion route (app/api/suggest-improvements/route.ts:8, 17-23) passes a request's `missingKeywords` straight to `generateSuggestions`. There a keyword becomes `new RegExp(keyword, 'g')` (lib/analysis/suggestions.ts:86, lib/analysis/keywords.ts:85). A keyword such as "c++" makes the constructor throw, and "node.js" also matches "nodexjs". The model counts literal occurrences, so it follows the source only for keywords over `[a-z0-9_ -]`.
- Keywords.CalculateKeywordDensity: counts literal occurrences. It agrees with the source's regular-expression count only for keywords without regular-expression syntax, which holds for every keyword `calculateATSScore` passes.
- Suggestions.GenerateSuggestions: the density warnings rest on the same literal count. For client-supplied keywords that contain regular-expression syntax, the source may throw or count other matches.
- **Skill markers.** Marker matches are taken at every position where the marker occurs. No marker phrase can overlap a later match of itself, so this equals the left-to-right `matchAll`.
- **Preferred skills.** `detectPreferredSkills` and its marker list (lib/analysis/skills.ts:13-19, 92-95) are not modelled. Nothing in the scoring path calls them.
- **normalizeWord.** `normalizeWord` (lib/utils/text.ts:88-90) is not called by the scoring engine and is not modelled.
- **Distribution details.** Details are kept as a list in major-section order instead of a dictionary keyed by section name.
- **Effects.** There is no I/O, network or clock in the core. The user interface, the HTTP routes, the Gemini client, document parsing and build configuration are not part of this model.
- **Quality label names.** The label the source calls `'medium'` is the constructor `Average`, to keep it distinct from the suggestion priority `Medium`.
