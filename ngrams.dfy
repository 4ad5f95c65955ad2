/**
 * N-gram keyword extraction (lib/analysis/ngrams.ts): frequency tables of single words,
 * word pairs and word triples of the tokenised text, merged by weight.
 */
module NGrams {
  import opened Chars
  import opened Strings
  import opened Seqs
  import opened Stopwords
  import opened TextUtils

  datatype Kind = Unigram | Bigram | Trigram

  /** An n-gram with its number of occurrences. */
  datatype NGram = NGram(text: string, count: nat, kind: Kind)

  /** Number of words of an n-gram of the kind. */
  function Size(kind: Kind): nat {
    match kind
    case Unigram => 1
    case Bigram => 2
    case Trigram => 3
  }

  function TextOf(g: NGram): string { g.text }

  function CountOf(g: NGram): int { g.count }

  // ---------------------------------------------------------------- the frequency table

  /** A dictionary from n-gram text to count, with its keys in insertion order. */
  datatype Counts = Counts(keys: seq<string>, counts: map<string, nat>)

  const NoCounts := Counts([], map[])

  /** `counts[k] = (counts[k] || 0) + 1`. */
  function Bump(c: Counts, k: string): Counts {
    if k in c.counts then Counts(c.keys, c.counts[k := c.counts[k] + 1])
    else Counts(c.keys + [k], c.counts[k := 1])
  }

  /** The table after counting `xs` in order. */
  function Tally(xs: seq<string>): Counts
    decreases |xs|
  {
    if xs == [] then NoCounts else Bump(Tally(xs[..|xs| - 1]), xs[|xs| - 1])
  }

  /** The keys are the distinct elements in first-occurrence order; each count is a multiplicity. */
  lemma {:induction false} TallyCounts(xs: seq<string>)
    ensures Tally(xs).keys == Dedup(xs)
    ensures forall k :: k in Tally(xs).counts <==> k in xs
    ensures forall k :: k in Tally(xs).counts ==> Tally(xs).counts[k] == multiset(xs)[k]
    decreases |xs|
  {
    if xs != [] {
      var init := xs[..|xs| - 1];
      var x := xs[|xs| - 1];
      TallyCounts(init);
      AddAllProps([], init);
      assert xs == init + [x];
    }
  }

  /** `Object.entries(counts).map(...)`: one n-gram per key, in key order. */
  function Entries(keys: seq<string>, counts: map<string, nat>, kind: Kind): (r: seq<NGram>)
    ensures |r| == |keys|
    ensures forall i :: 0 <= i < |r| ==> r[i].text == keys[i] && r[i].kind == kind
    ensures forall i :: 0 <= i < |r| ==> keys[i] in counts ==> r[i].count == counts[keys[i]]
    decreases |keys|
  {
    if keys == [] then []
    else [NGram(keys[0], if keys[0] in counts then counts[keys[0]] else 0, kind)] + Entries(keys[1..], counts, kind)
  }

  lemma {:induction false} EntriesAppend(keys: seq<string>, k: string, counts: map<string, nat>, kind: Kind)
    ensures Entries(keys + [k], counts, kind) == Entries(keys, counts, kind) + Entries([k], counts, kind)
    decreases |keys|
  {
    if keys != [] {
      assert (keys + [k])[1..] == keys[1..] + [k];
      EntriesAppend(keys[1..], k, counts, kind);
    }
  }

  lemma {:induction false} SumByAppend<T>(s: seq<T>, t: seq<T>, f: T -> int)
    ensures SumBy(s + t, f) == SumBy(s, f) + SumBy(t, f)
    decreases |s|
  {
    if s == [] {
      assert s + t == t;
    } else {
      assert (s + t)[1..] == s[1..] + t;
      SumByAppend(s[1..], t, f);
    }
  }

  /** Raising the count of a key not in the list leaves the sum of the listed counts alone. */
  lemma {:induction false} EntriesSumOther(keys: seq<string>, counts: map<string, nat>, k: string, v: nat, kind: Kind)
    requires k !in keys
    ensures SumBy(Entries(keys, counts[k := v], kind), CountOf) == SumBy(Entries(keys, counts, kind), CountOf)
    decreases |keys|
  {
    if keys != [] {
      EntriesSumOther(keys[1..], counts, k, v, kind);
    }
  }

  /** Raising the count of a listed key by one raises the sum by one. */
  lemma {:induction false} EntriesSumBump(keys: seq<string>, counts: map<string, nat>, k: string, kind: Kind)
    requires NoDup(keys) && k in keys && k in counts
    ensures SumBy(Entries(keys, counts[k := counts[k] + 1], kind), CountOf) == SumBy(Entries(keys, counts, kind), CountOf) + 1
    decreases |keys|
  {
    if keys[0] == k {
      assert k !in keys[1..] by {
        forall j | 0 <= j < |keys[1..]|
          ensures keys[1..][j] != k
        {
          assert keys[1 + j] != keys[0];
        }
      }
      EntriesSumOther(keys[1..], counts, k, counts[k] + 1, kind);
    } else {
      EntriesSumBump(keys[1..], counts, k, kind);
    }
  }

  /** The counts of the table add up to the number of items counted. */
  lemma {:induction false} TallySum(xs: seq<string>, kind: Kind)
    ensures SumBy(Entries(Tally(xs).keys, Tally(xs).counts, kind), CountOf) == |xs|
    decreases |xs|
  {
    if xs != [] {
      var init := xs[..|xs| - 1];
      var x := xs[|xs| - 1];
      var c := Tally(init);
      TallySum(init, kind);
      TallyCounts(init);
      DedupProps(init);
      if x in c.counts {
        EntriesSumBump(c.keys, c.counts, x, kind);
      } else {
        EntriesAppend(c.keys, x, c.counts[x := 1], kind);
        SumByAppend(Entries(c.keys, c.counts[x := 1], kind), Entries([x], c.counts[x := 1], kind), CountOf);
        EntriesSumOther(c.keys, c.counts, x, 1, kind);
      }
    }
  }

  // ---------------------------------------------------------------- windows of tokens

  /** A word worth counting: longer than two characters and not a stop word. */
  predicate Qualifies(w: string) {
    |w| > 2 && !IsStopword(w)
  }

  /** Every word of the window of `n` tokens at `i` qualifies. */
  predicate ValidWindow(tokens: seq<string>, i: int, n: int)
    requires 0 <= i && 0 <= n && i + n <= |tokens|
  {
    forall k :: i <= k < i + n ==> Qualifies(tokens[k])
  }

  /** The words of the window joined by single spaces. */
  function WindowText(tokens: seq<string>, i: int, n: int): string
    requires 0 <= i && 0 <= n && i + n <= |tokens|
  {
    Join(tokens[i..i + n], ' ')
  }

  /** The texts of the valid windows of `n` tokens starting before `m`, in order. */
  function WindowsUpTo(tokens: seq<string>, n: nat, m: nat): seq<string>
    requires n >= 1 && m <= WindowCount(tokens, n)
    decreases m
  {
    if m == 0 then []
    else WindowsUpTo(tokens, n, m - 1) + (if ValidWindow(tokens, m - 1, n) then [WindowText(tokens, m - 1, n)] else [])
  }

  /** The number of windows of `n` tokens. */
  function WindowCount(tokens: seq<string>, n: nat): nat {
    if |tokens| >= n then |tokens| - n + 1 else 0
  }

  /** The texts the counting loop adds to the table, in order. */
  function Candidates(tokens: seq<string>, n: nat): seq<string>
    requires n >= 1
  {
    WindowsUpTo(tokens, n, WindowCount(tokens, n))
  }

  /** For single words the candidates are the qualifying tokens. */
  lemma {:induction false} UnigramCandidates(tokens: seq<string>, m: nat)
    requires m <= |tokens|
    ensures WindowsUpTo(tokens, 1, m) == Filter(tokens[..m], Qualifies)
    decreases m
  {
    if m > 0 {
      UnigramCandidates(tokens, m - 1);
      assert tokens[..m][..m - 1] == tokens[..m - 1];
      assert tokens[m - 1..m] == [tokens[m - 1]];
    }
  }

  /** The loops of `extractUnigrams`, `extractBigrams` and `extractTrigrams`, for `n` words. */
  method CountWindows(tokens: seq<string>, n: nat) returns (counts: Counts)
    requires 1 <= n
    ensures counts == Tally(Candidates(tokens, n))
  {
    counts := NoCounts;
    var i := 0;
    while i < |tokens| - (n - 1)
      invariant 0 <= i <= WindowCount(tokens, n)
      invariant counts == Tally(WindowsUpTo(tokens, n, i))
    {
      var w := WindowsUpTo(tokens, n, i + 1);
      if ValidWindow(tokens, i, n) {
        assert w == WindowsUpTo(tokens, n, i) + [WindowText(tokens, i, n)];
        assert w[..|w| - 1] == WindowsUpTo(tokens, n, i);
        counts := Bump(counts, WindowText(tokens, i, n));
      } else {
        assert w == WindowsUpTo(tokens, n, i);
      }
      i := i + 1;
    }
  }

  // ---------------------------------------------------------------- the three tables

  /** Seen at least twice. */
  predicate Frequent(g: NGram) { g.count >= 2 }

  /** The table of one kind of n-gram, before filtering and sorting. */
  function Table(tokens: seq<string>, kind: Kind): seq<NGram> {
    var c := Tally(Candidates(tokens, Size(kind)));
    Entries(c.keys, c.counts, kind)
  }

  /** `extractUnigrams`, sorted by non-increasing count. */
  function Unigrams(text: string): seq<NGram> {
    SortDesc(Table(Tokenize(text), Unigram), CountOf)
  }

  /** The n-grams of the kind seen at least twice, sorted by non-increasing count. */
  function FrequentTable(tokens: seq<string>, kind: Kind): seq<NGram> {
    SortDesc(Filter(Table(tokens, kind), Frequent), CountOf)
  }

  /** `extractBigrams`. */
  function Bigrams(text: string): seq<NGram> {
    FrequentTable(Tokenize(text), Bigram)
  }

  /** `extractTrigrams`. */
  function Trigrams(text: string): seq<NGram> {
    FrequentTable(Tokenize(text), Trigram)
  }

  method ExtractUnigrams(text: string) returns (r: seq<NGram>)
    ensures r == Unigrams(text)
  {
    var counts := CountWindows(Tokenize(text), 1);
    r := SortDesc(Entries(counts.keys, counts.counts, Unigram), CountOf);
  }

  method ExtractBigrams(text: string) returns (r: seq<NGram>)
    ensures r == Bigrams(text)
  {
    var counts := CountWindows(Tokenize(text), 2);
    r := SortDesc(Filter(Entries(counts.keys, counts.counts, Bigram), Frequent), CountOf);
  }

  method ExtractTrigrams(text: string) returns (r: seq<NGram>)
    ensures r == Trigrams(text)
  {
    var counts := CountWindows(Tokenize(text), 3);
    r := SortDesc(Filter(Entries(counts.keys, counts.counts, Trigram), Frequent), CountOf);
  }

  // ---------------------------------------------------------------- what the tables hold

  /** Each candidate text comes from a valid window. */
  lemma {:induction false} WindowsFromValid(tokens: seq<string>, n: nat, m: nat, x: string)
    requires n >= 1 && m <= WindowCount(tokens, n)
    requires x in WindowsUpTo(tokens, n, m)
    ensures exists i :: 0 <= i < m && ValidWindow(tokens, i, n) && WindowText(tokens, i, n) == x
    decreases m
  {
    if x !in WindowsUpTo(tokens, n, m - 1) {
      assert ValidWindow(tokens, m - 1, n) && WindowText(tokens, m - 1, n) == x;
    } else {
      WindowsFromValid(tokens, n, m - 1, x);
    }
  }

  /** Entries over distinct keys have distinct texts. */
  lemma EntriesDistinct(keys: seq<string>, counts: map<string, nat>, kind: Kind)
    requires NoDup(keys)
    ensures NoDupBy(Entries(keys, counts, kind), TextOf)
  {
    var t := Entries(keys, counts, kind);
    forall i, j | 0 <= i < j < |t|
      ensures TextOf(t[i]) != TextOf(t[j])
    {
      assert t[i].text == keys[i] && t[j].text == keys[j];
    }
  }

  /** Entries over keys drawn from `xs`, counted in `xs`, carry their number of occurrences. */
  lemma EntriesCounted(keys: seq<string>, counts: map<string, nat>, kind: Kind, xs: seq<string>)
    requires forall k :: k in keys ==> k in xs && k in counts
    requires forall k :: k in counts ==> counts[k] == multiset(xs)[k]
    ensures forall g :: g in Entries(keys, counts, kind) ==>
      g.kind == kind && g.text in xs && g.count == multiset(xs)[g.text]
  {
    var t := Entries(keys, counts, kind);
    forall g | g in t
      ensures g.kind == kind && g.text in xs && g.count == multiset(xs)[g.text]
    {
      var i :| 0 <= i < |t| && t[i] == g;
      assert g.text == keys[i];
    }
  }

  /** Entries over keys covering `xs` list every text of `xs`. */
  lemma EntriesCover(keys: seq<string>, counts: map<string, nat>, kind: Kind, xs: seq<string>)
    requires forall k :: k in xs ==> k in keys
    ensures forall x :: x in xs ==> exists g :: g in Entries(keys, counts, kind) && g.text == x
  {
    var t := Entries(keys, counts, kind);
    forall x | x in xs
      ensures exists g :: g in t && g.text == x
    {
      var i :| 0 <= i < |keys| && keys[i] == x;
      assert t[i] in t;
    }
  }

  /** The entries of a tally list each text of `xs` once, with its number of occurrences. */
  lemma TallyEntries(xs: seq<string>, kind: Kind)
    ensures NoDupBy(Entries(Tally(xs).keys, Tally(xs).counts, kind), TextOf)
    ensures forall g :: g in Entries(Tally(xs).keys, Tally(xs).counts, kind) ==>
      g.kind == kind && g.text in xs && g.count == multiset(xs)[g.text]
    ensures forall x :: x in xs ==> exists g :: g in Entries(Tally(xs).keys, Tally(xs).counts, kind) && g.text == x
  {
    TallyCounts(xs);
    DedupProps(xs);
    EntriesDistinct(Tally(xs).keys, Tally(xs).counts, kind);
    EntriesCounted(Tally(xs).keys, Tally(xs).counts, kind, xs);
    EntriesCover(Tally(xs).keys, Tally(xs).counts, kind, xs);
  }

  /**
   * The table lists each candidate text once, with its number of occurrences among the
   * candidates, and its counts add up to the number of candidates.
   */
  lemma TableCharacterised(tokens: seq<string>, kind: Kind)
    ensures NoDupBy(Table(tokens, kind), TextOf)
    ensures forall g :: g in Table(tokens, kind) ==>
      g.kind == kind && g.text in Candidates(tokens, Size(kind)) &&
      g.count == multiset(Candidates(tokens, Size(kind)))[g.text]
    ensures forall x :: x in Candidates(tokens, Size(kind)) ==> exists g :: g in Table(tokens, kind) && g.text == x
    ensures SumBy(Table(tokens, kind), CountOf) == |Candidates(tokens, Size(kind))|
  {
    TallyEntries(Candidates(tokens, Size(kind)), kind);
    TallySum(Candidates(tokens, Size(kind)), kind);
  }

  /** Sorting keeps the entries and makes the counts non-increasing. */
  lemma SortedTable(t: seq<NGram>)
    requires NoDupBy(t, TextOf)
    ensures NoDupBy(SortDesc(t, CountOf), TextOf)
    ensures SortedDesc(SortDesc(t, CountOf), CountOf)
    ensures forall g :: g in SortDesc(t, CountOf) <==> g in t
    ensures SumBy(SortDesc(t, CountOf), CountOf) == SumBy(t, CountOf)
  {
    SortDescProps(t, CountOf);
    SortDescSum(t, CountOf, CountOf);
    PermutationKeepsNoDupBy(t, SortDesc(t, CountOf), TextOf);
    assert forall g :: g in SortDesc(t, CountOf) <==> g in multiset(t);
  }

  /**
   * `extractUnigrams`: distinct qualifying words, each with its number of occurrences
   * among the tokens, sorted by non-increasing count, with counts adding up to the number of
   * qualifying tokens; every qualifying token is listed.
   */
  lemma UnigramsCharacterised(text: string)
    ensures NoDupBy(Unigrams(text), TextOf)
    ensures SortedDesc(Unigrams(text), CountOf)
    ensures forall g :: g in Unigrams(text) ==>
      g.kind == Unigram && Qualifies(g.text) && g.count == multiset(Tokenize(text))[g.text]
    ensures forall w :: w in Tokenize(text) && Qualifies(w) ==> exists g :: g in Unigrams(text) && g.text == w
    ensures SumBy(Unigrams(text), CountOf) == |Filter(Tokenize(text), Qualifies)|
  {
    var tokens := Tokenize(text);
    var t := Table(tokens, Unigram);
    TableCharacterised(tokens, Unigram);
    SortedTable(t);
    UnigramCandidates(tokens, |tokens|);
    assert tokens[..|tokens|] == tokens;
    FilterMembers(tokens, Qualifies);
    forall g | g in t
      ensures Qualifies(g.text) && g.count == multiset(tokens)[g.text]
    {
      FilterMultiplicity(tokens, Qualifies, g.text);
    }
  }

  /** A window of `n` tokens whose text is `x`. */
  predicate FromWindow(tokens: seq<string>, n: nat, x: string) {
    exists i :: 0 <= i && i + n <= |tokens| && ValidWindow(tokens, i, n) && WindowText(tokens, i, n) == x
  }

  lemma CandidatesFromWindows(tokens: seq<string>, n: nat)
    requires n >= 1
    ensures forall x :: x in Candidates(tokens, n) ==> FromWindow(tokens, n, x)
  {
    forall x | x in Candidates(tokens, n)
      ensures FromWindow(tokens, n, x)
    {
      WindowsFromValid(tokens, n, WindowCount(tokens, n), x);
    }
  }

  /** Keeping the frequent entries of a table of `xs`. */
  lemma FilterFrequent(t: seq<NGram>, xs: seq<string>, kind: Kind)
    requires NoDupBy(t, TextOf)
    requires forall g :: g in t ==> g.kind == kind && g.text in xs && g.count == multiset(xs)[g.text]
    requires forall x :: x in xs ==> exists g :: g in t && g.text == x
    ensures NoDupBy(Filter(t, Frequent), TextOf)
    ensures forall g :: g in Filter(t, Frequent) ==>
      g.kind == kind && g.count >= 2 && g.text in xs && g.count == multiset(xs)[g.text]
    ensures forall x :: multiset(xs)[x] >= 2 ==> exists g :: g in Filter(t, Frequent) && g.text == x
  {
    var f := Filter(t, Frequent);
    FilterMembers(t, Frequent);
    FilterIsSubsequence(t, Frequent);
    SubsequenceNoDupBy(f, t, TextOf);
    forall x | multiset(xs)[x] >= 2
      ensures exists g :: g in f && g.text == x
    {
      assert x in multiset(xs);
      assert x in xs;
      var g :| g in t && g.text == x;
      assert g in f;
    }
  }

  lemma FrequentEntries(tokens: seq<string>, kind: Kind)
    ensures NoDupBy(Filter(Table(tokens, kind), Frequent), TextOf)
    ensures forall g :: g in Filter(Table(tokens, kind), Frequent) ==>
      g.kind == kind && g.count >= 2 && g.count == multiset(Candidates(tokens, Size(kind)))[g.text] &&
      FromWindow(tokens, Size(kind), g.text)
    ensures forall x :: multiset(Candidates(tokens, Size(kind)))[x] >= 2 ==>
      exists g :: g in Filter(Table(tokens, kind), Frequent) && g.text == x
  {
    var xs := Candidates(tokens, Size(kind));
    var t := Table(tokens, kind);
    TableCharacterised(tokens, kind);
    CandidatesFromWindows(tokens, Size(kind));
    FilterFrequent(t, xs, kind);
  }

  /**
   * `extractBigrams` and `extractTrigrams`: distinct texts of valid windows seen at least
   * twice, each with its number of occurrences, sorted by non-increasing count; every window
   * text seen at least twice is listed.
   */
  lemma FrequentCharacterised(tokens: seq<string>, kind: Kind)
    ensures NoDupBy(FrequentTable(tokens, kind), TextOf)
    ensures SortedDesc(FrequentTable(tokens, kind), CountOf)
    ensures forall g :: g in FrequentTable(tokens, kind) ==>
      g.kind == kind && g.count >= 2 && g.count == multiset(Candidates(tokens, Size(kind)))[g.text] &&
      FromWindow(tokens, Size(kind), g.text)
    ensures forall x :: multiset(Candidates(tokens, Size(kind)))[x] >= 2 ==>
      exists g :: g in FrequentTable(tokens, kind) && g.text == x
  {
    FrequentEntries(tokens, kind);
    SortedTable(Filter(Table(tokens, kind), Frequent));
  }

  // ---------------------------------------------------------------- spaces and kinds

  /** Tokens hold no spaces, so the window of `n` tokens has `n - 1` of them. */
  lemma WindowSpaces(tokens: seq<string>, i: int, n: int)
    requires 0 <= i && 1 <= n && i + n <= |tokens|
    requires forall k, j :: 0 <= k < |tokens| && 0 <= j < |tokens[k]| ==> tokens[k][j] != ' '
    ensures CountChar(WindowText(tokens, i, n), ' ') == n - 1
  {
    var parts := tokens[i..i + n];
    forall k, j | 0 <= k < |parts| && 0 <= j < |parts[k]|
      ensures parts[k][j] != ' '
    {
      assert parts[k] == tokens[i + k];
    }
    JoinSeparatorCount(parts, ' ');
  }

  /** Each candidate of a token list without spaces has one space fewer than it has words. */
  lemma CandidateSpaces(tokens: seq<string>, n: nat, x: string)
    requires n >= 1
    requires forall k, j :: 0 <= k < |tokens| && 0 <= j < |tokens[k]| ==> IsTokenChar(tokens[k][j])
    requires x in Candidates(tokens, n)
    ensures CountChar(x, ' ') == n - 1
  {
    WindowsFromValid(tokens, n, WindowCount(tokens, n), x);
    var i :| 0 <= i < WindowCount(tokens, n) && ValidWindow(tokens, i, n) && WindowText(tokens, i, n) == x;
    forall k, j | 0 <= k < |tokens| && 0 <= j < |tokens[k]|
      ensures tokens[k][j] != ' '
    {
      assert IsTokenChar(tokens[k][j]);
    }
    WindowSpaces(tokens, i, n);
  }

  /** Every n-gram of the three tables has one space fewer than it has words. */
  lemma TableSpaces(text: string, kind: Kind, g: NGram)
    requires g in Table(Tokenize(text), kind)
    ensures CountChar(g.text, ' ') == Size(kind) - 1
  {
    var tokens := Tokenize(text);
    TableCharacterised(tokens, kind);
    CandidateSpaces(tokens, Size(kind), g.text);
  }

  /** The entries of the three sorted tables are entries of the unsorted ones. */
  lemma ListedInTable(text: string, g: NGram)
    ensures g in Unigrams(text) ==> g in Table(Tokenize(text), Unigram) && g.kind == Unigram
    ensures g in Bigrams(text) ==> g in Table(Tokenize(text), Bigram) && g.kind == Bigram
    ensures g in Trigrams(text) ==> g in Table(Tokenize(text), Trigram) && g.kind == Trigram
  {
    var tokens := Tokenize(text);
    TableCharacterised(tokens, Unigram);
    TableCharacterised(tokens, Bigram);
    TableCharacterised(tokens, Trigram);
    SortedTable(Table(tokens, Unigram));
    FilterMembers(Table(tokens, Bigram), Frequent);
    FilterMembers(Table(tokens, Trigram), Frequent);
    FrequentEntries(tokens, Bigram);
    FrequentEntries(tokens, Trigram);
    SortedTable(Filter(Table(tokens, Bigram), Frequent));
    SortedTable(Filter(Table(tokens, Trigram), Frequent));
  }

  // ---------------------------------------------------------------- extractAllNGrams

  /** An n-gram with the weight the merge ranks it by. */
  datatype Weighted = Weighted(gram: NGram, weight: int)

  function WeightOf(w: Weighted): int { w.weight }

  function GramText(w: Weighted): string { w.gram.text }

  /** The weight of an n-gram: its count times its number of words. */
  function Weight(g: NGram): int { g.count * Size(g.kind) }

  /** `[...gs.map(ng => ({ ...ng, weight: ng.count * factor }))]`. */
  function WithWeight(gs: seq<NGram>, factor: nat): seq<Weighted> {
    seq(|gs|, i requires 0 <= i < |gs| => Weighted(gs[i], gs[i].count * factor))
  }

  /** `.map(({ text, count, type }) => ({ text, count, type }))`: the weight is dropped. */
  function Unweigh(ws: seq<Weighted>): seq<NGram> {
    seq(|ws|, i requires 0 <= i < |ws| => ws[i].gram)
  }

  /** Dropping the weight gives back the n-grams that were weighted, whatever the factor. */
  lemma UnweighWithWeight(gs: seq<NGram>, factor: nat)
    ensures Unweigh(WithWeight(gs, factor)) == gs
  {
  }

  /** Trigrams, then bigrams, then unigrams, each weighted. */
  function Merged(text: string): seq<Weighted> {
    WithWeight(Trigrams(text), 3) + WithWeight(Bigrams(text), 2) + WithWeight(Unigrams(text), 1)
  }

  /** The merged list sorted by non-increasing weight. */
  function Ranked(text: string): seq<Weighted> {
    SortDesc(Merged(text), WeightOf)
  }

  /** `extractAllNGrams(text, maxCount)`. */
  function AllNGrams(text: string, maxCount: nat): (r: seq<NGram>)
    ensures |r| <= maxCount
  {
    Unweigh(Take(Ranked(text), maxCount))
  }

  /** Every merged entry carries the weight of its n-gram, and comes from one of the tables. */
  lemma MergedEntries(text: string)
    ensures forall w :: w in Merged(text) ==> w.weight == Weight(w.gram)
    ensures forall w :: w in Merged(text) ==> w.gram in Trigrams(text) || w.gram in Bigrams(text) || w.gram in Unigrams(text)
    ensures forall w :: w in Merged(text) ==> CountChar(w.gram.text, ' ') == Size(w.gram.kind) - 1
  {
    var t3 := WithWeight(Trigrams(text), 3);
    var t2 := WithWeight(Bigrams(text), 2);
    var t1 := WithWeight(Unigrams(text), 1);
    forall w | w in Merged(text)
      ensures w.weight == Weight(w.gram)
      ensures w.gram in Trigrams(text) || w.gram in Bigrams(text) || w.gram in Unigrams(text)
      ensures CountChar(w.gram.text, ' ') == Size(w.gram.kind) - 1
    {
      ListedInTable(text, w.gram);
      if w in t3 {
        var i :| 0 <= i < |t3| && t3[i] == w;
        assert w.gram in Trigrams(text);
        TableSpaces(text, Trigram, w.gram);
      } else if w in t2 {
        var i :| 0 <= i < |t2| && t2[i] == w;
        assert w.gram in Bigrams(text);
        TableSpaces(text, Bigram, w.gram);
      } else {
        assert w in t1;
        var i :| 0 <= i < |t1| && t1[i] == w;
        assert w.gram in Unigrams(text);
        TableSpaces(text, Unigram, w.gram);
      }
    }
  }

  lemma WithWeightNoDup(gs: seq<NGram>, factor: nat)
    requires NoDupBy(gs, TextOf)
    ensures NoDupBy(WithWeight(gs, factor), GramText)
  {
    var r := WithWeight(gs, factor);
    forall i, j | 0 <= i < j < |r|
      ensures GramText(r[i]) != GramText(r[j])
    {
      assert TextOf(gs[i]) != TextOf(gs[j]);
    }
  }

  /** Three weighted tables whose texts have 2, 1 and 0 spaces share no text. */
  lemma ThreeTablesNoDup(t3: seq<Weighted>, t2: seq<Weighted>, t1: seq<Weighted>)
    requires NoDupBy(t3, GramText) && NoDupBy(t2, GramText) && NoDupBy(t1, GramText)
    requires forall w :: w in t3 ==> CountChar(w.gram.text, ' ') == 2
    requires forall w :: w in t2 ==> CountChar(w.gram.text, ' ') == 1
    requires forall w :: w in t1 ==> CountChar(w.gram.text, ' ') == 0
    ensures NoDupBy(t3 + t2 + t1, GramText)
  {
    forall i, j | 0 <= i < |t3| && 0 <= j < |t2|
      ensures GramText(t3[i]) != GramText(t2[j])
    {
      assert t3[i] in t3 && t2[j] in t2;
    }
    NoDupByConcat(t3, t2, GramText);
    forall i, j | 0 <= i < |t3 + t2| && 0 <= j < |t1|
      ensures GramText((t3 + t2)[i]) != GramText(t1[j])
    {
      assert (t3 + t2)[i] in t3 || (t3 + t2)[i] in t2;
      assert t1[j] in t1;
    }
    NoDupByConcat(t3 + t2, t1, GramText);
  }

  lemma WeightedSpaces(text: string, t: seq<Weighted>, kind: Kind)
    requires forall w :: w in t ==> w in Merged(text) && w.gram.kind == kind
    ensures forall w :: w in t ==> CountChar(w.gram.text, ' ') == Size(kind) - 1
  {
    MergedEntries(text);
  }

  lemma TableKinds(text: string)
    ensures forall g :: g in Trigrams(text) ==> g.kind == Trigram
    ensures forall g :: g in Bigrams(text) ==> g.kind == Bigram
    ensures forall g :: g in Unigrams(text) ==> g.kind == Unigram
  {
    forall g | g in Trigrams(text) || g in Bigrams(text) || g in Unigrams(text)
      ensures g in Trigrams(text) ==> g.kind == Trigram
      ensures g in Bigrams(text) ==> g.kind == Bigram
      ensures g in Unigrams(text) ==> g.kind == Unigram
    {
      ListedInTable(text, g);
    }
  }

  lemma TablesNoDup(text: string)
    ensures NoDupBy(Trigrams(text), TextOf) && NoDupBy(Bigrams(text), TextOf) && NoDupBy(Unigrams(text), TextOf)
  {
    UnigramsCharacterised(text);
    FrequentCharacterised(Tokenize(text), Bigram);
    FrequentCharacterised(Tokenize(text), Trigram);
  }

  lemma WeightedKinds(gs: seq<NGram>, factor: nat, kind: Kind)
    requires forall g :: g in gs ==> g.kind == kind
    ensures forall w :: w in WithWeight(gs, factor) ==> w.gram.kind == kind
  {
    forall w | w in WithWeight(gs, factor)
      ensures w.gram.kind == kind
    {
      var i :| 0 <= i < |gs| && WithWeight(gs, factor)[i] == w;
      assert gs[i] in gs;
    }
  }

  /** No text occurs twice in the merged list: within a table by construction, across by the spaces. */
  lemma MergedNoDup(text: string)
    ensures NoDupBy(Merged(text), GramText)
  {
    var t3 := WithWeight(Trigrams(text), 3);
    var t2 := WithWeight(Bigrams(text), 2);
    var t1 := WithWeight(Unigrams(text), 1);
    TablesNoDup(text);
    WithWeightNoDup(Trigrams(text), 3);
    WithWeightNoDup(Bigrams(text), 2);
    WithWeightNoDup(Unigrams(text), 1);
    TableKinds(text);
    WeightedKinds(Trigrams(text), 3, Trigram);
    WeightedKinds(Bigrams(text), 2, Bigram);
    WeightedKinds(Unigrams(text), 1, Unigram);
    assert Merged(text) == t3 + t2 + t1;
    WeightedSpaces(text, t3, Trigram);
    WeightedSpaces(text, t2, Bigram);
    WeightedSpaces(text, t1, Unigram);
    ThreeTablesNoDup(t3, t2, t1);
  }

  /** Ranking a weighted list with distinct texts and then cutting it to `maxCount`. */
  lemma RankAndCut(m: seq<Weighted>, maxCount: nat)
    requires NoDupBy(m, GramText)
    requires forall w :: w in m ==> w.weight == Weight(w.gram)
    ensures var s := SortDesc(m, WeightOf);
      var r := Unweigh(Take(s, maxCount));
      multiset(s) == multiset(m) &&
      |r| == (if maxCount < |m| then maxCount else |m|) &&
      NoDupBy(r, TextOf) &&
      (forall i, j :: 0 <= i < j < |r| ==> Weight(r[i]) >= Weight(r[j])) &&
      (forall g :: g in r ==> exists w :: w in m && w.gram == g) &&
      (forall i, j :: 0 <= i < |r| <= j < |s| ==> Weight(r[i]) >= s[j].weight)
  {
    var s := SortDesc(m, WeightOf);
    var r := Unweigh(Take(s, maxCount));
    SortDescProps(m, WeightOf);
    PermutationKeepsNoDupBy(m, s, GramText);
    forall i, j | 0 <= i < j < |r|
      ensures TextOf(r[i]) != TextOf(r[j])
    {
      assert GramText(s[i]) != GramText(s[j]);
    }
    forall i | 0 <= i < |r|
      ensures Weight(r[i]) == s[i].weight
    {
      assert s[i] in multiset(m);
    }
    forall g | g in r
      ensures exists w :: w in m && w.gram == g
    {
      var i :| 0 <= i < |r| && r[i] == g;
      assert s[i] in multiset(m);
    }
  }

  /**
   * `extractAllNGrams`: at most `maxCount` n-grams with distinct texts, in non-increasing
   * weight, each unchanged from one of the three tables and with one space fewer than its
   * words; nothing left out of the ranking weighs more than anything kept.
   */
  lemma AllNGramsCharacterised(text: string, maxCount: nat)
    ensures |AllNGrams(text, maxCount)| == if maxCount < |Merged(text)| then maxCount else |Merged(text)|
    ensures NoDupBy(AllNGrams(text, maxCount), TextOf)
    ensures forall i, j :: 0 <= i < j < |AllNGrams(text, maxCount)| ==>
      Weight(AllNGrams(text, maxCount)[i]) >= Weight(AllNGrams(text, maxCount)[j])
    ensures forall g :: g in AllNGrams(text, maxCount) ==>
      (g in Trigrams(text) || g in Bigrams(text) || g in Unigrams(text)) &&
      CountChar(g.text, ' ') == Size(g.kind) - 1
    ensures multiset(Ranked(text)) == multiset(Merged(text))
    ensures forall i, j :: 0 <= i < |AllNGrams(text, maxCount)| <= j < |Ranked(text)| ==>
      Weight(AllNGrams(text, maxCount)[i]) >= Ranked(text)[j].weight
  {
    MergedEntries(text);
    MergedNoDup(text);
    RankAndCut(Merged(text), maxCount);
  }

  /** A character of an n-gram text: a token character or the joining space. */
  predicate IsKeywordChar(c: char) {
    IsTokenChar(c) || c == ' '
  }

  /** Joining non-empty tokens of token characters gives a non-empty text of keyword characters. */
  lemma CandidateTexts(tokens: seq<string>, n: nat, x: string)
    requires n >= 1
    requires forall k :: 0 <= k < |tokens| ==> |tokens[k]| > 0
    requires forall k, j :: 0 <= k < |tokens| && 0 <= j < |tokens[k]| ==> IsTokenChar(tokens[k][j])
    requires x in Candidates(tokens, n)
    ensures |x| > 0
    ensures forall i :: 0 <= i < |x| ==> IsKeywordChar(x[i])
  {
    WindowsFromValid(tokens, n, WindowCount(tokens, n), x);
    var i :| 0 <= i < WindowCount(tokens, n) && ValidWindow(tokens, i, n) && WindowText(tokens, i, n) == x;
    var parts := tokens[i..i + n];
    assert parts[0] == tokens[i];
    assert |Join(parts, ' ')| >= |parts[0]|;
    forall k, j | 0 <= k < |parts| && 0 <= j < |parts[k]|
      ensures IsKeywordChar(parts[k][j])
    {
      assert parts[k] == tokens[i + k];
    }
    JoinChars(parts, ' ', IsKeywordChar);
  }

  /** N-gram texts are non-empty and spell only lowercase letters, digits, `_`, `-` and spaces. */
  lemma TableTexts(text: string, kind: Kind, g: NGram)
    requires g in Table(Tokenize(text), kind)
    ensures |g.text| > 0
    ensures forall i :: 0 <= i < |g.text| ==> IsKeywordChar(g.text[i])
  {
    var tokens := Tokenize(text);
    TableCharacterised(tokens, kind);
    CandidateTexts(tokens, Size(kind), g.text);
  }

  lemma AllNGramsTexts(text: string, maxCount: nat)
    ensures forall g :: g in AllNGrams(text, maxCount) ==>
      |g.text| > 0 && forall i :: 0 <= i < |g.text| ==> IsKeywordChar(g.text[i])
  {
    AllNGramsCharacterised(text, maxCount);
    forall g | g in AllNGrams(text, maxCount)
      ensures |g.text| > 0 && forall i :: 0 <= i < |g.text| ==> IsKeywordChar(g.text[i])
    {
      ListedInTable(text, g);
      TableTexts(text, g.kind, g);
    }
  }
}
