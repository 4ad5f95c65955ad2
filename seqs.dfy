/**
 * Sequence operations the engine builds on: `Array.prototype.filter`, `slice`, the
 * insertion-ordered `Set`, the stable `sort` by a numeric key, and subsequences.
 */
module Seqs {

  /** `s.filter(p)`, defined from the right so that it follows a loop that pushes. */
  function Filter<T>(s: seq<T>, p: T -> bool): (r: seq<T>)
    decreases |s|
  {
    if s == [] then [] else Filter(s[..|s| - 1], p) + (if p(s[|s| - 1]) then [s[|s| - 1]] else [])
  }

  /** One more element is kept exactly when it satisfies `p`. */
  lemma FilterStep<T>(s: seq<T>, j: nat, p: T -> bool)
    requires j < |s|
    ensures Filter(s[..j + 1], p) == Filter(s[..j], p) + (if p(s[j]) then [s[j]] else [])
  {
    assert s[..j + 1][..j] == s[..j];
  }

  lemma {:induction false} FilterMembers<T>(s: seq<T>, p: T -> bool)
    ensures |Filter(s, p)| <= |s|
    ensures forall x :: x in Filter(s, p) <==> x in s && p(x)
    decreases |s|
  {
    if s != [] {
      FilterMembers(s[..|s| - 1], p);
      assert s == s[..|s| - 1] + [s[|s| - 1]];
    }
  }

  lemma {:induction false} FilterAppend<T>(s: seq<T>, t: seq<T>, p: T -> bool)
    ensures Filter(s + t, p) == Filter(s, p) + Filter(t, p)
    decreases |t|
  {
    if t == [] {
      assert s + t == s;
    } else {
      assert (s + t)[..|s + t| - 1] == s + t[..|t| - 1];
      FilterAppend(s, t[..|t| - 1], p);
    }
  }

  /** Nothing passes a filter that rejects every element. */
  lemma {:induction false} FilterNone<T>(s: seq<T>, p: T -> bool)
    requires forall k :: 0 <= k < |s| ==> !p(s[k])
    ensures Filter(s, p) == []
    decreases |s|
  {
    if s != [] {
      FilterNone(s[..|s| - 1], p);
    }
  }

  /** A filter keeps every copy of an element it accepts. */
  lemma {:induction false} FilterMultiplicity<T>(s: seq<T>, p: T -> bool, x: T)
    requires p(x)
    ensures multiset(Filter(s, p))[x] == multiset(s)[x]
    decreases |s|
  {
    if s != [] {
      FilterMultiplicity(s[..|s| - 1], p, x);
      assert s == s[..|s| - 1] + [s[|s| - 1]];
    }
  }

  /** Filtering by `p` and by its complement `q` splits `s` into two parts that together make it up. */
  lemma {:induction false} FilterPartition<T>(s: seq<T>, p: T -> bool, q: T -> bool)
    requires forall x :: q(x) <==> !p(x)
    ensures |Filter(s, p)| + |Filter(s, q)| == |s|
    ensures multiset(Filter(s, p)) + multiset(Filter(s, q)) == multiset(s)
    decreases |s|
  {
    if s != [] {
      FilterPartition(s[..|s| - 1], p, q);
      assert s == s[..|s| - 1] + [s[|s| - 1]];
    }
  }

  /** The filtered sequence keeps the order of `s`. */
  lemma {:induction false} FilterIsSubsequence<T>(s: seq<T>, p: T -> bool)
    ensures IsSubsequence(Filter(s, p), s)
    decreases |s|
  {
    if s != [] {
      var init := s[..|s| - 1];
      var x := s[|s| - 1];
      assert s == init + [x];
      FilterIsSubsequence(init, p);
      var f := Filter(s, p);
      if p(x) {
        assert f == Filter(init, p) + [x];
        assert f[..|f| - 1] == Filter(init, p);
      } else {
        assert f == Filter(init, p);
        SubsequenceExtend(Filter(init, p), init, x);
      }
    }
  }

  /** Filters that agree on the elements of `s` keep the same elements of it. */
  lemma {:induction false} FilterCongruent<T>(s: seq<T>, p: T -> bool, q: T -> bool)
    requires forall i :: 0 <= i < |s| ==> p(s[i]) == q(s[i])
    ensures Filter(s, p) == Filter(s, q)
    decreases |s|
  {
    if s != [] {
      FilterCongruent(s[..|s| - 1], p, q);
    }
  }

  /** Filtering out only elements that `p` rejects anyway does not change a filter by `p`. */
  lemma {:induction false} FilterOfFilter<T>(s: seq<T>, keep: T -> bool, p: T -> bool)
    requires forall x :: x in s && !keep(x) ==> !p(x)
    ensures Filter(Filter(s, keep), p) == Filter(s, p)
    decreases |s|
  {
    if s != [] {
      var init := s[..|s| - 1];
      var x := s[|s| - 1];
      assert forall y :: y in init ==> y in s;
      FilterOfFilter(init, keep, p);
      if keep(x) {
        assert Filter(s, keep) == Filter(init, keep) + [x];
        FilterAppend(Filter(init, keep), [x], p);
        assert Filter([x], p) == (if p(x) then [x] else []) by {
          assert [x][..0] == [];
        }
      } else {
        assert Filter(s, keep) == Filter(init, keep);
        assert !p(x);
      }
    }
  }

  /** Filtering twice keeps what both filters keep. */
  lemma {:induction false} FilterBoth<T>(s: seq<T>, p: T -> bool, q: T -> bool, both: T -> bool)
    requires forall x :: both(x) == (p(x) && q(x))
    ensures Filter(Filter(s, p), q) == Filter(s, both)
    decreases |s|
  {
    if s != [] {
      var init := s[..|s| - 1];
      var x := s[|s| - 1];
      FilterBoth(init, p, q, both);
      if p(x) {
        assert Filter(s, p) == Filter(init, p) + [x];
        FilterAppend(Filter(init, p), [x], q);
        assert Filter([x], q) == (if q(x) then [x] else []) by {
          assert [x][..0] == [];
        }
      } else {
        assert Filter(s, p) == Filter(init, p);
      }
    }
  }

  // ---------------------------------------------------------------- maps

  /** `xs.map(f)`, defined from the right so that it follows a loop that pushes. */
  function Map<X, Y>(xs: seq<X>, f: X -> Y): (r: seq<Y>)
    ensures |r| == |xs|
    decreases |xs|
  {
    if xs == [] then [] else Map(xs[..|xs| - 1], f) + [f(xs[|xs| - 1])]
  }

  /** `xs.map((x, i) => f(x, i))`: the callback also sees the index. */
  function MapWithIndex<X, Y>(xs: seq<X>, f: (X, nat) -> Y): (r: seq<Y>)
    ensures |r| == |xs|
    decreases |xs|
  {
    if xs == [] then [] else MapWithIndex(xs[..|xs| - 1], f) + [f(xs[|xs| - 1], |xs| - 1)]
  }

  lemma {:induction false} MapAt<X, Y>(xs: seq<X>, f: X -> Y)
    ensures forall i :: 0 <= i < |xs| ==> Map(xs, f)[i] == f(xs[i])
    decreases |xs|
  {
    if xs != [] {
      var init := xs[..|xs| - 1];
      MapAt(init, f);
      assert forall i :: 0 <= i < |init| ==> init[i] == xs[i];
    }
  }

  lemma {:induction false} MapWithIndexAt<X, Y>(xs: seq<X>, f: (X, nat) -> Y)
    ensures forall i :: 0 <= i < |xs| ==> MapWithIndex(xs, f)[i] == f(xs[i], i)
    decreases |xs|
  {
    if xs != [] {
      var init := xs[..|xs| - 1];
      MapWithIndexAt(init, f);
      assert forall i :: 0 <= i < |init| ==> init[i] == xs[i];
    }
  }

  lemma MapStep<X, Y>(xs: seq<X>, j: nat, f: X -> Y)
    requires j < |xs|
    ensures Map(xs[..j + 1], f) == Map(xs[..j], f) + [f(xs[j])]
  {
    assert xs[..j + 1][..j] == xs[..j];
  }

  lemma MapWithIndexStep<X, Y>(xs: seq<X>, j: nat, f: (X, nat) -> Y)
    requires j < |xs|
    ensures MapWithIndex(xs[..j + 1], f) == MapWithIndex(xs[..j], f) + [f(xs[j], j)]
  {
    assert xs[..j + 1][..j] == xs[..j];
  }

  // ---------------------------------------------------------------- slices

  /** The prefix of full length is the whole sequence. */
  lemma PrefixAll<T>(s: seq<T>)
    ensures s[..|s|] == s
  {
  }

  /** `s.slice(start, end)` for indices that are not negative. */
  function Slice<T>(s: seq<T>, start: nat, end: nat): (r: seq<T>)
    ensures |r| <= |s|
  {
    var b := if end < |s| then end else |s|;
    var a := if start < b then start else b;
    s[a..b]
  }

  /** `s.slice(0, n)`: the first `n` elements, or all of them when there are fewer. */
  function Take<T>(s: seq<T>, n: nat): (r: seq<T>)
    ensures |r| == if n < |s| then n else |s|
    ensures r == s[..|r|]
  {
    Slice(s, 0, n)
  }

  /** The elements of a prefix are elements of the sequence. */
  lemma TakeMembers<T>(s: seq<T>, n: nat)
    ensures forall x :: x in Take(s, n) ==> x in s
  {
    forall x | x in Take(s, n)
      ensures x in s
    {
      var i :| 0 <= i < |Take(s, n)| && Take(s, n)[i] == x;
      assert s[i] == x;
    }
  }

  /** The three parts of a concatenation can be read back from it. */
  lemma ConcatParts<T>(a: seq<T>, b: seq<T>, c: seq<T>)
    ensures (a + b + c)[..|a|] == a
    ensures (a + b + c)[|a|..|a| + |b|] == b
    ensures (a + b + c)[|a| + |b|..] == c
  {
  }

  // ---------------------------------------------------------------- duplicates and sets

  /** No element occurs twice. */
  predicate NoDup<T(==)>(s: seq<T>) {
    forall i, j :: 0 <= i < j < |s| ==> s[i] != s[j]
  }

  /** No two elements share a key. */
  predicate NoDupBy<T, K(==)>(s: seq<T>, key: T -> K) {
    forall i, j :: 0 <= i < j < |s| ==> key(s[i]) != key(s[j])
  }

  /**
   * Adding the elements of `xs`, in order, to an insertion-ordered `Set` that holds `acc`;
   * `Array.from` of the set is the result.
   */
  function AddAll<T(==)>(acc: seq<T>, xs: seq<T>): seq<T>
    decreases |xs|
  {
    if xs == [] then acc
    else
      var r := AddAll(acc, xs[..|xs| - 1]);
      var x := xs[|xs| - 1];
      if x in r then r else r + [x]
  }

  /** `[...new Set(xs)]`: the first occurrence of each element, in order. */
  function Dedup<T(==)>(xs: seq<T>): seq<T> {
    AddAll([], xs)
  }

  lemma {:induction false} AddAllProps<T>(acc: seq<T>, xs: seq<T>)
    ensures NoDup(acc) ==> NoDup(AddAll(acc, xs))
    ensures forall x :: x in AddAll(acc, xs) <==> x in acc || x in xs
    ensures |acc| <= |AddAll(acc, xs)| && AddAll(acc, xs)[..|acc|] == acc
    decreases |xs|
  {
    if xs != [] {
      var init := xs[..|xs| - 1];
      AddAllProps(acc, init);
      assert xs == init + [xs[|xs| - 1]];
    }
  }

  lemma {:induction false} AddAllAppend<T>(acc: seq<T>, xs: seq<T>, ys: seq<T>)
    ensures AddAll(acc, xs + ys) == AddAll(AddAll(acc, xs), ys)
    decreases |ys|
  {
    if ys == [] {
      assert xs + ys == xs;
    } else {
      assert (xs + ys)[..|xs + ys| - 1] == xs + ys[..|ys| - 1];
      AddAllAppend(acc, xs, ys[..|ys| - 1]);
    }
  }

  lemma DedupProps<T>(xs: seq<T>)
    ensures NoDup(Dedup(xs))
    ensures forall x :: x in Dedup(xs) <==> x in xs
  {
    AddAllProps([], xs);
  }

  /** A sequence without duplicates holds each element at most once. */
  lemma {:induction false} NoDupMultiplicity<T>(s: seq<T>, x: T)
    requires NoDup(s)
    ensures multiset(s)[x] <= 1
    decreases |s|
  {
    if s != [] {
      assert s == [s[0]] + s[1..];
      NoDupMultiplicity(s[1..], x);
      if x == s[0] {
        assert x !in s[1..];
      }
    }
  }

  lemma TwiceMultiplicity<T>(s: seq<T>, i: int, j: int)
    requires 0 <= i < j < |s| && s[i] == s[j]
    ensures multiset(s)[s[i]] >= 2
  {
    assert s == s[..i] + [s[i]] + s[i + 1..j] + [s[j]] + s[j + 1..];
  }

  /** A permutation of a sequence whose keys are distinct has distinct keys. */
  lemma PermutationKeepsNoDupBy<T, K>(a: seq<T>, b: seq<T>, key: T -> K)
    requires multiset(a) == multiset(b)
    requires NoDupBy(a, key)
    ensures NoDupBy(b, key)
  {
    forall i, j | 0 <= i < j < |b|
      ensures key(b[i]) != key(b[j])
    {
      assert b[i] in multiset(a) && b[j] in multiset(a);
      assert b[i] in a && b[j] in a;
      var i' :| 0 <= i' < |a| && a[i'] == b[i];
      var j' :| 0 <= j' < |a| && a[j'] == b[j];
      if b[i] == b[j] {
        TwiceMultiplicity(b, i, j);
        assert NoDup(a);
        NoDupMultiplicity(a, b[i]);
        assert false;
      } else {
        assert i' != j';
        if i' < j' {
          assert key(a[i']) != key(a[j']);
        } else {
          assert key(a[j']) != key(a[i']);
        }
      }
    }
  }

  /** A subsequence of a key-distinct sequence is key-distinct. */
  lemma {:induction false} SubsequenceNoDupBy<T, K>(a: seq<T>, b: seq<T>, key: T -> K)
    requires IsSubsequence(a, b) && NoDupBy(b, key)
    ensures NoDupBy(a, key)
    decreases |b|
  {
    if a != [] {
      var b' := b[..|b| - 1];
      assert NoDupBy(b', key);
      if a[|a| - 1] == b[|b| - 1] {
        var a' := a[..|a| - 1];
        SubsequenceNoDupBy(a', b', key);
        SubsequenceMembers(a', b');
        forall i | 0 <= i < |a'|
          ensures key(a'[i]) != key(a[|a| - 1])
        {
          assert a'[i] in b';
          var j :| 0 <= j < |b'| && b'[j] == a'[i];
          assert b[j] == a'[i];
        }
        assert a == a' + [a[|a| - 1]];
      } else {
        SubsequenceNoDupBy(a, b', key);
      }
    }
  }

  /** The elements of a subsequence are elements of the sequence. */
  lemma {:induction false} SubsequenceMembers<T>(a: seq<T>, b: seq<T>)
    requires IsSubsequence(a, b)
    ensures forall x :: x in a ==> x in b
    decreases |b|
  {
    if a != [] {
      var b' := b[..|b| - 1];
      assert b == b' + [b[|b| - 1]];
      if a[|a| - 1] == b[|b| - 1] {
        SubsequenceMembers(a[..|a| - 1], b');
        assert a == a[..|a| - 1] + [a[|a| - 1]];
      } else {
        SubsequenceMembers(a, b');
      }
    }
  }

  /** Two key-distinct sequences whose keys never meet concatenate to a key-distinct sequence. */
  lemma NoDupByConcat<T, K>(a: seq<T>, b: seq<T>, key: T -> K)
    requires NoDupBy(a, key) && NoDupBy(b, key)
    requires forall i, j :: 0 <= i < |a| && 0 <= j < |b| ==> key(a[i]) != key(b[j])
    ensures NoDupBy(a + b, key)
  {
    var c := a + b;
    forall i, j | 0 <= i < j < |c|
      ensures key(c[i]) != key(c[j])
    {
      if j < |a| {
        assert c[i] == a[i] && c[j] == a[j];
      } else if i >= |a| {
        assert c[i] == b[i - |a|] && c[j] == b[j - |a|];
      } else {
        assert c[i] == a[i] && c[j] == b[j - |a|];
      }
    }
  }

  // ---------------------------------------------------------------- stable sort

  /** Non-increasing in `key`. */
  predicate SortedDesc<T>(s: seq<T>, key: T -> int) {
    forall i, j :: 0 <= i < j < |s| ==> key(s[i]) >= key(s[j])
  }

  /** Places `x` before the first element whose key does not exceed its own. */
  function Insert<T>(x: T, s: seq<T>, key: T -> int): seq<T>
    decreases |s|
  {
    if s == [] || key(s[0]) <= key(x) then [x] + s else [s[0]] + Insert(x, s[1..], key)
  }

  /** `s.sort((a, b) => key(b) - key(a))`: a stable sort by non-increasing key. */
  function SortDesc<T>(s: seq<T>, key: T -> int): seq<T>
    decreases |s|
  {
    if s == [] then [] else Insert(s[0], SortDesc(s[1..], key), key)
  }

  lemma {:induction false} InsertMultiset<T>(x: T, s: seq<T>, key: T -> int)
    ensures multiset(Insert(x, s, key)) == multiset([x] + s)
    ensures |Insert(x, s, key)| == |s| + 1
    decreases |s|
  {
    if !(s == [] || key(s[0]) <= key(x)) {
      InsertMultiset(x, s[1..], key);
      assert s == [s[0]] + s[1..];
    }
  }

  /** Every key of `Insert(x, s, key)` stays under a bound that all inserted keys are under. */
  lemma {:induction false} InsertBelow<T>(x: T, s: seq<T>, key: T -> int, bound: int)
    requires key(x) <= bound
    requires forall k :: 0 <= k < |s| ==> key(s[k]) <= bound
    ensures forall k :: 0 <= k < |Insert(x, s, key)| ==> key(Insert(x, s, key)[k]) <= bound
    decreases |s|
  {
    var r := Insert(x, s, key);
    if s == [] || key(s[0]) <= key(x) {
      assert r == [x] + s;
      forall k | 0 <= k < |r|
        ensures key(r[k]) <= bound
      {
        if k > 0 {
          assert r[k] == s[k - 1];
        }
      }
    } else {
      var tail := Insert(x, s[1..], key);
      InsertBelow(x, s[1..], key, bound);
      assert r == [s[0]] + tail;
      forall k | 0 <= k < |r|
        ensures key(r[k]) <= bound
      {
        if k > 0 {
          assert r[k] == tail[k - 1];
        }
      }
    }
  }

  /** A sorted sequence stays sorted under a head whose key is at least all of its keys. */
  lemma ConsSorted<T>(h: T, t: seq<T>, key: T -> int)
    requires SortedDesc(t, key)
    requires forall k :: 0 <= k < |t| ==> key(t[k]) <= key(h)
    ensures SortedDesc([h] + t, key)
  {
    var r := [h] + t;
    forall i, j | 0 <= i < j < |r|
      ensures key(r[i]) >= key(r[j])
    {
      if i > 0 {
        assert r[i] == t[i - 1] && r[j] == t[j - 1];
      } else {
        assert r[j] == t[j - 1];
      }
    }
  }

  lemma {:induction false} InsertSorted<T>(x: T, s: seq<T>, key: T -> int)
    requires SortedDesc(s, key)
    ensures SortedDesc(Insert(x, s, key), key)
    decreases |s|
  {
    if !(s == [] || key(s[0]) <= key(x)) {
      var tail := Insert(x, s[1..], key);
      InsertSorted(x, s[1..], key);
      forall k | 0 <= k < |s[1..]|
        ensures key(s[1..][k]) <= key(s[0])
      {
        assert s[1..][k] == s[k + 1];
      }
      InsertBelow(x, s[1..], key, key(s[0]));
      ConsSorted(s[0], tail, key);
    }
  }

  lemma {:induction false} SortDescProps<T>(s: seq<T>, key: T -> int)
    ensures multiset(SortDesc(s, key)) == multiset(s)
    ensures |SortDesc(s, key)| == |s|
    ensures SortedDesc(SortDesc(s, key), key)
    decreases |s|
  {
    if s != [] {
      SortDescProps(s[1..], key);
      InsertMultiset(s[0], SortDesc(s[1..], key), key);
      InsertSorted(s[0], SortDesc(s[1..], key), key);
      assert s == [s[0]] + s[1..];
    }
  }

  /** Sum of `f` over the elements. */
  function SumBy<T>(s: seq<T>, f: T -> int): int
    decreases |s|
  {
    if s == [] then 0 else f(s[0]) + SumBy(s[1..], f)
  }

  lemma {:induction false} InsertSum<T>(x: T, s: seq<T>, key: T -> int, f: T -> int)
    ensures SumBy(Insert(x, s, key), f) == f(x) + SumBy(s, f)
    decreases |s|
  {
    if !(s == [] || key(s[0]) <= key(x)) {
      InsertSum(x, s[1..], key, f);
      assert ([s[0]] + Insert(x, s[1..], key))[1..] == Insert(x, s[1..], key);
    } else {
      assert ([x] + s)[1..] == s;
    }
  }

  lemma {:induction false} SortDescSum<T>(s: seq<T>, key: T -> int, f: T -> int)
    ensures SumBy(SortDesc(s, key), f) == SumBy(s, f)
    decreases |s|
  {
    if s != [] {
      SortDescSum(s[1..], key, f);
      InsertSum(s[0], SortDesc(s[1..], key), key, f);
    }
  }

  // ---------------------------------------------------------------- subsequences

  /**
   * `a` can be obtained from `b` by deleting elements. Matching greedily from the right
   * loses no subsequence, as SubsequenceExtend shows.
   */
  predicate IsSubsequence<T(==)>(a: seq<T>, b: seq<T>)
    decreases |b|
  {
    a == [] ||
    (b != [] &&
     if a[|a| - 1] == b[|b| - 1] then IsSubsequence(a[..|a| - 1], b[..|b| - 1])
     else IsSubsequence(a, b[..|b| - 1]))
  }

  /** Every sequence is a subsequence of itself. */
  lemma {:induction false} SubsequenceRefl<T>(s: seq<T>)
    ensures IsSubsequence(s, s)
    decreases |s|
  {
    if s != [] {
      SubsequenceRefl(s[..|s| - 1]);
    }
  }

  /** Appending to the longer sequence keeps a subsequence a subsequence. */
  lemma {:induction false} SubsequenceExtend<T>(a: seq<T>, b: seq<T>, y: T)
    requires IsSubsequence(a, b)
    ensures IsSubsequence(a, b + [y])
    decreases |b|, 1
  {
    assert (b + [y])[..|b|] == b;
    if a != [] && a[|a| - 1] == y {
      SubsequenceDropLast(a, b);
    }
  }

  /** Dropping the last element of a subsequence keeps it a subsequence. */
  lemma {:induction false} SubsequenceDropLast<T>(a: seq<T>, b: seq<T>)
    requires a != [] && IsSubsequence(a, b)
    ensures IsSubsequence(a[..|a| - 1], b)
    decreases |b|, 0
  {
    var b' := b[..|b| - 1];
    var z := b[|b| - 1];
    assert b == b' + [z];
    if a[|a| - 1] == z {
      if a[..|a| - 1] != [] {
        SubsequenceExtend(a[..|a| - 1], b', z);
      }
    } else {
      SubsequenceDropLast(a, b');
      if a[..|a| - 1] != [] {
        SubsequenceExtend(a[..|a| - 1], b', z);
      }
    }
  }
}
