/**
 * The string operations of JavaScript that the engine relies on: `trim`, `split` on a
 * character class (with and without `+`), `join`, `includes`, `indexOf`, and the number
 * of matches of a literal global regular expression.
 */
module Strings {
  import opened Chars

  /** Length of the longest prefix of `s` whose characters all satisfy `p`. */
  function PrefixRun(s: string, p: char -> bool): (n: nat)
    ensures n <= |s|
    ensures forall i :: 0 <= i < n ==> p(s[i])
    ensures n < |s| ==> !p(s[n])
  {
    if s == [] || !p(s[0]) then 0 else 1 + PrefixRun(s[1..], p)
  }

  /** Length of the longest suffix of `s` whose characters all satisfy `p`. */
  function SuffixRun(s: string, p: char -> bool): (n: nat)
    ensures n <= |s|
    ensures forall i :: |s| - n <= i < |s| ==> p(s[i])
    ensures n < |s| ==> !p(s[|s| - 1 - n])
  {
    if s == [] || !p(s[|s| - 1]) then 0 else 1 + SuffixRun(s[..|s| - 1], p)
  }

  /** Index of the first character of `s` satisfying `p`, or `|s|` if there is none. */
  function FirstIndex(s: string, p: char -> bool): (i: nat)
    ensures i <= |s|
    ensures forall k :: 0 <= k < i ==> !p(s[k])
    ensures i < |s| ==> p(s[i])
  {
    if s == [] || p(s[0]) then 0 else 1 + FirstIndex(s[1..], p)
  }

  // ---------------------------------------------------------------- trim

  /** Neither the first nor the last character is white space. */
  predicate Trimmed(s: string) {
    |s| > 0 ==> !IsSpace(s[0]) && !IsSpace(s[|s| - 1])
  }

  /** `String.prototype.trim` on ASCII. */
  function Trim(s: string): (r: string)
    ensures Trimmed(r)
    ensures 0 <= PrefixRun(s, IsSpace) && PrefixRun(s, IsSpace) + |r| <= |s|
    ensures r == s[PrefixRun(s, IsSpace)..PrefixRun(s, IsSpace) + |r|]
    ensures Trimmed(s) ==> r == s
  {
    var a := PrefixRun(s, IsSpace);
    var t := s[a..];
    var n := SuffixRun(t, IsSpace);
    assert n < |t| ==> !IsSpace(t[0]);
    t[..|t| - n]
  }

  lemma TrimIsSubstring(s: string)
    ensures Contains(s, Trim(s))
  {
    assert OccursAt(s, Trim(s), PrefixRun(s, IsSpace));
  }

  lemma TrimAllSpace(s: string)
    requires forall i :: 0 <= i < |s| ==> IsSpace(s[i])
    ensures Trim(s) == []
  {
  }

  // ---------------------------------------------------------------- split and join

  /** `s.split(/[c]/)` where the class `[c]` is `p`: every separator character cuts. */
  function SplitBy(s: string, p: char -> bool): (r: seq<string>)
    ensures |r| >= 1
    decreases |s|
  {
    var i := FirstIndex(s, p);
    if i == |s| then [s] else [s[..i]] + SplitBy(s[i + 1..], p)
  }

  /** `s.split(/[c]+/)`: every maximal run of separator characters cuts once. */
  function SplitRuns(s: string, p: char -> bool): (r: seq<string>)
    ensures |r| >= 1
    decreases |s|
  {
    var i := FirstIndex(s, p);
    if i == |s| then [s]
    else
      var j := i + PrefixRun(s[i..], p);
      [s[..i]] + SplitRuns(s[j..], p)
  }

  /** A text made only of separators splits into empty pieces. */
  lemma {:induction false} SplitRunsAllSeparators(s: string, p: char -> bool)
    requires forall i :: 0 <= i < |s| ==> p(s[i])
    ensures forall k :: 0 <= k < |SplitRuns(s, p)| ==> SplitRuns(s, p)[k] == []
    decreases |s|
  {
    if s != [] {
      var j := PrefixRun(s, p);
      assert s[0..] == s;
      SplitRunsAllSeparators(s[j..], p);
    }
  }

  /** Every character of every piece is a character of `s` that is not a separator. */
  predicate PiecesAvoid(r: seq<string>, s: string, p: char -> bool) {
    forall k, j :: 0 <= k < |r| && 0 <= j < |r[k]| ==> !p(r[k][j]) && r[k][j] in s
  }

  lemma {:induction false} SplitByPieces(s: string, p: char -> bool)
    ensures PiecesAvoid(SplitBy(s, p), s, p)
    decreases |s|
  {
    var i := FirstIndex(s, p);
    if i < |s| {
      var rest := s[i + 1..];
      SplitByPieces(rest, p);
      var r := SplitBy(s, p);
      assert r == [s[..i]] + SplitBy(rest, p);
      forall k, j | 0 <= k < |r| && 0 <= j < |r[k]|
        ensures !p(r[k][j]) && r[k][j] in s
      {
        if k == 0 {
          assert r[k][j] == s[j];
        } else {
          var c := r[k][j];
          assert c == SplitBy(rest, p)[k - 1][j];
          assert c in rest;
          var m :| 0 <= m < |rest| && rest[m] == c;
          assert s[i + 1 + m] == c;
        }
      }
    }
  }

  lemma {:induction false} SplitRunsPieces(s: string, p: char -> bool)
    ensures PiecesAvoid(SplitRuns(s, p), s, p)
    decreases |s|
  {
    var i := FirstIndex(s, p);
    if i < |s| {
      var j := i + PrefixRun(s[i..], p);
      var rest := s[j..];
      SplitRunsPieces(rest, p);
      var r := SplitRuns(s, p);
      var tail := SplitRuns(rest, p);
      assert r == [s[..i]] + tail;
      forall k, m | 0 <= k < |r| && 0 <= m < |r[k]|
        ensures !p(r[k][m]) && r[k][m] in s
      {
        if k == 0 {
          assert r[k][m] == s[m];
        } else {
          assert r[k] == tail[k - 1];
          var c := r[k][m];
          assert c == tail[k - 1][m];
          assert c in rest;
          var q :| 0 <= q < |rest| && rest[q] == c;
          assert s[j + q] == c;
        }
      }
    }
  }

  /** Every piece of a split is a substring of the text. */
  lemma {:induction false} SplitByContains(s: string, p: char -> bool)
    ensures forall k :: 0 <= k < |SplitBy(s, p)| ==> Contains(s, SplitBy(s, p)[k])
    decreases |s|
  {
    var i := FirstIndex(s, p);
    if i == |s| {
      assert OccursAt(s, s, 0);
    } else {
      var rest := s[i + 1..];
      SplitByContains(rest, p);
      var r := SplitBy(s, p);
      assert r == [s[..i]] + SplitBy(rest, p);
      assert OccursAt(s, rest, i + 1);
      forall k | 0 <= k < |r|
        ensures Contains(s, r[k])
      {
        if k == 0 {
          assert OccursAt(s, s[..i], 0);
        } else {
          assert r[k] == SplitBy(rest, p)[k - 1];
          ContainsTransitive(s, rest, r[k]);
        }
      }
    }
  }

  /** `parts.join(sep)`. */
  function Join(parts: seq<string>, sep: char): string
    decreases |parts|
  {
    if parts == [] then []
    else if |parts| == 1 then parts[0]
    else parts[0] + [sep] + Join(parts[1..], sep)
  }

  /** Every character of a join is the separator or a character of a piece. */
  lemma {:induction false} JoinChars(parts: seq<string>, sep: char, p: char -> bool)
    requires p(sep)
    requires forall k, j :: 0 <= k < |parts| && 0 <= j < |parts[k]| ==> p(parts[k][j])
    ensures forall i :: 0 <= i < |Join(parts, sep)| ==> p(Join(parts, sep)[i])
    decreases |parts|
  {
    if |parts| > 1 {
      JoinChars(parts[1..], sep, p);
      var r := Join(parts, sep);
      var rest := Join(parts[1..], sep);
      forall i | 0 <= i < |r|
        ensures p(r[i])
      {
        if i < |parts[0]| {
          assert r[i] == parts[0][i];
        } else if i > |parts[0]| {
          assert r[i] == rest[i - |parts[0]| - 1];
        }
      }
    } else if |parts| == 1 {
      assert forall i :: 0 <= i < |parts[0]| ==> p(parts[0][i]);
    }
  }

  /** Splitting on a single character and joining with it gives the text back. */
  lemma {:induction false} SplitJoin(s: string, p: char -> bool, sep: char)
    requires forall c :: p(c) <==> c == sep
    ensures Join(SplitBy(s, p), sep) == s
    decreases |s|
  {
    var i := FirstIndex(s, p);
    if i < |s| {
      var rest := SplitBy(s[i + 1..], p);
      SplitJoin(s[i + 1..], p, sep);
      var r := [s[..i]] + rest;
      assert r[1..] == rest;
      calc {
        Join(r, sep);
        s[..i] + [sep] + Join(rest, sep);
        s[..i] + [s[i]] + s[i + 1..];
        s;
      }
    }
  }

  lemma {:induction false} JoinAppend(a: seq<string>, b: seq<string>, sep: char)
    requires a != [] && b != []
    ensures Join(a + b, sep) == Join(a, sep) + [sep] + Join(b, sep)
    decreases |a|
  {
    if |a| == 1 {
      assert (a + b)[1..] == b;
    } else {
      assert (a + b)[1..] == a[1..] + b;
      JoinAppend(a[1..], b, sep);
    }
  }

  /** The join of a run of consecutive pieces is a substring of the join of all pieces. */
  lemma JoinSliceIsSubstring(parts: seq<string>, a: int, b: int, sep: char)
    requires 0 <= a < b <= |parts|
    ensures Contains(Join(parts, sep), Join(parts[a..b], sep))
  {
    var mid := parts[a..b];
    var whole := Join(parts, sep);
    var left: string := [];
    var right: string := [];
    var ab := parts[..b];
    if b < |parts| {
      assert parts == ab + parts[b..];
      JoinAppend(ab, parts[b..], sep);
      right := [sep] + Join(parts[b..], sep);
    } else {
      assert parts == ab;
    }
    assert whole == Join(ab, sep) + right;
    if a > 0 {
      assert ab == parts[..a] + mid;
      JoinAppend(parts[..a], mid, sep);
      left := Join(parts[..a], sep) + [sep];
    } else {
      assert ab == mid;
    }
    assert whole == left + Join(mid, sep) + right;
    ConcatContains(left, Join(mid, sep), right);
  }

  // ---------------------------------------------------------------- substrings

  /** `t` occurs in `s` starting at index `i`. */
  predicate OccursAt(s: string, t: string, i: int) {
    0 <= i && i + |t| <= |s| && s[i..i + |t|] == t
  }

  /** `s.includes(t)`. */
  predicate Contains(s: string, t: string) {
    exists i | 0 <= i <= |s| - |t| :: OccursAt(s, t, i)
  }

  lemma ConcatContains(x: string, y: string, z: string)
    ensures Contains(x + y + z, y)
  {
    var w := x + y + z;
    assert w[|x|..|x| + |y|] == y;
    assert OccursAt(w, y, |x|);
  }

  lemma ContainsTransitive(s: string, u: string, t: string)
    requires Contains(s, u) && Contains(u, t)
    ensures Contains(s, t)
  {
    var i :| 0 <= i <= |s| - |u| && OccursAt(s, u, i);
    var j :| 0 <= j <= |u| - |t| && OccursAt(u, t, j);
    forall k | 0 <= k < |t|
      ensures s[i + j + k] == t[k]
    {
      assert t[k] == u[j..j + |t|][k] == u[j + k];
      assert u[j + k] == s[i..i + |u|][j + k] == s[i + j + k];
    }
    assert s[i + j..i + j + |t|] == t;
    assert OccursAt(s, t, i + j);
  }

  lemma ContainsLower(s: string, u: string)
    requires Contains(s, u)
    ensures Contains(LowerStr(s), LowerStr(u))
  {
    var i :| 0 <= i <= |s| - |u| && OccursAt(s, u, i);
    LowerStrSlice(s, i, i + |u|);
    assert OccursAt(LowerStr(s), LowerStr(u), i);
  }

  lemma ContainsEmpty(s: string)
    ensures Contains(s, [])
  {
    assert OccursAt(s, [], 0);
  }

  /** `s.indexOf(t, from)` for a non-empty `t`. */
  function IndexOf(s: string, t: string, from: nat): (r: int)
    requires |t| > 0
    ensures r == -1 || (from <= r && OccursAt(s, t, r))
    ensures r == -1 ==> forall i :: from <= i ==> !OccursAt(s, t, i)
    ensures r != -1 ==> forall i :: from <= i < r ==> !OccursAt(s, t, i)
    decreases |s| - from
  {
    if from + |t| > |s| then -1
    else if OccursAt(s, t, from) then from
    else IndexOf(s, t, from + 1)
  }

  /**
   * The successive results of `pos = s.indexOf(t, pos)` where each hit moves `pos` past the
   * occurrence: the non-overlapping occurrences of `t` from `from` on, left to right.
   */
  function Positions(s: string, t: string, from: nat): seq<nat>
    requires |t| > 0
  {
    Hits(s, t, IndexOf(s, t, from))
  }

  /** The occurrence at `p`, if any, then those found by searching on from just past it. */
  function Hits(s: string, t: string, p: int): seq<nat>
    requires |t| > 0 && (p == -1 || OccursAt(s, t, p))
    decreases if p == -1 then 0 else |s| + 1 - p
  {
    if p == -1 then [] else [p] + Hits(s, t, IndexOf(s, t, p + |t|))
  }

  /** Every hit is an occurrence from `p` on, and each starts after the previous one ends. */
  lemma {:induction false} HitsProps(s: string, t: string, p: int)
    requires |t| > 0 && (p == -1 || OccursAt(s, t, p))
    ensures forall k :: 0 <= k < |Hits(s, t, p)| ==> p <= Hits(s, t, p)[k] && OccursAt(s, t, Hits(s, t, p)[k])
    ensures forall i, j :: 0 <= i < j < |Hits(s, t, p)| ==> Hits(s, t, p)[i] + |t| <= Hits(s, t, p)[j]
    decreases if p == -1 then 0 else |s| + 1 - p
  {
    if p != -1 {
      var next := IndexOf(s, t, p + |t|);
      var rest := Hits(s, t, next);
      HitsProps(s, t, next);
      var hs := Hits(s, t, p);
      assert hs == [p] + rest;
      forall k | 0 <= k < |hs|
        ensures p <= hs[k] && OccursAt(s, t, hs[k])
      {
        if k > 0 {
          assert hs[k] == rest[k - 1];
        }
      }
      forall i, j | 0 <= i < j < |hs|
        ensures hs[i] + |t| <= hs[j]
      {
        assert hs[j] == rest[j - 1];
        if i > 0 {
          assert hs[i] == rest[i - 1];
        }
      }
    }
  }

  /** Every position is an occurrence from `from` on, and each starts after the previous one ends. */
  lemma PositionsProps(s: string, t: string, from: nat)
    requires |t| > 0
    ensures forall k :: 0 <= k < |Positions(s, t, from)| ==>
      from <= Positions(s, t, from)[k] && OccursAt(s, t, Positions(s, t, from)[k])
    ensures forall i, j :: 0 <= i < j < |Positions(s, t, from)| ==>
      Positions(s, t, from)[i] + |t| <= Positions(s, t, from)[j]
  {
    HitsProps(s, t, IndexOf(s, t, from));
  }

  /**
   * `s.match(new RegExp(t, 'g'))?.length ?? 0` for a pattern `t` with no regular-expression
   * operator in it: the number of non-overlapping occurrences; the empty pattern matches at
   * every one of the `|s| + 1` positions.
   */
  function MatchCount(s: string, t: string): (n: nat)
    ensures n == 0 <==> !Contains(s, t)
  {
    if |t| == 0 then ContainsEmpty(s); |s| + 1
    else
      var ps := Positions(s, t, 0);
      assert ps == [] <==> !Contains(s, t) by {
        if ps == [] {
          assert IndexOf(s, t, 0) == -1;
        } else {
          PositionsProps(s, t, 0);
          assert OccursAt(s, t, ps[0]);
        }
      }
      |ps|
  }

  /** Number of characters of `s` equal to `c`. */
  function CountChar(s: string, c: char): nat
  {
    if s == [] then 0 else (if s[0] == c then 1 else 0) + CountChar(s[1..], c)
  }

  lemma {:induction false} CountCharConcat(s: string, t: string, c: char)
    ensures CountChar(s + t, c) == CountChar(s, c) + CountChar(t, c)
    decreases |s|
  {
    if s == [] {
      assert s + t == t;
    } else {
      assert (s + t)[1..] == s[1..] + t;
      CountCharConcat(s[1..], t, c);
    }
  }

  lemma {:induction false} CountCharAbsent(s: string, c: char)
    requires forall i :: 0 <= i < |s| ==> s[i] != c
    ensures CountChar(s, c) == 0
    decreases |s|
  {
    if s != [] {
      CountCharAbsent(s[1..], c);
    }
  }

  /** Joining pieces that contain no separator: the separator count is one less than the pieces. */
  lemma {:induction false} JoinSeparatorCount(parts: seq<string>, sep: char)
    requires parts != []
    requires forall k, j :: 0 <= k < |parts| && 0 <= j < |parts[k]| ==> parts[k][j] != sep
    ensures CountChar(Join(parts, sep), sep) == |parts| - 1
    decreases |parts|
  {
    CountCharAbsent(parts[0], sep);
    if |parts| > 1 {
      JoinSeparatorCount(parts[1..], sep);
      CountCharConcat(parts[0] + [sep], Join(parts[1..], sep), sep);
      CountCharConcat(parts[0], [sep], sep);
    }
  }
}
