/** Building blocks shared by the dashboard scripts: missing values, sums,
    de-duplication, the code-point order on
    strings that Python's `sorted` uses, and a descending ranking sort. */
module Common {

  /** A cell that may be missing (pandas NaN / NaT / None). */
  datatype Option<T> = None | Some(value: T)

  function Sum(s: seq<int>): int
  {
    if s == [] then 0 else s[0] + Sum(s[1..])
  }

  lemma {:induction false} SumAppend(s: seq<int>, x: int)
    ensures Sum(s + [x]) == Sum(s) + x
  {
    if s != [] {
      assert (s + [x])[1..] == s[1..] + [x];
      SumAppend(s[1..], x);
    }
  }

  predicate Distinct<T(==)>(s: seq<T>)
  {
    forall i, j :: 0 <= i < j < |s| ==> s[i] != s[j]
  }

  /** `a` keeps some of the elements of `b`, in the same relative order. */
  predicate IsSubsequence<T(==)>(a: seq<T>, b: seq<T>)
    decreases |b|
  {
    if a == [] then true
    else if b == [] then false
    else if a[0] == b[0] then IsSubsequence(a[1..], b[1..])
    else IsSubsequence(a, b[1..])
  }

  /** `df[mask]`: the elements satisfying `p`, in order. */
  function Filter<T(==,!new)>(xs: seq<T>, p: T -> bool): (r: seq<T>)
    ensures |r| <= |xs|
    ensures forall k :: 0 <= k < |r| ==> p(r[k])
    ensures forall x :: x in r <==> x in xs && p(x)
    ensures forall x :: multiset(r)[x] == if p(x) then multiset(xs)[x] else 0
  {
    if xs == [] then []
    else
      assert xs == [xs[0]] + xs[1..];
      var tail := Filter(xs[1..], p);
      if p(xs[0]) then [xs[0]] + tail else tail
  }

  /** pandas `Series.unique()`: every value once. (pandas keeps the order of
      first appearance; only membership and distinctness are stated here.) */
  function Unique<T(==)>(xs: seq<T>): (r: seq<T>)
    ensures Distinct(r)
    ensures forall i :: 0 <= i < |r| ==> r[i] in xs
    ensures forall i :: 0 <= i < |xs| ==> xs[i] in r
    ensures |r| <= |xs|
  {
    if xs == [] then []
    else
      var init, last := xs[..|xs| - 1], xs[|xs| - 1];
      assert xs == init + [last];
      var u := Unique(init);
      if last in u then u else u + [last]
  }

  lemma {:induction false} DistinctCardinality<T>(s: seq<T>)
    requires Distinct(s)
    ensures |set x | x in s| == |s|
  {
    if s != [] {
      var rest := s[1..];
      assert Distinct(rest) by {
        forall i, j | 0 <= i < j < |rest| ensures rest[i] != rest[j] {
          assert rest[i] == s[i + 1] && rest[j] == s[j + 1];
        }
      }
      DistinctCardinality(rest);
      assert (set x | x in s) == {s[0]} + (set x | x in rest);
      assert s[0] !in rest by {
        forall k | 0 <= k < |rest| ensures rest[k] != s[0] {
          assert rest[k] == s[k + 1];
        }
      }
    }
  }

  /** The first `k` elements, or all of them when there are fewer (`xs[:k]`). */
  function Take<T>(xs: seq<T>, k: nat): (r: seq<T>)
    ensures |r| == (if |xs| < k then |xs| else k)
    ensures r == xs[..|r|]
  {
    if |xs| < k then xs else xs[..k]
  }

  // ---------------------------------------------------------------------
  // Strings in code-point order, as Python compares them.

  predicate StrLt(a: string, b: string)
  {
    if |a| == 0 then |b| > 0
    else if |b| == 0 then false
    else a[0] < b[0] || (a[0] == b[0] && StrLt(a[1..], b[1..]))
  }

  lemma {:induction false} StrLtIrreflexive(a: string)
    ensures !StrLt(a, a)
  {
    if |a| > 0 { StrLtIrreflexive(a[1..]); }
  }

  lemma {:induction false} StrLtTransitive(a: string, b: string, c: string)
    requires StrLt(a, b) && StrLt(b, c)
    ensures StrLt(a, c)
  {
    if |a| > 0 && |b| > 0 && |c| > 0 && a[0] == b[0] == c[0] {
      StrLtTransitive(a[1..], b[1..], c[1..]);
    }
  }

  lemma {:induction false} StrLtTotal(a: string, b: string)
    requires a != b
    ensures StrLt(a, b) || StrLt(b, a)
  {
    if |a| > 0 && |b| > 0 && a[0] == b[0] {
      assert a == [a[0]] + a[1..] && b == [b[0]] + b[1..];
      StrLtTotal(a[1..], b[1..]);
    }
  }

  predicate StrictlyAscending(s: seq<string>)
  {
    forall i, j :: 0 <= i < j < |s| ==> StrLt(s[i], s[j])
  }

  function InsertAscending(x: string, s: seq<string>): (r: seq<string>)
    requires StrictlyAscending(s)
    ensures StrictlyAscending(r)
    ensures forall y :: y in r <==> y == x || y in s
  {
    if s == [] then [x]
    else if x == s[0] then s
    else if StrLt(x, s[0]) then
      assert forall j :: 0 < j < |s| ==> StrLt(x, s[j]) by {
        forall j | 0 < j < |s| ensures StrLt(x, s[j]) { StrLtTransitive(x, s[0], s[j]); }
      }
      [x] + s
    else
      StrLtTotal(x, s[0]);
      var tail := InsertAscending(x, s[1..]);
      assert forall y :: y in tail ==> StrLt(s[0], y);
      [s[0]] + tail
  }

  /** Python's `sorted(set_of_strings)`: each value once, ascending. */
  function SortedDistinct(xs: seq<string>): (r: seq<string>)
    ensures StrictlyAscending(r)
    ensures forall y :: y in r <==> y in xs
  {
    if xs == [] then []
    else
      assert xs == [xs[0]] + xs[1..];
      InsertAscending(xs[0], SortedDistinct(xs[1..]))
  }

  lemma StrictlyAscendingIsDistinct(s: seq<string>)
    requires StrictlyAscending(s)
    ensures Distinct(s)
  {
    forall i, j | 0 <= i < j < |s| ensures s[i] != s[j] {
      if s[i] == s[j] { StrLtIrreflexive(s[i]); }
    }
  }

  // ---------------------------------------------------------------------
  // Ranking by a score, largest first (`sort_values(ascending=False)`).

  predicate NonIncreasing<T>(s: seq<T>, score: T -> int)
  {
    forall i, j :: 0 <= i < j < |s| ==> score(s[i]) >= score(s[j])
  }

  function InsertDescending<T>(x: T, s: seq<T>, score: T -> int): (r: seq<T>)
    requires NonIncreasing(s, score)
    ensures NonIncreasing(r, score)
    ensures multiset(r) == multiset{x} + multiset(s)
  {
    if s == [] then [x]
    else if score(x) >= score(s[0]) then [x] + s
    else
      var tail := InsertDescending(x, s[1..], score);
      assert s == [s[0]] + s[1..];
      forall k | 0 <= k < |tail| ensures score(tail[k]) <= score(s[0]) {
        assert tail[k] in multiset(tail);
        if tail[k] != x {
          assert tail[k] in multiset(s[1..]);
          var m :| 0 <= m < |s[1..]| && s[1..][m] == tail[k];
          assert s[m + 1] == tail[k];
        }
      }
      [s[0]] + tail
  }

  /** A ranking of `xs` by non-increasing `score` (the order among ties is
      not stated). */
  function RankDescending<T>(xs: seq<T>, score: T -> int): (r: seq<T>)
    ensures NonIncreasing(r, score)
    ensures multiset(r) == multiset(xs)
  {
    if xs == [] then []
    else
      assert xs == [xs[0]] + xs[1..];
      InsertDescending(xs[0], RankDescending(xs[1..], score), score)
  }

  /** Distinct keys ranked by non-increasing `score`: the same keys, each once. */
  function RankDistinct(keys: seq<string>, score: string -> int): (r: seq<string>)
    requires Distinct(keys)
    ensures Distinct(r) && |r| == |keys|
    ensures forall x :: x in r <==> x in keys
    ensures NonIncreasing(r, score)
  {
    var ranked := RankDescending(keys, score);
    assert |multiset(ranked)| == |multiset(keys)|;
    assert forall x :: x in ranked <==> x in keys by {
      forall x ensures x in ranked <==> x in keys {
        assert x in ranked <==> x in multiset(ranked);
        assert x in keys <==> x in multiset(keys);
      }
    }
    PermutationKeepsDistinct(keys, ranked);
    ranked
  }

  lemma PermutationKeepsDistinct<T>(a: seq<T>, b: seq<T>)
    requires Distinct(a) && multiset(a) == multiset(b)
    ensures Distinct(b)
  {
    forall i, j | 0 <= i < j < |b| ensures b[i] != b[j] {
      if b[i] == b[j] {
        var x := b[i];
        assert multiset(b)[x] >= 2 by {
          assert b == b[..i] + [b[i]] + b[i + 1..j] + [b[j]] + b[j + 1..];
        }
        DistinctMultiplicity(a, x);
      }
    }
  }

  lemma {:induction false} DistinctMultiplicity<T>(a: seq<T>, x: T)
    requires Distinct(a)
    ensures multiset(a)[x] <= 1
  {
    if a != [] {
      var rest := a[1..];
      assert a == [a[0]] + rest;
      assert Distinct(rest) by {
        forall i, j | 0 <= i < j < |rest| ensures rest[i] != rest[j] {
          assert rest[i] == a[i + 1] && rest[j] == a[j + 1];
        }
      }
      DistinctMultiplicity(rest, x);
      if a[0] == x {
        assert x !in rest by {
          forall k | 0 <= k < |rest| ensures rest[k] != x { assert rest[k] == a[k + 1]; }
        }
      }
    }
  }

  /** Everything outside the first `k` of a ranking scores no higher than
      anything inside it (`nlargest(k)`, `sorted_users[:3]`). */
  lemma TopKDominates<T>(ranked: seq<T>, score: T -> int, k: nat)
    requires NonIncreasing(ranked, score)
    ensures forall i, j :: 0 <= i < |Take(ranked, k)| <= j < |ranked| ==>
      score(Take(ranked, k)[i]) >= score(ranked[j])
  {
  }
}
