/** Sequence helpers shared by the aggregation model: filtering, SQL `LIMIT`,
    descending order by an integer measure, and runs of consecutive integers. */
module Seqs {

  /** The elements of `xs` satisfying `p`, in their original order (SQL `WHERE`). */
  function Filter<T>(xs: seq<T>, p: T -> bool): (r: seq<T>)
    ensures |r| <= |xs|
    ensures forall i :: 0 <= i < |r| ==> r[i] in xs && p(r[i])
    ensures forall i :: 0 <= i < |xs| && p(xs[i]) ==> xs[i] in r
    ensures multiset(r) <= multiset(xs)
  {
    if |xs| == 0 then []
    else
      assert xs == [xs[0]] + xs[1..];
      if p(xs[0]) then [xs[0]] + Filter(xs[1..], p)
      else Filter(xs[1..], p)
  }

  /** Filtering depends only on what the predicate says about the elements. */
  lemma {:induction false} FilterExtensional<T>(xs: seq<T>, p: T -> bool, q: T -> bool)
    requires forall i :: 0 <= i < |xs| ==> p(xs[i]) == q(xs[i])
    ensures Filter(xs, p) == Filter(xs, q)
  {
    if |xs| > 0 {
      FilterExtensional(xs[1..], p, q);
    }
  }

  /** SQL `LIMIT n`: the first `n` elements, or all of them when there are fewer. */
  function Take<T>(xs: seq<T>, n: nat): (r: seq<T>)
    ensures |r| == if n < |xs| then n else |xs|
    ensures r <= xs
  {
    if n < |xs| then xs[..n] else xs
  }

  /** `xs` is in non-increasing order of `key`. */
  predicate SortedDesc<T>(xs: seq<T>, key: T -> int)
  {
    forall i, j :: 0 <= i < j < |xs| ==> key(xs[i]) >= key(xs[j])
  }

  /** `xs` is in non-decreasing order of `key`. */
  predicate SortedAsc<T>(xs: seq<T>, key: T -> int)
  {
    forall i, j :: 0 <= i < j < |xs| ==> key(xs[i]) <= key(xs[j])
  }

  /** Inserts `x` into the descending sequence `xs` before the first element it is not smaller than. */
  function InsertDesc<T>(x: T, xs: seq<T>, key: T -> int): (r: seq<T>)
    requires SortedDesc(xs, key)
    ensures SortedDesc(r, key)
    ensures multiset(r) == multiset(xs) + multiset{x}
    ensures |r| == |xs| + 1
  {
    if |xs| == 0 then [x]
    else if key(x) >= key(xs[0]) then [x] + xs
    else
      var rest := InsertDesc(x, xs[1..], key);
      InsertBelowHead(x, xs, rest, key);
      [xs[0]] + rest
  }

  /** Putting the head back in front of the insertion into the tail keeps
      the order, when `x` belongs below the head. */
  lemma InsertBelowHead<T>(x: T, xs: seq<T>, rest: seq<T>, key: T -> int)
    requires |xs| > 0 && SortedDesc(xs, key) && key(x) < key(xs[0])
    requires SortedDesc(rest, key) && multiset(rest) == multiset(xs[1..]) + multiset{x}
    ensures SortedDesc([xs[0]] + rest, key)
    ensures multiset([xs[0]] + rest) == multiset(xs) + multiset{x}
  {
    assert xs == [xs[0]] + xs[1..];
    forall k | 0 <= k < |rest| ensures key(rest[k]) <= key(xs[0]) {
      assert rest[k] in multiset(rest);
      if rest[k] != x {
        assert rest[k] in xs[1..];
      }
    }
  }

  /** Insertion sort into descending order of `key`: a permutation of `xs`.
      SQL leaves the order of equal keys unspecified; this is one admissible order. */
  function SortDesc<T>(xs: seq<T>, key: T -> int): (r: seq<T>)
    ensures SortedDesc(r, key)
    ensures multiset(r) == multiset(xs)
    ensures |r| == |xs|
  {
    if |xs| == 0 then []
    else
      assert xs == [xs[0]] + xs[1..];
      InsertDesc(xs[0], SortDesc(xs[1..], key), key)
  }

  /** The `n` consecutive integers `from, from+1, …, from+n-1`. */
  function Iota(from: int, n: nat): (r: seq<int>)
    ensures |r| == n
    ensures forall i :: 0 <= i < n ==> r[i] == from + i
    decreases n
  {
    if n == 0 then [] else [from] + Iota(from + 1, n - 1)
  }

  lemma IotaSplit(from: int, m: nat, n: nat)
    ensures Iota(from, m) + Iota(from + m, n) == Iota(from, m + n)
  {
  }

  /** The first `n` elements of `xs` in descending order of `key`
      (`ORDER BY key DESC LIMIT n`). */
  function TopN<T>(xs: seq<T>, key: T -> int, n: nat): seq<T>
  {
    Take(SortDesc(xs, key), n)
  }

  /** What a prefix leaves of a sequence, as a multiset, is its suffix. */
  lemma PrefixRemainder<T>(s: seq<T>, m: nat)
    requires m <= |s|
    ensures multiset(s) - multiset(s[..m]) == multiset(s[m..])
  {
    assert s == s[..m] + s[m..];
  }

  /** In a descending sequence, nothing after position `m` exceeds anything before it. */
  lemma SortedSuffixBelow<T>(s: seq<T>, key: T -> int, m: nat)
    requires SortedDesc(s, key) && m <= |s|
    ensures forall x :: x in multiset(s) - multiset(s[..m]) ==>
              forall i :: 0 <= i < m ==> key(x) <= key(s[i])
  {
    PrefixRemainder(s, m);
    forall x | x in multiset(s) - multiset(s[..m])
      ensures forall i :: 0 <= i < m ==> key(x) <= key(s[i])
    {
      assert x in s[m..];
      var j :| m <= j < |s| && s[j] == x;
    }
  }

  /** `TopN` is a top-`n` selection: as many elements as the limit allows,
      in descending order, drawn from `xs`, and no element left out ranks
      above one kept. */
  lemma TopNIsTop<T>(xs: seq<T>, key: T -> int, n: nat)
    ensures var r := TopN(xs, key, n);
      && |r| == (if n < |xs| then n else |xs|)
      && SortedDesc(r, key)
      && multiset(r) <= multiset(xs)
      && forall x :: x in multiset(xs) - multiset(r) ==>
           forall i :: 0 <= i < |r| ==> key(x) <= key(r[i])
  {
    var s := SortDesc(xs, key);
    var m := if n < |xs| then n else |xs|;
    assert TopN(xs, key, n) == s[..m];
    SortedPrefix(s, key, m);
  }

  /** A prefix of a descending sequence is descending, is drawn from it, and
      nothing it leaves out ranks above anything it keeps. */
  lemma SortedPrefix<T>(s: seq<T>, key: T -> int, m: nat)
    requires SortedDesc(s, key) && m <= |s|
    ensures SortedDesc(s[..m], key)
    ensures multiset(s[..m]) <= multiset(s)
    ensures forall x :: x in multiset(s) - multiset(s[..m]) ==>
              forall i :: 0 <= i < m ==> key(x) <= key(s[..m][i])
  {
    SortedSuffixBelow(s, key, m);
    assert s == s[..m] + s[m..];
  }

  /** The sum of `f` over `xs`. */
  function SumOf<T>(xs: seq<T>, f: T -> int): int
  {
    if |xs| == 0 then 0 else f(xs[0]) + SumOf(xs[1..], f)
  }

  lemma {:induction false} SumOfAppend<T>(s: seq<T>, t: seq<T>, f: T -> int)
    ensures SumOf(s + t, f) == SumOf(s, f) + SumOf(t, f)
  {
    if |s| > 0 {
      assert (s + t)[1..] == s[1..] + t;
      SumOfAppend(s[1..], t, f);
    } else {
      assert s + t == t;
    }
  }

  /** Removing one element removes its term. */
  lemma SumOfRemove<T>(t: seq<T>, k: nat, f: T -> int)
    requires k < |t|
    ensures SumOf(t, f) == f(t[k]) + SumOf(t[..k] + t[k + 1..], f)
  {
    SumOfMiddle(t[..k], t[k], t[k + 1..], f);
    assert t == t[..k] + ([t[k]] + t[k + 1..]);
  }

  lemma SumOfMiddle<T>(a: seq<T>, x: T, b: seq<T>, f: T -> int)
    ensures SumOf(a + ([x] + b), f) == f(x) + SumOf(a + b, f)
  {
    SumOfAppend(a, [x] + b, f);
    SumOfCons(x, b, f);
    SumOfAppend(a, b, f);
  }

  lemma SumOfCons<T>(x: T, b: seq<T>, f: T -> int)
    ensures SumOf([x] + b, f) == f(x) + SumOf(b, f)
  {
    assert ([x] + b)[1..] == b;
  }

  /** Cancelling the same first element from two equal multisets. */
  lemma MultisetRemove<T>(s: seq<T>, t: seq<T>, k: nat)
    requires |s| > 0 && k < |t| && t[k] == s[0] && multiset(s) == multiset(t)
    ensures multiset(s[1..]) == multiset(t[..k] + t[k + 1..])
  {
    var rest := t[..k] + t[k + 1..];
    assert t == t[..k] + [t[k]] + t[k + 1..];
    assert s == [s[0]] + s[1..];
    assert multiset(t) == multiset(t[..k]) + multiset{t[k]} + multiset(t[k + 1..]);
    assert multiset(rest) == multiset(t[..k]) + multiset(t[k + 1..]);
    assert multiset(s) == multiset{s[0]} + multiset(s[1..]);
    forall x ensures multiset(s[1..])[x] == multiset(rest)[x] {
      assert (multiset{s[0]} + multiset(s[1..]))[x] == (multiset{s[0]} + multiset(rest))[x];
    }
  }

  /** A sum does not depend on the order of its terms. */
  lemma {:induction false} SumOfPermutation<T>(s: seq<T>, t: seq<T>, f: T -> int)
    requires multiset(s) == multiset(t)
    ensures SumOf(s, f) == SumOf(t, f)
    decreases |s|
  {
    if |s| == 0 {
      assert |t| == |multiset(t)| == 0;
    } else {
      assert s[0] in multiset(t);
      var k :| 0 <= k < |t| && t[k] == s[0];
      MultisetRemove(s, t, k);
      SumOfPermutation(s[1..], t[..k] + t[k + 1..], f);
      SumOfRemove(t, k, f);
    }
  }

  /** Dropping elements whose term is zero leaves the sum unchanged. */
  lemma {:induction false} SumOfFilter<T>(xs: seq<T>, p: T -> bool, f: T -> int)
    requires forall i :: 0 <= i < |xs| && !p(xs[i]) ==> f(xs[i]) == 0
    ensures SumOf(Filter(xs, p), f) == SumOf(xs, f)
  {
    if |xs| > 0 {
      SumOfFilter(xs[1..], p, f);
      if p(xs[0]) {
        assert ([xs[0]] + Filter(xs[1..], p))[1..] == Filter(xs[1..], p);
      }
    }
  }

  /** No element occurs twice. */
  predicate Distinct<T(==)>(xs: seq<T>)
  {
    forall i, j :: 0 <= i < j < |xs| ==> xs[i] != xs[j]
  }

  lemma {:induction false} DistinctOccursOnce<T>(xs: seq<T>, x: T)
    requires Distinct(xs)
    ensures multiset(xs)[x] <= 1
  {
    if |xs| > 0 {
      assert xs == [xs[0]] + xs[1..];
      DistinctOccursOnce(xs[1..], x);
      if xs[0] == x {
        assert x !in xs[1..];
      }
    }
  }

  /** A reordering of a sequence without repeats has none either. */
  lemma DistinctPermutation<T>(s: seq<T>, t: seq<T>)
    requires multiset(s) == multiset(t) && Distinct(t)
    ensures Distinct(s)
  {
    forall i, j | 0 <= i < j < |s| ensures s[i] != s[j] {
      if s[i] == s[j] {
        assert s == s[..j] + [s[j]] + s[j + 1..];
        assert s[i] in s[..j];
        assert multiset(s)[s[j]] >= 2;
        DistinctOccursOnce(t, s[j]);
      }
    }
  }

  lemma {:induction false} DistinctFilter<T>(xs: seq<T>, p: T -> bool)
    requires Distinct(xs)
    ensures Distinct(Filter(xs, p))
  {
    if |xs| > 0 {
      DistinctFilter(xs[1..], p);
      if p(xs[0]) {
        assert xs[0] !in xs[1..];
        assert xs[0] !in Filter(xs[1..], p);
      }
    }
  }

  /** `xs` is in strictly increasing order of `key`. */
  predicate StrictlyAscending<T>(xs: seq<T>, key: T -> int)
  {
    forall i, j :: 0 <= i < j < |xs| ==> key(xs[i]) < key(xs[j])
  }

  /** Filtering keeps the order of what it keeps. */
  lemma {:induction false} FilterKeepsAscending<T>(xs: seq<T>, p: T -> bool, key: T -> int)
    requires StrictlyAscending(xs, key)
    ensures StrictlyAscending(Filter(xs, p), key)
  {
    if |xs| > 0 {
      FilterKeepsAscending(xs[1..], p, key);
      var rest := Filter(xs[1..], p);
      if p(xs[0]) {
        forall j | 0 <= j < |rest| ensures key(xs[0]) < key(rest[j]) {
          var k :| 0 <= k < |xs[1..]| && xs[1..][k] == rest[j];
          assert xs[k + 1] == rest[j];
        }
      }
    }
  }
}
