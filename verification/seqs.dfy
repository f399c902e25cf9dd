/** Order-preserving filtering and summation over sequences, as used by the ledger view. */
module Seqs {

  /** The elements of `s` that satisfy `p`, in their original order (JavaScript's `Array.prototype.filter`). */
  function Filter<T(==, !new)>(p: T -> bool, s: seq<T>): (r: seq<T>)
    ensures |r| <= |s|
    ensures forall i :: 0 <= i < |r| ==> p(r[i])
    ensures forall x :: x in r <==> x in s && p(x)
    ensures forall x :: multiset(r)[x] == if p(x) then multiset(s)[x] else 0
  {
    if s == [] then []
    else
      var rest := Filter(p, s[1..]);
      assert s == [s[0]] + s[1..];
      if p(s[0]) then [s[0]] + rest else rest
  }

  /** `idx` lists strictly increasing positions of `s` whose elements spell out `r`. */
  ghost predicate Embedding<T>(idx: seq<nat>, r: seq<T>, s: seq<T>) {
    && |idx| == |r|
    && (forall k :: 0 <= k < |idx| ==> idx[k] < |s| && s[idx[k]] == r[k])
    && (forall j, k :: 0 <= j < k < |idx| ==> idx[j] < idx[k])
  }

  /** `r` is obtained from `s` by deleting elements, without reordering the rest. */
  ghost predicate IsSubsequence<T>(r: seq<T>, s: seq<T>) {
    exists idx :: Embedding(idx, r, s)
  }

  /** The positions of `s` that `Filter(p, s)` keeps. */
  function KeptPositions<T>(p: T -> bool, s: seq<T>): (idx: seq<nat>)
    ensures forall k :: 0 <= k < |idx| ==> idx[k] < |s|
  {
    if s == [] then []
    else
      var tail := KeptPositions(p, s[1..]);
      var shifted := seq(|tail|, k requires 0 <= k < |tail| => tail[k] + 1);
      if p(s[0]) then [0] + shifted else shifted
  }

  /** Dropping the head of `s`: an embedding into `s[1..]` shifted by one embeds into `s`. */
  lemma ShiftEmbedding<T>(idx: seq<nat>, r: seq<T>, s: seq<T>)
    requires s != [] && Embedding(idx, r, s[1..])
    ensures Embedding(seq(|idx|, k requires 0 <= k < |idx| => idx[k] + 1), r, s)
  {
  }

  /** Keeping the head of `s`: position 0 followed by an embedding that avoids position 0. */
  lemma ConsEmbedding<T>(idx: seq<nat>, r: seq<T>, s: seq<T>)
    requires s != [] && Embedding(idx, r, s)
    requires forall k :: 0 <= k < |idx| ==> 0 < idx[k]
    ensures Embedding([0] + idx, [s[0]] + r, s)
  {
    var idx', r' := [0] + idx, [s[0]] + r;
    forall k | 0 < k < |idx'|
      ensures idx'[k] < |s| && s[idx'[k]] == r'[k]
    {
      assert idx'[k] == idx[k - 1] && r'[k] == r[k - 1];
    }
    forall j, k | 0 <= j < k < |idx'|
      ensures idx'[j] < idx'[k]
    {
      assert idx'[k] == idx[k - 1];
      if j > 0 {
        assert idx'[j] == idx[j - 1];
      }
    }
  }

  lemma {:induction false} FilterEmbedding<T(!new)>(p: T -> bool, s: seq<T>)
    ensures Embedding(KeptPositions(p, s), Filter(p, s), s)
  {
    if s != [] {
      FilterEmbedding(p, s[1..]);
      var tail := KeptPositions(p, s[1..]);
      ShiftEmbedding(tail, Filter(p, s[1..]), s);
      if p(s[0]) {
        ConsEmbedding(seq(|tail|, k requires 0 <= k < |tail| => tail[k] + 1), Filter(p, s[1..]), s);
      }
    }
  }

  /** The filtered list is an order-preserving subsequence of its input. */
  lemma FilterIsSubsequence<T(!new)>(p: T -> bool, s: seq<T>)
    ensures IsSubsequence(Filter(p, s), s)
  {
    FilterEmbedding(p, s);
  }

  /** Filtering keeps every element exactly when every element satisfies the predicate. */
  lemma {:induction false} FilterKeepsAll<T(!new)>(p: T -> bool, s: seq<T>)
    ensures Filter(p, s) == s <==> forall i :: 0 <= i < |s| ==> p(s[i])
  {
    if s != [] {
      FilterKeepsAll(p, s[1..]);
      if !p(s[0]) {
        assert |Filter(p, s)| <= |s[1..]| < |s|;
      }
    }
  }

  /** Two predicates that agree on the elements of `s` filter it alike. */
  lemma {:induction false} FilterExtensional<T(!new)>(p: T -> bool, q: T -> bool, s: seq<T>)
    requires forall i :: 0 <= i < |s| ==> p(s[i]) == q(s[i])
    ensures Filter(p, s) == Filter(q, s)
  {
    if s != [] {
      FilterExtensional(p, q, s[1..]);
    }
  }

  /** Filtering twice is filtering once by the conjunction `pq` of the two predicates. */
  lemma {:induction false} FilterFilter<T(!new)>(p: T -> bool, q: T -> bool, pq: T -> bool, s: seq<T>)
    requires forall i :: 0 <= i < |s| ==> pq(s[i]) == (p(s[i]) && q(s[i]))
    ensures Filter(q, Filter(p, s)) == Filter(pq, s)
  {
    if s != [] {
      FilterFilter(p, q, pq, s[1..]);
      var rest := Filter(p, s[1..]);
      if p(s[0]) {
        assert ([s[0]] + rest)[1..] == rest;
      }
    }
  }

  /** Consecutive filters may be swapped. */
  lemma FilterCommutes<T(!new)>(p: T -> bool, q: T -> bool, s: seq<T>)
    ensures Filter(q, Filter(p, s)) == Filter(p, Filter(q, s))
  {
    var both := x => p(x) && q(x);
    FilterFilter(p, q, both, s);
    FilterFilter(q, p, both, s);
  }

  /** The sum of `f` over `s`; the empty sum is 0 (JavaScript's `reduce((sum, x) => sum + f(x), 0)`). */
  function SumOf<T>(f: T -> int, s: seq<T>): int {
    if s == [] then 0 else f(s[0]) + SumOf(f, s[1..])
  }

  lemma {:induction false} SumOfConcat<T>(f: T -> int, a: seq<T>, b: seq<T>)
    ensures SumOf(f, a + b) == SumOf(f, a) + SumOf(f, b)
  {
    if a == [] {
      assert a + b == b;
    } else {
      assert (a + b)[1..] == a[1..] + b;
      SumOfConcat(f, a[1..], b);
    }
  }

  /** Adding the last element on the right, as a left-to-right `reduce` does. */
  lemma SumOfSnoc<T>(f: T -> int, s: seq<T>, x: T)
    ensures SumOf(f, s + [x]) == SumOf(f, s) + f(x)
  {
    SumOfConcat(f, s, [x]);
  }

  /** Summation is linear: the sum of differences is the difference of sums. */
  lemma {:induction false} SumOfDifference<T>(f: T -> int, g: T -> int, h: T -> int, s: seq<T>)
    requires forall i :: 0 <= i < |s| ==> h(s[i]) == f(s[i]) - g(s[i])
    ensures SumOf(h, s) == SumOf(f, s) - SumOf(g, s)
  {
    if s != [] {
      SumOfDifference(f, g, h, s[1..]);
    }
  }

  /** Summing the kept elements and the dropped ones (those satisfying the complement `q` of
      `p`) separately gives the sum over all of them. */
  lemma {:induction false} SumOfPartition<T(!new)>(f: T -> int, p: T -> bool, q: T -> bool, s: seq<T>)
    requires forall i :: 0 <= i < |s| ==> q(s[i]) == !p(s[i])
    ensures SumOf(f, Filter(p, s)) + SumOf(f, Filter(q, s)) == SumOf(f, s)
  {
    if s != [] {
      SumOfPartition(f, p, q, s[1..]);
    }
  }

  /** A sum of terms that each grow by at most as much is at most as large. */
  lemma {:induction false} SumOfMonotone<T>(f: T -> int, g: T -> int, s: seq<T>)
    requires forall i :: 0 <= i < |s| ==> f(s[i]) <= g(s[i])
    ensures SumOf(f, s) <= SumOf(g, s)
  {
    if s != [] {
      SumOfMonotone(f, g, s[1..]);
    }
  }

  /** Replacing one element changes the sum by the difference of the two terms. */
  lemma {:induction false} SumOfUpdate<T>(f: T -> int, s: seq<T>, k: int, x: T)
    requires 0 <= k < |s|
    ensures SumOf(f, s[k := x]) == SumOf(f, s) - f(s[k]) + f(x)
  {
    if k > 0 {
      assert s[k := x][1..] == s[1..][k - 1 := x];
      SumOfUpdate(f, s[1..], k - 1, x);
    } else {
      assert s[k := x][1..] == s[1..];
    }
  }
}
