/** Nearest-rank percentiles over an unsorted sample: `percentile`. */
module Percentile {
  import opened Sorting

  predicate AtMostInt(x: int, y: int) { x <= y }

  /** How many samples are at most `v`. */
  function AtMost(s: seq<int>, v: int): nat {
    if s == [] then 0 else AtMost(s[..|s| - 1], v) + (if s[|s| - 1] <= v then 1 else 0)
  }

  /** The least number of samples that make up `p` percent of `n`: at least one, at most all. */
  function Needed(n: nat, p: int): int
    requires n > 0
  {
    if p <= 0 then 1 else if p >= 100 then n else (p * n + 99) / 100
  }

  /** The smallest sample that enough samples do not exceed. */
  ghost predicate NearestRank(s: seq<int>, p: int, v: int)
    requires s != []
  {
    v in s && AtMost(s, v) >= Needed(|s|, p) && forall w :: w in s && w < v ==> AtMost(s, w) < Needed(|s|, p)
  }

  /** For 0 < p < 100 the number needed is the ceiling of p/100 of the sample, and in range. */
  lemma {:induction false} NeededIsCeiling(n: nat, p: int)
    requires n > 0
    ensures 1 <= Needed(n, p) <= n
    ensures 0 < p < 100 ==> 100 * (Needed(n, p) - 1) < p * n <= 100 * Needed(n, p)
  {
    if 0 < p < 100 {
      assert n <= p * n <= 99 * n;
    }
  }

  lemma {:induction false} ProductIsMonotone(p: int, q: int, n: nat)
    requires p <= q
    ensures p * n <= q * n
  {}

  lemma {:induction false} QuotientIsMonotone(x: int, y: int)
    requires x <= y
    ensures x / 100 <= y / 100
  {}

  lemma {:induction false} NeededIsMonotone(n: nat, p: int, q: int)
    requires n > 0 && p <= q
    ensures Needed(n, p) <= Needed(n, q)
  {
    if p <= 0 || q >= 100 {
      NeededIsCeiling(n, p);
      NeededIsCeiling(n, q);
    } else {
      ProductIsMonotone(p, q, n);
      QuotientIsMonotone(p * n + 99, q * n + 99);
    }
  }

  lemma {:induction false} AtMostConcat(s: seq<int>, t: seq<int>, v: int)
    ensures AtMost(s + t, v) == AtMost(s, v) + AtMost(t, v)
  {
    if t == [] {
      assert s + t == s;
    } else {
      assert (s + t)[..|s + t| - 1] == s + t[..|t| - 1];
      AtMostConcat(s, t[..|t| - 1], v);
    }
  }

  lemma {:induction false} AllAtMost(s: seq<int>, v: int)
    requires forall i :: 0 <= i < |s| ==> s[i] <= v
    ensures AtMost(s, v) == |s|
  {
    if s != [] { AllAtMost(s[..|s| - 1], v); }
  }

  lemma {:induction false} NoneAtMost(s: seq<int>, v: int)
    requires forall i :: 0 <= i < |s| ==> v < s[i]
    ensures AtMost(s, v) == 0
  {
    if s != [] { NoneAtMost(s[..|s| - 1], v); }
  }

  lemma {:induction false} AtMostIsMonotone(s: seq<int>, v: int, w: int)
    requires v <= w
    ensures AtMost(s, v) <= AtMost(s, w)
  {
    if s != [] { AtMostIsMonotone(s[..|s| - 1], v, w); }
  }

  lemma {:induction false} AtMostWithout(t: seq<int>, j: nat, v: int)
    requires j < |t|
    ensures AtMost(t, v) == AtMost(t[..j] + t[j + 1..], v) + (if t[j] <= v then 1 else 0)
  {
    var left, right := t[..j + 1], t[j + 1..];
    assert t == left + right && left[..j] == t[..j];
    AtMostConcat(left, right, v);
    AtMostConcat(t[..j], right, v);
  }

  lemma {:induction false} MultisetWithout(t: seq<int>, j: nat)
    requires j < |t|
    ensures multiset(t) == multiset(t[..j] + t[j + 1..]) + multiset{t[j]}
  {
    assert t == t[..j] + [t[j]] + t[j + 1..];
  }

  /** Counting does not depend on the order of the samples. */
  lemma {:induction false} AtMostOfPermutation(s: seq<int>, t: seq<int>, v: int)
    requires multiset(s) == multiset(t)
    ensures AtMost(s, v) == AtMost(t, v)
    decreases |s|
  {
    if s == [] {
      assert |multiset(t)| == 0;
    } else {
      var n := |s| - 1;
      MultisetWithout(s, n);
      assert s[..n] + s[n + 1..] == s[..n];
      assert s[n] in multiset(t);
      var j :| 0 <= j < |t| && t[j] == s[n];
      MultisetWithout(t, j);
      var rest := t[..j] + t[j + 1..];
      assert multiset(s[..n]) + multiset{s[n]} == multiset(rest) + multiset{s[n]};
      SameWithoutOne(multiset(s[..n]), multiset(rest), s[n]);
      AtMostOfPermutation(s[..n], rest, v);
      AtMostWithout(t, j, v);
    }
  }

  lemma {:induction false} SameWithoutOne(a: multiset<int>, b: multiset<int>, x: int)
    requires a + multiset{x} == b + multiset{x}
    ensures a == b
  {
    assert a == (a + multiset{x}) - multiset{x} && b == (b + multiset{x}) - multiset{x};
  }

  lemma {:induction false} FirstOnesCount(s: seq<int>, k: nat, v: int)
    requires k <= |s| && forall i :: 0 <= i < k ==> s[i] <= v
    ensures AtMost(s, v) >= k
  {
    assert s == s[..k] + s[k..];
    AtMostConcat(s[..k], s[k..], v);
    AllAtMost(s[..k], v);
  }

  lemma {:induction false} LaterOnesDoNotCount(s: seq<int>, k: nat, v: int)
    requires k <= |s| && forall i :: k <= i < |s| ==> v < s[i]
    ensures AtMost(s, v) <= k
  {
    assert s == s[..k] + s[k..];
    AtMostConcat(s[..k], s[k..], v);
    NoneAtMost(s[k..], v);
    AtMostBound(s[..k], v);
  }

  /** In sorted order the sample at position `k` is exceeded by none of the first `k + 1`, and
      any smaller value by all but the first `k`. */
  lemma {:induction false} RankInSortedOrder(s: seq<int>, k: nat)
    requires Sorted(AtMostInt, s) && k < |s|
    ensures AtMost(s, s[k]) >= k + 1
    ensures forall w :: w < s[k] ==> AtMost(s, w) <= k
  {
    assert forall i :: 0 <= i < k ==> AtMostInt(s[i], s[k]);
    FirstOnesCount(s, k + 1, s[k]);
    assert forall i :: k < i < |s| ==> AtMostInt(s[k], s[i]);
    forall w | w < s[k] ensures AtMost(s, w) <= k {
      LaterOnesDoNotCount(s, k, w);
    }
  }

  lemma {:induction false} SortedRankIsNearest(s: seq<int>, sorted: seq<int>, p: int, k: nat)
    requires Sorted(AtMostInt, sorted) && multiset(sorted) == multiset(s) && s != []
    requires k < |sorted| && k + 1 == Needed(|s|, p)
    ensures NearestRank(s, p, sorted[k])
  {
    RankInSortedOrder(sorted, k);
    AtMostOfPermutation(s, sorted, sorted[k]);
    assert sorted[k] in multiset(s);
    forall w | w in s && w < sorted[k] ensures AtMost(s, w) < Needed(|s|, p) {
      AtMostOfPermutation(s, sorted, w);
    }
  }

  lemma {:induction false} SortLength(s: seq<int>, t: seq<int>)
    requires multiset(s) == multiset(t)
    ensures |s| == |t|
  {
    assert |s| == |multiset(s)| == |multiset(t)| == |t|;
  }

  /** `percentile`; the empty sample yields 0. */
  method NearestRankPercentile(values: seq<int>, p: int) returns (v: int)
    ensures if values == [] then v == 0 else NearestRank(values, p, v)
  {
    if |values| == 0 { return 0; }
    var a := new int[|values|](i requires 0 <= i < |values| => values[i]);
    assert a[..] == values;
    InsertionSort(a, AtMostInt);
    ghost var sorted := a[..];
    NeededIsCeiling(|values|, p);
    SortedRankIsNearest(values, sorted, p, Needed(|values|, p) - 1);
    if p <= 0 { return a[0]; }
    var n := a.Length;
    if p >= 100 { return a[n - 1]; }
    var rank := (p * n + 99) / 100;
    if rank < 1 { rank := 1; }
    if rank > n { rank := n; }
    v := a[rank - 1];
  }

  /** The percentile is determined by the samples, whatever their order, and never falls as `p`
      grows. */
  lemma {:induction false} PercentileIsMonotone(s: seq<int>, t: seq<int>, p: int, q: int, v: int, w: int)
    requires s != [] && t != [] && multiset(s) == multiset(t)
    requires p <= q && NearestRank(s, p, v) && NearestRank(t, q, w)
    ensures v <= w && (p == q ==> v == w)
  {
    SortLength(s, t);
    NeededIsMonotone(|s|, p, q);
    assert w in multiset(s) && v in multiset(t);
    AtMostOfPermutation(s, t, w);
    AtMostOfPermutation(s, t, v);
  }

  /** At the two ends it is the least and the greatest sample. */
  lemma {:induction false} ExtremesAreMinAndMax(s: seq<int>, p: int, v: int)
    requires s != [] && NearestRank(s, p, v)
    ensures p <= 0 ==> forall w :: w in s ==> v <= w
    ensures p >= 100 ==> forall w :: w in s ==> w <= v
  {
    forall w | w in s ensures (p <= 0 ==> v <= w) && (p >= 100 ==> w <= v) {
      var j :| 0 <= j < |s| && s[j] == w;
      assert s == s[..j] + ([w] + s[j + 1..]);
      assert [w][..0] == [];
      forall u ensures AtMost(s, u) == AtMost(s[..j], u) + (if w <= u then 1 else 0) + AtMost(s[j + 1..], u) {
        AtMostConcat(s[..j], [w] + s[j + 1..], u);
        AtMostConcat([w], s[j + 1..], u);
      }
      AtMostBound(s[..j], v);
      AtMostBound(s[j + 1..], v);
    }
  }

  lemma {:induction false} AtMostBound(s: seq<int>, v: int)
    ensures AtMost(s, v) <= |s|
  {
    if s != [] { AtMostBound(s[..|s| - 1], v); }
  }
}
