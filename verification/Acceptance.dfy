/** The arithmetic of the acceptance script: nearest-rank percentile and pass-rate gate. */
module Acceptance {
  import opened Sql

  predicate Sorted(s: seq<int>) { forall i, j :: 0 <= i < j < |s| ==> s[i] <= s[j] }

  function Insert(x: int, s: seq<int>): (r: seq<int>)
    ensures multiset(r) == multiset(s) + multiset{x}
  {
    if s == [] || x <= s[0] then [x] + s
    else
      assert s == [s[0]] + s[1..];
      [s[0]] + Insert(x, s[1..])
  }

  /** `sorted(samples)` */
  function Sort(s: seq<int>): (r: seq<int>)
    ensures multiset(r) == multiset(s)
  {
    if s == [] then []
    else
      assert s == [s[0]] + s[1..];
      Insert(s[0], Sort(s[1..]))
  }

  lemma {:induction false} InsertSorted(x: int, s: seq<int>)
    requires Sorted(s)
    ensures Sorted(Insert(x, s))
  {
    if s != [] && x > s[0] {
      InsertSorted(x, s[1..]);
      var r := Insert(x, s[1..]);
      forall j | 0 <= j < |r| ensures s[0] <= r[j] {
        assert r[j] in multiset(r);
        assert r[j] == x || r[j] in s[1..];
      }
    }
  }

  lemma {:induction false} SortSorted(s: seq<int>)
    ensures Sorted(Sort(s)) && |Sort(s)| == |s|
  {
    assert |multiset(Sort(s))| == |multiset(s)|;
    if s != [] {
      SortSorted(s[1..]);
      InsertSorted(s[0], Sort(s[1..]));
    }
  }

  /** max(1, (95 * n + 99) // 100): 95% of n, rounded up. */
  function Rank(n: nat): int {
    if (95 * n + 99) / 100 < 1 then 1 else (95 * n + 99) / 100
  }

  lemma RankInRange(n: nat)
    requires n > 0
    ensures 1 <= Rank(n) <= n
    ensures 100 * (Rank(n) - 1) < 95 * n <= 100 * Rank(n)
  {
  }

  /** None stands for the error raised without samples. */
  function NearestRankP95(samples: seq<int>): Option<int> {
    if samples == [] then None else
      SortSorted(samples);
      RankInRange(|samples|);
      Some(Sort(samples)[Rank(|samples|) - 1])
  }

  function CountBelow(s: seq<int>, x: int): (n: nat)
    ensures n <= |s|
  {
    if s == [] then 0 else (if s[0] < x then 1 else 0) + CountBelow(s[1..], x)
  }

  function CountUpTo(s: seq<int>, x: int): nat { CountBelow(s, x + 1) }

  /** Counting depends on the samples only, not on their order. */
  lemma {:induction false} CountIsOrderFree(s: seq<int>, x: int)
    ensures CountBelow(Sort(s), x) == CountBelow(s, x)
  {
    if s != [] {
      CountIsOrderFree(s[1..], x);
      CountInsert(s[0], Sort(s[1..]), x);
    }
  }

  lemma {:induction false} CountInsert(y: int, s: seq<int>, x: int)
    ensures CountBelow(Insert(y, s), x) == CountBelow(s, x) + (if y < x then 1 else 0)
  {
    if s != [] && y > s[0] {
      CountInsert(y, s[1..], x);
      assert Insert(y, s)[1..] == Insert(y, s[1..]);
    } else {
      assert ([y] + s)[1..] == s;
    }
  }

  /** In a sorted list, k entries below x means exactly the first k are. */
  lemma {:induction false} CountSorted(s: seq<int>, x: int, k: nat)
    requires Sorted(s) && k < |s|
    ensures k < CountBelow(s, x) <==> s[k] < x
  {
    if k == 0 {
      if s[0] >= x { NoneBelow(s, x); }
    } else {
      CountSorted(s[1..], x, k - 1);
      assert s[0] <= s[k];
      if s[0] >= x { NoneBelow(s, x); }
    }
  }

  lemma {:induction false} NoneBelow(s: seq<int>, x: int)
    requires forall i :: 0 <= i < |s| ==> s[i] >= x
    ensures CountBelow(s, x) == 0
  {
    if s != [] { NoneBelow(s[1..], x); }
  }

  /** p is a sample with at least 95% of the samples at or below it and strictly fewer than
      95% below it. */
  predicate IsP95(samples: seq<int>, p: int) {
    && p in samples
    && 100 * CountUpTo(samples, p) >= 95 * |samples|
    && 100 * CountBelow(samples, p) < 95 * |samples|
  }

  lemma SortedCounts(sorted: seq<int>, k: nat)
    requires Sorted(sorted) && k < |sorted|
    ensures CountBelow(sorted, sorted[k]) <= k < CountUpTo(sorted, sorted[k])
  {
    CountSorted(sorted, sorted[k] + 1, k);
    CountSorted(sorted, sorted[k], k);
  }

  lemma ResultIsP95(samples: seq<int>)
    requires samples != []
    ensures NearestRankP95(samples).Some? && IsP95(samples, NearestRankP95(samples).value)
  {
    SortSorted(samples);
    RankInRange(|samples|);
    var k := Rank(|samples|) - 1;
    var p := Sort(samples)[k];
    assert p in samples by { assert p in multiset(Sort(samples)); }
    SortedCounts(Sort(samples), k);
    CountIsOrderFree(samples, p + 1);
    CountIsOrderFree(samples, p);
  }

  /** For every non-empty list there is exactly one such value and the script returns it; an
      empty list has none and is an error. */
  lemma P95IsNearestRank(samples: seq<int>, p: int)
    ensures NearestRankP95(samples) == Some(p) <==> IsP95(samples, p)
    ensures NearestRankP95(samples) == None <==> samples == []
  {
    if samples != [] {
      ResultIsP95(samples);
      var q := NearestRankP95(samples).value;
      if IsP95(samples, p) {
        if p < q { CountMonotone(samples, p + 1, q); }
        if q < p { CountMonotone(samples, q + 1, p); }
      }
    }
  }

  lemma {:induction false} CountMonotone(s: seq<int>, x: int, y: int)
    requires x <= y
    ensures CountBelow(s, x) <= CountBelow(s, y)
  {
    if s != [] { CountMonotone(s[1..], x, y); }
  }

  /** passes * 10_000 // runs, floored. */
  function BasisPoints(passes: nat, runs: nat): int
    requires runs > 0
  {
    passes * 10_000 / runs
  }

  lemma FlooredAtLeast(x: nat, d: nat, k: nat)
    requires d > 0
    ensures x / d >= k <==> x >= k * d
  {
    var q, r := x / d, x % d;
    assert x == q * d + r && r < d;
    if q >= k {
      Scaled(k, q, d);
    } else {
      Scaled(q + 1, k, d);
    }
  }

  lemma Scaled(a: nat, b: nat, d: nat)
    requires a <= b
    ensures a * d <= b * d
  {
  }

  /** Rounding down never lets a run below 95% through the gate, nor stops one at 95%. */
  lemma GateIsExact(passes: nat, runs: nat)
    requires runs > 0
    ensures BasisPoints(passes, runs) >= 9_500 <==> 20 * passes >= 19 * runs
  {
    FlooredAtLeast(passes * 10_000, runs, 9_500);
  }
}
