/**
 The Redis command latency histogram (redis_command_latency_histogram.ts), against the list of
 observations it stands for. Durations and quantiles are exact reals.
 */
module LatencyHistogram {

  const BUCKETS: seq<real> :=
    [1.0, 2.0, 5.0, 10.0, 25.0, 50.0, 100.0, 250.0, 500.0, 1000.0, 5000.0]

  predicate Increasing(b: seq<real>) {
    |b| > 0 && b[0] > 0.0 && forall i, j :: 0 <= i < j < |b| ==> b[i] < b[j]
  }

  // ---------------------------------------------------------- counting observations

  function CountAtMost(obs: seq<real>, x: real): nat {
    if obs == [] then 0
    else CountAtMost(obs[..|obs| - 1], x) + if obs[|obs| - 1] <= x then 1 else 0
  }

  function CountBelow(obs: seq<real>, x: real): nat {
    if obs == [] then 0
    else CountBelow(obs[..|obs| - 1], x) + if obs[|obs| - 1] < x then 1 else 0
  }

  /** The observations in bucket `i`: above the bound before it, at most its own bound. */
  function CountIn(b: seq<real>, obs: seq<real>, i: nat): nat
    requires i < |b|
  {
    if obs == [] then 0
    else CountIn(b, obs[..|obs| - 1], i) + if InBucket(b, obs[|obs| - 1], i) then 1 else 0
  }

  predicate InBucket(b: seq<real>, x: real, i: nat)
    requires i < |b|
  {
    x <= b[i] && (i == 0 || b[i - 1] < x)
  }

  function Sum(obs: seq<real>): real {
    if obs == [] then 0.0 else Sum(obs[..|obs| - 1]) + obs[|obs| - 1]
  }

  lemma {:induction false} CumulativeStep(b: seq<real>, obs: seq<real>, i: nat)
    requires Increasing(b) && i < |b|
    ensures CountAtMost(obs, b[i]) == (if i == 0 then 0 else CountAtMost(obs, b[i - 1])) + CountIn(b, obs, i)
  {
    if obs != [] { CumulativeStep(b, obs[..|obs| - 1], i); }
  }

  lemma {:induction false} CountMonotone(obs: seq<real>, x: real, y: real)
    requires x <= y
    ensures CountAtMost(obs, x) <= CountAtMost(obs, y) <= |obs|
    ensures x < y ==> CountAtMost(obs, x) <= CountBelow(obs, y)
    ensures CountBelow(obs, x) <= CountAtMost(obs, x)
  {
    if obs != [] { CountMonotone(obs[..|obs| - 1], x, y); }
  }

  // ------------------------------------------------------------------ the quantile

  /** The exact cumulative counts of a list of observations. */
  predicate Cumulative(b: seq<real>, obs: seq<real>, cum: seq<nat>) {
    |cum| == |b| && forall i :: 0 <= i < |b| ==> cum[i] == CountAtMost(obs, b[i])
  }

  /** The first bucket from `i` on whose cumulative count reaches the target. */
  function Reached(cum: seq<nat>, target: real, i: nat): (r: nat)
    requires i <= |cum|
    ensures i <= r <= |cum|
    ensures forall k :: i <= k < r ==> (cum[k] as real) < target
    ensures r < |cum| ==> cum[r] as real >= target
    decreases |cum| - i
  {
    if i == |cum| || cum[i] as real >= target then i else Reached(cum, target, i + 1)
  }

  function PrevCount(cum: seq<nat>, i: nat): nat
    requires i < |cum|
  {
    if i == 0 then 0 else cum[i - 1]
  }

  function PrevBound(b: seq<real>, i: nat): real
    requires i < |b|
  {
    if i == 0 then 0.0 else b[i - 1]
  }

  /** Linear interpolation from `lo` to `hi` as `target` goes from `from` to `from + width`. */
  function Blend(lo: real, hi: real, target: real, from: nat, width: int): real
    requires width > 0
  {
    lo + (hi - lo) * ((target - from as real) / width as real)
  }

  function Interpolate(b: seq<real>, cum: seq<nat>, target: real, i: nat): real
    requires i < |b| == |cum|
  {
    var inBucket := cum[i] - PrevCount(cum, i);
    if inBucket <= 0 then b[i] else Blend(PrevBound(b, i), b[i], target, PrevCount(cum, i), inBucket)
  }

  function Quantile(b: seq<real>, cum: seq<nat>, count: nat, q: real): real
    requires |b| == |cum| > 0
  {
    if count == 0 then 0.0 else
    ValueAt(b, cum, q * count as real)
  }

  function ValueAt(b: seq<real>, cum: seq<nat>, target: real): real
    requires |b| == |cum| > 0
  {
    var i := Reached(cum, target, 0);
    if i < |b| then Interpolate(b, cum, target, i) else b[|b| - 1]
  }

  lemma BlendBounds(lo: real, hi: real, target: real, from: nat, width: int)
    requires lo < hi && width > 0 && from as real < target <= (from + width) as real
    ensures lo < Blend(lo, hi, target, from, width) <= hi
  {
    FractionBounds(target - from as real, width as real);
    ScaledBounds(hi - lo, (target - from as real) / width as real);
  }

  lemma FractionBounds(d: real, w: real)
    requires 0.0 < d <= w
    ensures 0.0 < d / w <= 1.0
  {
    var f := d / w;
    assert f * w == d;
    assert f <= 0.0 ==> f * w <= 0.0;
    assert f > 1.0 ==> (f - 1.0) * w > 0.0;
  }

  lemma ScaledBounds(c: real, f: real)
    requires 0.0 < c && 0.0 < f <= 1.0
    ensures 0.0 < c * f <= c
  {
    assert c * (1.0 - f) >= 0.0;
  }

  lemma BlendMonotone(lo: real, hi: real, s: real, t: real, from: nat, width: int)
    requires lo < hi && width > 0 && s <= t
    ensures Blend(lo, hi, s, from, width) <= Blend(lo, hi, t, from, width)
  {
  }

  lemma ReachedNotEmpty(cum: seq<nat>, target: real)
    requires target > 0.0
    ensures var i := Reached(cum, target, 0);
      i < |cum| ==> PrevCount(cum, i) as real < target <= cum[i] as real
  {}

  /**
   For a positive target the bucket found is not empty, so the `inBucket <= 0` branch is dead,
   and the interpolated value lies inside that bucket.
   */
  lemma InsideBucket(b: seq<real>, cum: seq<nat>, target: real)
    requires Increasing(b) && |b| == |cum| && target > 0.0
    ensures var i := Reached(cum, target, 0);
      i < |b| ==>
        && cum[i] > PrevCount(cum, i)
        && PrevBound(b, i) < Interpolate(b, cum, target, i) <= b[i]
  {
    var i := Reached(cum, target, 0);
    if i < |b| {
      ReachedNotEmpty(cum, target);
      BlendBounds(PrevBound(b, i), b[i], target, PrevCount(cum, i), cum[i] - PrevCount(cum, i));
    }
  }

  /** `v` is the `r`-th smallest observation (counting from one, ties allowed). */
  predicate IsRank(obs: seq<real>, r: nat, v: real) {
    CountBelow(obs, v) < r <= CountAtMost(obs, v)
  }

  /** `r` is the rounded-up rank of the quantile `q` among `n` observations. */
  predicate IsCeiling(target: real, r: nat) {
    (r - 1) as real < target <= r as real
  }

  /**
   The reported quantile is in the same bucket as the observation of rank ceil(q * n), and is
   the last bound exactly when that observation lies above every bound.
   */
  lemma QuantileInRankBucket(b: seq<real>, obs: seq<real>, cum: seq<nat>, q: real, r: nat, v: real)
    requires Increasing(b) && Cumulative(b, obs, cum)
    requires 0.0 < q <= 1.0 && obs != [] && v >= 0.0
    ensures IsCeiling(q * |obs| as real, r) && IsRank(obs, r, v) ==>
      var x := Quantile(b, cum, |obs|, q); var i := Reached(cum, q * |obs| as real, 0);
      && (i == |b| <==> v > b[|b| - 1])
      && (i == |b| ==> x == b[|b| - 1])
      && (i < |b| ==> InBucket(b, v, i) && InBucket(b, x, i) && x > 0.0)
  {
    var target := q * |obs| as real;
    assert target > 0.0 by { PositiveProduct(q, |obs| as real); }
    if IsCeiling(target, r) && IsRank(obs, r, v) {
      TargetInRankBucket(b, obs, cum, target, r, v);
      assert Quantile(b, cum, |obs|, q) == ValueAt(b, cum, target);
    }
  }

  lemma TargetInRankBucket(b: seq<real>, obs: seq<real>, cum: seq<nat>, target: real, r: nat, v: real)
    requires Increasing(b) && Cumulative(b, obs, cum) && target > 0.0 && v >= 0.0
    ensures IsCeiling(target, r) && IsRank(obs, r, v) ==>
      var x := ValueAt(b, cum, target); var i := Reached(cum, target, 0);
      && (i == |b| <==> v > b[|b| - 1])
      && (i == |b| ==> x == b[|b| - 1])
      && (i < |b| ==> InBucket(b, v, i) && InBucket(b, x, i) && x > 0.0)
  {
    if IsCeiling(target, r) && IsRank(obs, r, v) {
      forall k | 0 <= k < |b|
        ensures v <= b[k] <==> cum[k] as real >= target
      {
        RankReached(obs, r, v, target, b[k]);
      }
      ReachedHolds(b, cum, target, v);
      InsideBucket(b, cum, target);
    }
  }

  /** The observation of rank r is at or below a bound exactly when the target count is reached there. */
  lemma RankReached(obs: seq<real>, r: nat, v: real, target: real, bound: real)
    requires IsRank(obs, r, v) && IsCeiling(target, r)
    ensures v <= bound <==> CountAtMost(obs, bound) as real >= target
  {
    if v <= bound {
      CountMonotone(obs, v, bound);
    } else {
      CountMonotone(obs, bound, v);
    }
  }

  /** The bucket reached is then the bucket that holds it. */
  lemma ReachedHolds(b: seq<real>, cum: seq<nat>, target: real, v: real)
    requires Increasing(b) && |b| == |cum| && v >= 0.0
    requires forall k :: 0 <= k < |b| ==> (v <= b[k] <==> cum[k] as real >= target)
    ensures var i := Reached(cum, target, 0);
      (i == |b| <==> v > b[|b| - 1]) && (i < |b| ==> InBucket(b, v, i))
  {
  }

  lemma PositiveProduct(x: real, y: real)
    requires x > 0.0 && y > 0.0
    ensures x * y > 0.0
  {}

  lemma ReachedMonotone(cum: seq<nat>, s: real, t: real)
    requires s <= t
    ensures Reached(cum, s, 0) <= Reached(cum, t, 0)
  {}

  lemma TargetMonotone(b: seq<real>, cum: seq<nat>, s: real, t: real)
    requires Increasing(b) && |b| == |cum| && 0.0 < s <= t
    ensures var i, j := Reached(cum, s, 0), Reached(cum, t, 0);
      && i <= j
      && (j < |b| ==> Interpolate(b, cum, s, i) <= Interpolate(b, cum, t, j))
      && (i < |b| ==> Interpolate(b, cum, s, i) <= b[|b| - 1])
  {
    var i, j := Reached(cum, s, 0), Reached(cum, t, 0);
    ReachedMonotone(cum, s, t);
    InsideBucket(b, cum, s);
    InsideBucket(b, cum, t);
    if i == j && i < |b| {
      BlendMonotone(PrevBound(b, i), b[i], s, t, PrevCount(cum, i), cum[i] - PrevCount(cum, i));
    }
  }

  /** A larger quantile never reports a smaller latency. */
  lemma QuantileMonotone(b: seq<real>, cum: seq<nat>, n: nat, p: real, q: real)
    requires Increasing(b) && |b| == |cum| && 0.0 < p <= q <= 1.0
    ensures Quantile(b, cum, n, p) <= Quantile(b, cum, n, q)
  {
    if n > 0 {
      PositiveProduct(p, n as real);
      assert p * n as real <= q * n as real;
      TargetMonotone(b, cum, p * n as real, q * n as real);
    }
  }

  // ------------------------------------------------ every rank has an observation

  /** The largest observation below `x`, or below everything when `x` is not bounded. */
  lemma {:induction false} LargestBelow(obs: seq<real>, x: real) returns (v: real)
    requires CountBelow(obs, x) > 0
    ensures v in obs && v < x && CountAtMost(obs, v) == CountBelow(obs, x)
  {
    var n := |obs| - 1;
    var rest, last := obs[..n], obs[n];
    if CountBelow(rest, x) == 0 {
      v := last;
      CountMonotone(rest, v, x);
    } else {
      v := LargestBelow(rest, x);
      if v < last < x {
        CountMonotone(rest, v, last);
        CountMonotone(rest, last, x);
        v := last;
      }
    }
  }

  lemma {:induction false} CountBelowAll(obs: seq<real>, x: real)
    requires forall i :: 0 <= i < |obs| ==> obs[i] < x
    ensures CountBelow(obs, x) == |obs|
  {
    if obs != [] { CountBelowAll(obs[..|obs| - 1], x); }
  }

  lemma {:induction false} AboveAll(obs: seq<real>) returns (x: real)
    ensures forall i :: 0 <= i < |obs| ==> obs[i] < x
  {
    if obs == [] {
      x := 0.0;
    } else {
      x := AboveAll(obs[..|obs| - 1]);
      if x <= obs[|obs| - 1] { x := obs[|obs| - 1] + 1.0; }
    }
  }

  lemma RankExists(obs: seq<real>, r: nat) returns (v: real)
    requires 1 <= r <= |obs|
    ensures v in obs && IsRank(obs, r, v)
  {
    var x := AboveAll(obs);
    CountBelowAll(obs, x);
    v := LargestBelow(obs, x);
    while CountBelow(obs, v) >= r
      invariant v in obs && r <= CountAtMost(obs, v)
      decreases CountBelow(obs, v)
    {
      var w := LargestBelow(obs, v);
      assert CountBelow(obs, w) < CountBelow(obs, v) by { StrictlyFewer(obs, w, v); }
      v := w;
    }
  }

  lemma {:induction false} StrictlyFewer(obs: seq<real>, w: real, v: real)
    requires w in obs && w < v
    ensures CountBelow(obs, w) < CountBelow(obs, v)
  {
    var n := |obs| - 1;
    CountMonotone(obs[..n], w, v);
    if obs[n] != w { StrictlyFewer(obs[..n], w, v); }
  }

  // -------------------------------------------------------------------- the object

  /** Binary search for the first bound that is at least `durationMs`. */
  method FindBucketIndex(b: seq<real>, durationMs: real) returns (lo: nat)
    requires Increasing(b)
    ensures lo <= |b|
    ensures lo < |b| ==> InBucket(b, durationMs, lo)
    ensures lo == |b| ==> durationMs > b[|b| - 1]
  {
    lo := 0;
    var hi := |b|;
    while lo < hi
      invariant 0 <= lo <= hi <= |b|
      invariant forall k :: 0 <= k < lo ==> b[k] < durationMs
      invariant forall k :: hi <= k < |b| ==> durationMs <= b[k]
    {
      var mid := (lo + hi) / 2;
      if durationMs <= b[mid] {
        hi := mid;
      } else {
        lo := mid + 1;
      }
    }
  }

  datatype Duration = Finite(ms: real) | NotFinite

  datatype Snapshot = Snapshot(cumulative: seq<nat>, count: nat, sumMs: real, p50: real, p95: real, p99: real)

  class Histogram {
    const counts: array<nat>
    var sumMs: real
    var count: nat
    ghost var obs: seq<real>

    ghost predicate Valid()
      reads this, counts
    {
      && counts.Length == |BUCKETS|
      && count == |obs|
      && sumMs == Sum(obs)
      && (forall i :: 0 <= i < |obs| ==> obs[i] >= 0.0)
      && (forall i :: 0 <= i < |BUCKETS| ==> counts[i] == CountIn(BUCKETS, obs, i))
    }

    constructor ()
      ensures Valid() && obs == [] && fresh(counts)
    {
      counts := new nat[|BUCKETS|](_ => 0);
      sumMs, count, obs := 0.0, 0, [];
    }

    method Observe(d: Duration)
      requires Valid()
      modifies this, counts
      ensures Valid() && obs == if d.Finite? && d.ms >= 0.0 then old(obs) + [d.ms] else old(obs)
    {
      if d.NotFinite? || d.ms < 0.0 { return; }
      sumMs := sumMs + d.ms;
      count := count + 1;
      var idx := FindBucketIndex(BUCKETS, d.ms);
      ghost var was := obs;
      if idx < |BUCKETS| {
        counts[idx] := counts[idx] + 1;
      }
      obs := obs + [d.ms];
      assert obs[..|obs| - 1] == was;
      assert forall i :: 0 <= i < |BUCKETS| ==> (InBucket(BUCKETS, d.ms, i) <==> i == idx);
    }

    method QuantileOf(cum: seq<nat>, q: real) returns (x: real)
      requires |cum| == |BUCKETS|
      ensures x == Quantile(BUCKETS, cum, count, q)
    {
      if count == 0 { return 0.0; }
      var target := q * count as real;
      var prevBoundary, prevCount, i := 0.0, 0, 0;
      while i < |BUCKETS|
        invariant 0 <= i <= |BUCKETS|
        invariant Reached(cum, target, 0) == Reached(cum, target, i)
        invariant i < |BUCKETS| ==> prevBoundary == PrevBound(BUCKETS, i) && prevCount == PrevCount(cum, i)
      {
        var upper, c := BUCKETS[i], cum[i];
        if c as real >= target {
          var inBucket: int := c - prevCount;
          if inBucket <= 0 { return upper; }
          return Blend(prevBoundary, upper, target, prevCount, inBucket);
        }
        prevBoundary, prevCount, i := upper, c, i + 1;
      }
      return BUCKETS[|BUCKETS| - 1];
    }

    /** Cumulative counts are exactly the observations at or below each bound. */
    method CumulativeCounts() returns (cum: seq<nat>)
      requires Valid()
      ensures Cumulative(BUCKETS, obs, cum)
    {
      var cumulative: nat := 0;
      cum := [];
      for index := 0 to |BUCKETS|
        invariant |cum| == index
        invariant forall i :: 0 <= i < index ==> cum[i] == CountAtMost(obs, BUCKETS[i])
        invariant cumulative == if index == 0 then 0 else CountAtMost(obs, BUCKETS[index - 1])
      {
        CumulativeStep(BUCKETS, obs, index);
        cumulative := cumulative + counts[index];
        cum := cum + [cumulative];
      }
    }

    method TakeSnapshot() returns (s: Snapshot)
      requires Valid()
      ensures Cumulative(BUCKETS, obs, s.cumulative) && s.count == |obs| && s.sumMs == Sum(obs)
      ensures s.p50 == Quantile(BUCKETS, s.cumulative, s.count, 0.5)
      ensures s.p95 == Quantile(BUCKETS, s.cumulative, s.count, 0.95)
      ensures s.p99 == Quantile(BUCKETS, s.cumulative, s.count, 0.99)
    {
      var cum := CumulativeCounts();
      var p50 := QuantileOf(cum, 0.5);
      var p95 := QuantileOf(cum, 0.95);
      var p99 := QuantileOf(cum, 0.99);
      s := Snapshot(cum, count, sumMs, p50, p95, p99);
    }

    method Reset()
      requires Valid()
      modifies this, counts
      ensures Valid() && obs == []
    {
      for i := 0 to counts.Length
        invariant forall k :: 0 <= k < i ==> counts[k] == 0
        modifies counts
      {
        counts[i] := 0;
      }
      sumMs, count, obs := 0.0, 0, [];
    }
  }
}
