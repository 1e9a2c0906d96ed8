/** Latency in fixed buckets: saturating counters, exact merge, bracketed quantiles. */
module Latency {
  import opened Prelude

  const U64_MAX: nat := 0xFFFF_FFFF_FFFF_FFFF
  const LIMITS_MS: seq<nat> := [10, 50, 100, 250, 500, 1_000, 2_500, 5_000, 10_000, 30_000, 60_000]
  const BUCKETS: nat := 12

  type U64 = n: nat | n <= U64_MAX

  function Saturating(a: nat, b: nat): U64 {
    Min(a + b, U64_MAX)
  }

  /** The bucket of a latency: the first whose inclusive upper limit holds it. */
  function Bucket(ms: nat): (b: nat)
    ensures b < BUCKETS
    ensures b < |LIMITS_MS| ==> ms <= LIMITS_MS[b]
    ensures forall i :: 0 <= i < b ==> LIMITS_MS[i] < ms
  {
    BucketFrom(ms, 0)
  }

  function BucketFrom(ms: nat, from: nat): (b: nat)
    requires from <= |LIMITS_MS|
    ensures from <= b <= |LIMITS_MS|
    ensures b < |LIMITS_MS| ==> ms <= LIMITS_MS[b]
    ensures forall i :: from <= i < b ==> LIMITS_MS[i] < ms
    decreases |LIMITS_MS| - from
  {
    if from == |LIMITS_MS| || ms <= LIMITS_MS[from] then from else BucketFrom(ms, from + 1)
  }

  lemma LimitsIncrease(i: nat, j: nat)
    requires i < j < |LIMITS_MS|
    ensures LIMITS_MS[i] < LIMITS_MS[j]
  {
  }

  lemma BucketMonotone(a: nat, b: nat)
    ensures a <= b ==> Bucket(a) <= Bucket(b)
    ensures Bucket(a) < Bucket(b) ==> a < b
  {
  }

  // ---------------------------------------------------------------- values

  datatype Counts = Counts(buckets: seq<U64>, count: U64, sumMs: U64, maxMs: U64)
  {
    ghost predicate Shaped() {
      |buckets| == BUCKETS
    }

    /** The merge of two histograms. */
    function Plus(o: Counts): (r: Counts)
      requires Shaped() && o.Shaped()
      ensures r.Shaped()
    {
      Counts(seq(BUCKETS, i requires 0 <= i < BUCKETS => Saturating(buckets[i], o.buckets[i])),
             Saturating(count, o.count), Saturating(sumMs, o.sumMs), Max(maxMs, o.maxMs))
    }
  }

  function Zero(): (z: Counts)
    ensures z.Shaped()
  {
    Counts(seq(BUCKETS, i => 0), 0, 0, 0)
  }

  /** A duration in milliseconds as the code stores it. */
  function Clamped(ms: nat): U64 {
    Min(ms, U64_MAX)
  }

  function One(ms: nat): (r: Counts)
    ensures r.Shaped()
  {
    Counts(seq(BUCKETS, i => if i == Bucket(Clamped(ms)) then 1 else 0), 1, Clamped(ms), Clamped(ms))
  }

  /** The histogram of a list of latencies, recorded in order. */
  function Of(samples: seq<nat>): (h: Counts)
    ensures h.Shaped()
  {
    if samples == [] then Zero() else Of(samples[..|samples| - 1]).Plus(One(Last(samples)))
  }

  lemma SaturatingLaws(a: U64, b: U64, c: U64)
    ensures Saturating(a, b) == Saturating(b, a)
    ensures Saturating(Saturating(a, b), c) == Saturating(a, Saturating(b, c))
  {
  }

  /** Saturation included, merging is a commutative monoid. */
  lemma {:induction false} PlusLaws(a: Counts, b: Counts, c: Counts)
    requires a.Shaped() && b.Shaped() && c.Shaped()
    ensures a.Plus(b) == b.Plus(a)
    ensures a.Plus(b).Plus(c) == a.Plus(b.Plus(c))
    ensures a.Plus(Zero()) == a
  {
    forall i | 0 <= i < BUCKETS
      ensures a.Plus(b).buckets[i] == b.Plus(a).buckets[i]
      ensures a.Plus(b).Plus(c).buckets[i] == a.Plus(b.Plus(c)).buckets[i]
      ensures a.Plus(Zero()).buckets[i] == a.buckets[i]
    {
      SaturatingLaws(a.buckets[i], b.buckets[i], c.buckets[i]);
    }
    assert a.Plus(b).buckets == b.Plus(a).buckets;
    assert a.Plus(b).Plus(c).buckets == a.Plus(b.Plus(c)).buckets;
    assert a.Plus(Zero()).buckets == a.buckets;
  }

  /** Recording a concatenation is merging the parts. */
  lemma {:induction false} MergeIsExact(xs: seq<nat>, ys: seq<nat>)
    ensures Of(xs + ys) == Of(xs).Plus(Of(ys))
    decreases |ys|
  {
    if ys == [] {
      assert xs + ys == xs;
      PlusLaws(Of(xs), Zero(), Zero());
    } else {
      var front := ys[..|ys| - 1];
      assert (xs + ys)[..|xs + ys| - 1] == xs + front;
      MergeIsExact(xs, front);
      PlusLaws(Of(xs), Of(front), One(Last(ys)));
    }
  }

  lemma OfAppend(xs: seq<nat>, x: nat)
    ensures Of(xs + [x]) == Of(xs).Plus(One(x))
  {
    assert (xs + [x])[..|xs|] == xs;
  }

  /** A sample counts the same wherever in the log it stands. */
  lemma {:induction false} SampleMoves(before: seq<nat>, x: nat, after: seq<nat>)
    ensures Of(before + [x] + after) == Of(before + after).Plus(One(x))
  {
    OfAppend(before, x);
    MergeIsExact(before + [x], after);
    MergeIsExact(before, after);
    hide Of, One;
    PlusLaws(Of(before), One(x), Of(after));
    PlusLaws(One(x), Of(after), Zero());
    PlusLaws(Of(before), Of(after), One(x));
  }

  lemma TakenOut(xs: seq<nat>, i: nat)
    requires i < |xs|
    ensures xs == xs[..i] + [xs[i]] + xs[i + 1..]
    ensures multiset(xs[..i] + xs[i + 1..]) == multiset(xs) - multiset{xs[i]}
  {
    assert xs == xs[..i] + [xs[i]] + xs[i + 1..];
  }

  /** The order of recording, and hence of merging, is unobservable. */
  lemma {:induction false} OrderIsInvisible(xs: seq<nat>, ys: seq<nat>)
    requires multiset(xs) == multiset(ys)
    ensures Of(xs) == Of(ys)
    decreases |xs|
  {
    if xs != [] {
      hide Of;
      var n, x := |xs| - 1, Last(xs);
      assert x in multiset(ys);
      var i :| 0 <= i < |ys| && ys[i] == x;
      TakenOut(xs, n);
      TakenOut(ys, i);
      assert xs[..n] + xs[n + 1..] == xs[..n];
      OrderIsInvisible(xs[..n], ys[..i] + ys[i + 1..]);
      OfAppend(xs[..n], x);
      FrontAndLast(xs);
      SampleMoves(ys[..i], x, ys[i + 1..]);
    } else {
      assert |multiset(ys)| == 0;
    }
  }

  // ---------------------------------------------------------------- meaning

  /** How many samples satisfy a test. */
  function CountIf(samples: seq<nat>, p: nat -> bool): nat {
    if samples == [] then 0
    else CountIf(samples[..|samples| - 1], p) + (if p(Last(samples)) then 1 else 0)
  }

  function InBucket(b: nat): nat -> bool {
    (s: nat) => Bucket(s) == b
  }

  function UnderBucket(b: nat): nat -> bool {
    (s: nat) => Bucket(s) < b
  }

  function LessThan(v: nat): nat -> bool {
    (s: nat) => s < v
  }

  function AtMost(v: nat): nat -> bool {
    (s: nat) => s <= v
  }

  function Sum(samples: seq<nat>): nat {
    if samples == [] then 0 else Sum(samples[..|samples| - 1]) + Last(samples)
  }

  lemma {:induction false} CountImplied(samples: seq<nat>, p: nat -> bool, q: nat -> bool)
    requires forall s :: s in samples && p(s) ==> q(s)
    ensures CountIf(samples, p) <= CountIf(samples, q)
    decreases |samples|
  {
    if samples != [] {
      assert Last(samples) in samples;
      CountImplied(samples[..|samples| - 1], p, q);
    }
  }

  /** The cap lies far past the last limit, so it changes no bucket. */
  lemma ClampKeepsBucket(ms: nat)
    ensures Bucket(Clamped(ms)) == Bucket(ms)
  {
    BucketMonotone(Clamped(ms), ms);
    assert ms > U64_MAX ==> Bucket(Clamped(ms)) == |LIMITS_MS|;
  }

  lemma {:induction false} BucketCounterIsTrue(samples: seq<nat>, b: nat)
    requires b < BUCKETS
    ensures Of(samples).buckets[b] == Clamped(CountIf(samples, InBucket(b)))
    decreases |samples|
  {
    if samples != [] {
      BucketCounterIsTrue(samples[..|samples| - 1], b);
      ClampKeepsBucket(Last(samples));
    }
  }

  lemma {:induction false} TotalsAreTrue(samples: seq<nat>)
    ensures Of(samples).count == Clamped(|samples|)
    ensures Of(samples).sumMs == Clamped(Sum(samples))
    decreases |samples|
  {
    hide Of, Sum;
    OfNone();
    if samples != [] {
      var front := samples[..|samples| - 1];
      FrontAndLast(samples);
      TotalsAreTrue(front);
      OfAppend(front, Last(samples));
      SumOfAppend(front, Last(samples));
      TotalsOfPlus(Of(front), Last(samples));
    }
  }

  lemma OfNone()
    ensures Of([]) == Zero() && Sum([]) == 0
  {
  }

  lemma SumOfAppend(xs: seq<nat>, x: nat)
    ensures Sum(xs + [x]) == Sum(xs) + x
  {
    assert (xs + [x])[..|xs|] == xs;
  }

  lemma TotalsOfPlus(h: Counts, x: nat)
    requires h.Shaped()
    ensures h.Plus(One(x)).count == Saturating(h.count, 1) && h.Plus(One(x)).sumMs == Saturating(h.sumMs, Clamped(x))
  {
  }

  function Largest(samples: seq<nat>): nat {
    if samples == [] then 0 else Max(Largest(samples[..|samples| - 1]), Last(samples))
  }

  lemma {:induction false} LargestIsMaximum(samples: seq<nat>)
    ensures forall s :: s in samples ==> s <= Largest(samples)
    ensures samples != [] ==> Largest(samples) in samples
    decreases |samples|
  {
    if samples != [] {
      var front := samples[..|samples| - 1];
      assert samples == front + [Last(samples)];
      LargestIsMaximum(front);
    }
  }

  lemma {:induction false} MaximumIsTrue(samples: seq<nat>)
    ensures Of(samples).maxMs == Clamped(Largest(samples))
    decreases |samples|
  {
    if samples != [] {
      MaximumIsTrue(samples[..|samples| - 1]);
    }
  }

  /**
   * What the counters mean for any log: every counter is the true number, capped,
   * and the maximum is the longest latency, capped.
   */
  lemma CountersAreTrueUpToTheCap(samples: seq<nat>, b: nat)
    requires b < BUCKETS
    ensures Of(samples).buckets[b] == Clamped(CountIf(samples, InBucket(b)))
    ensures Of(samples).count == Clamped(|samples|)
    ensures Of(samples).sumMs == Clamped(Sum(samples))
    ensures forall s :: s in samples ==> Clamped(s) <= Of(samples).maxMs
    ensures samples != [] ==> exists s :: s in samples && Of(samples).maxMs == Clamped(s)
  {
    BucketCounterIsTrue(samples, b);
    TotalsAreTrue(samples);
    MaximumIsTrue(samples);
    LargestIsMaximum(samples);
  }

  // ---------------------------------------------------------------- quantiles

  /** A requested quantile; floating-point input may be not a number. */
  datatype Quantile = NotANumber | Q(q: real)

  function Ceil(x: real): int {
    -((-x).Floor)
  }

  function Between(lo: int, x: int, hi: int): int {
    Min(Max(x, lo), hi)
  }

  function Fraction(q: Quantile): real {
    if q.NotANumber? || q.q > 1.0 then 1.0 else if q.q < 0.0 then 0.0 else q.q
  }

  /** The rank asked for: one-based, never zero, never past the count. */
  function Rank(q: Quantile, n: nat): (r: nat)
    requires 0 < n
    ensures 1 <= r <= n
  {
    Between(1, Ceil(Fraction(q) * n as real), n)
  }

  /**
   * The rank is the smallest number of samples that reaches the quantile, at least one
   * and at most all; not a number asks for all.
   */
  lemma {:induction false} RankIs(q: Quantile, n: nat, r: nat)
    requires 0 < n
    ensures r == Rank(q, n) <==>
              && 1 <= r <= n
              && (r == n || (q.Q? && q.q * n as real <= r as real))
              && (r == 1 || q.NotANumber? || (r - 1) as real < q.q * n as real)
  {
    if q.Q? {
      var x := Fraction(q) * n as real;
      CeilIs(x, r);
      CeilIs(x, Rank(q, n));
      ScaledClamp(q.q, n as real);
    }
  }

  lemma CeilIs(x: real, r: int)
    ensures Ceil(x) <= r <==> x <= r as real
  {
  }

  lemma ScaledClamp(q: real, n: real)
    requires n > 0.0
    ensures q > 1.0 ==> q * n > n
    ensures q < 0.0 ==> q * n < 0.0
  {
    if q > 1.0 { assert (q - 1.0) * n > 0.0; }
    if q < 0.0 { assert (0.0 - q) * n > 0.0; }
  }

  function Limit(b: nat, maxMs: nat): nat {
    if b < |LIMITS_MS| then Min(LIMITS_MS[b], maxMs) else maxMs
  }

  function Accumulated(buckets: seq<U64>, n: nat): nat
    requires n <= |buckets|
  {
    if n == 0 then 0 else Accumulated(buckets, n - 1) + buckets[n - 1]
  }

  lemma {:induction false} AccumulatedGrows(buckets: seq<U64>, m: nat, n: nat)
    requires m <= n <= |buckets|
    ensures Accumulated(buckets, m) <= Accumulated(buckets, n)
    decreases n
  {
    if m < n {
      AccumulatedGrows(buckets, m, n - 1);
    }
  }

  /** `b` is the bucket where the accumulated count first reaches `target`. */
  ghost predicate Reaches(buckets: seq<U64>, target: nat, b: nat)
  {
    b < |buckets| && Accumulated(buckets, b) < target <= Accumulated(buckets, b + 1)
  }

  /** The samples below bucket `b` are exactly the accumulated count, while nothing has saturated. */
  lemma {:induction false} AccumulatedIsRank(samples: seq<nat>, b: nat)
    requires b <= BUCKETS && |samples| <= U64_MAX
    ensures Accumulated(Of(samples).buckets, b) == CountIf(samples, UnderBucket(b))
    decreases b
  {
    hide Of, CountIf, Bucket, UnderBucket, InBucket;
    if b == 0 {
      NoneBelowZero(samples);
    } else {
      AccumulatedIsRank(samples, b - 1);
      BucketCounterIsTrue(samples, b - 1);
      CountAtMost(samples, InBucket(b - 1));
      CountSplits(samples, b);
    }
  }

  lemma {:induction false} NoneBelowZero(samples: seq<nat>)
    ensures CountIf(samples, UnderBucket(0)) == 0
  {
    if samples != [] {
      NoneBelowZero(samples[..|samples| - 1]);
    }
  }

  lemma {:induction false} CountAtMost(samples: seq<nat>, p: nat -> bool)
    ensures CountIf(samples, p) <= |samples|
  {
    if samples != [] {
      CountAtMost(samples[..|samples| - 1], p);
    }
  }

  lemma {:induction false} CountSplits(samples: seq<nat>, b: nat)
    requires 0 < b
    ensures CountIf(samples, UnderBucket(b)) ==
            CountIf(samples, UnderBucket(b - 1)) + CountIf(samples, InBucket(b - 1))
  {
    if samples != [] {
      CountSplits(samples[..|samples| - 1], b);
    }
  }

  /** `v` is the `rank`-th smallest sample. */
  ghost predicate HasRank(samples: seq<nat>, v: nat, rank: nat) {
    v in samples && CountIf(samples, LessThan(v)) < rank <= CountIf(samples, AtMost(v))
  }

  /** The bucket search lands in the bucket of the true order statistic. */
  lemma {:induction false} SearchFindsTheBucket(samples: seq<nat>, v: nat, rank: nat)
    requires |samples| <= U64_MAX
    requires HasRank(samples, v, rank)
    ensures Reaches(Of(samples).buckets, rank, Bucket(v))
  {
    hide Of, Accumulated, CountIf, Bucket, UnderBucket, LessThan, AtMost;
    AccumulatedIsRank(samples, Bucket(v));
    AccumulatedIsRank(samples, Bucket(v) + 1);
    BucketsSeparate(samples, v);
  }

  lemma {:induction false} BucketsSeparate(samples: seq<nat>, v: nat)
    ensures CountIf(samples, UnderBucket(Bucket(v))) <= CountIf(samples, LessThan(v))
    ensures CountIf(samples, AtMost(v)) <= CountIf(samples, UnderBucket(Bucket(v) + 1))
  {
    forall s: nat
      ensures UnderBucket(Bucket(v))(s) ==> LessThan(v)(s)
      ensures AtMost(v)(s) ==> UnderBucket(Bucket(v) + 1)(s)
    {
      BucketMonotone(s, v);
    }
    CountImplied(samples, UnderBucket(Bucket(v)), LessThan(v));
    CountImplied(samples, AtMost(v), UnderBucket(Bucket(v) + 1));
  }

  lemma {:induction false} ReachesIsUnique(buckets: seq<U64>, target: nat, a: nat, b: nat)
    requires Reaches(buckets, target, a) && Reaches(buckets, target, b)
    ensures a == b
  {
    if a < b {
      AccumulatedGrows(buckets, a + 1, b);
    } else if b < a {
      AccumulatedGrows(buckets, b + 1, a);
    }
  }

  /** `r` is what the bucket search answers for a rank. */
  ghost predicate AnswersRank(buckets: seq<U64>, maxMs: nat, rank: nat, r: nat) {
    || (exists b :: Reaches(buckets, rank, b) && r == Limit(b, maxMs))
    || (Accumulated(buckets, |buckets|) < rank && r == maxMs)
  }

  /** `r` is what a quantile query answers for these counts. */
  ghost predicate Answers(h: Counts, q: Quantile, r: Option<nat>)
    requires h.Shaped()
  {
    if h.count == 0 then r == None
    else r.Some? && AnswersRank(h.buckets, h.maxMs, Rank(q, h.count), r.value)
  }

  lemma {:induction false} AnswerInBucket(buckets: seq<U64>, maxMs: nat, rank: nat, b: nat, r: nat)
    requires Reaches(buckets, rank, b) && AnswersRank(buckets, maxMs, rank, r)
    ensures r == Limit(b, maxMs)
  {
    AccumulatedGrows(buckets, b + 1, |buckets|);
    var c: nat :| Reaches(buckets, rank, c) && r == Limit(c, maxMs);
    ReachesIsUnique(buckets, rank, b, c);
  }

  /**
   * Below saturation the answer is the limit of the true order statistic's own
   * bucket, capped by the maximum: never below the statistic, never above the
   * maximum.
   */
  lemma {:induction false} QuantileBrackets(samples: seq<nat>, q: Quantile, r: Option<nat>, v: nat)
    requires samples != [] && |samples| <= U64_MAX
    requires Answers(Of(samples), q, r)
    requires HasRank(samples, v, Rank(q, |samples|))
    ensures r == Some(Limit(Bucket(v), Of(samples).maxMs))
    ensures Clamped(v) <= r.value <= Of(samples).maxMs
    ensures Bucket(v) < |LIMITS_MS| ==> r.value <= LIMITS_MS[Bucket(v)]
  {
    TotalsAreTrue(samples);
    MaximumIsTrue(samples);
    LargestIsMaximum(samples);
    hide Of, Rank, Reaches, Accumulated, Bucket, AnswersRank, Largest;
    var h := Of(samples);
    SearchFindsTheBucket(samples, v, Rank(q, |samples|));
    AnswerInBucket(h.buckets, h.maxMs, Rank(q, |samples|), Bucket(v), r.value);
  }

  lemma {:induction false} AnswerMonotone(buckets: seq<U64>, maxMs: nat, p: nat, q: nat, a: nat, b: nat)
    requires p <= q && |buckets| == BUCKETS
    requires AnswersRank(buckets, maxMs, p, a) && AnswersRank(buckets, maxMs, q, b)
    ensures a <= b
  {
    if b != maxMs {
      var j: nat :| Reaches(buckets, q, j) && b == Limit(j, maxMs);
      AccumulatedGrows(buckets, j + 1, BUCKETS);
      var i: nat :| Reaches(buckets, p, i) && a == Limit(i, maxMs);
      if j < i {
        AccumulatedGrows(buckets, j + 1, i);
      } else if i < j < |LIMITS_MS| {
        LimitsIncrease(i, j);
      }
    }
  }

  lemma ScaledCeilMonotone(x: real, y: real, n: real)
    requires x <= y && 0.0 <= n
    ensures Ceil(x * n) <= Ceil(y * n)
  {
    assert 0.0 <= (y - x) * n;
    assert (y - x) * n == y * n - x * n;
  }

  lemma FractionMonotone(p: real, q: real)
    requires p <= q
    ensures 0.0 <= Fraction(Q(p)) <= Fraction(Q(q)) <= 1.0
  {
  }

  lemma {:induction false} RankMonotone(p: real, q: real, n: nat)
    requires p <= q && 0 < n
    ensures Rank(Q(p), n) <= Rank(Q(q), n)
  {
    hide Fraction;
    var x, y, m := Fraction(Q(p)), Fraction(Q(q)), n as real;
    FractionMonotone(p, q);
    ScaledCeilMonotone(x, y, m);
    assert Rank(Q(p), n) == Between(1, Ceil(x * m), n);
    assert Rank(Q(q), n) == Between(1, Ceil(y * m), n);
  }

  /** A larger quantile never gets a smaller answer, saturated or not. */
  lemma {:induction false} QuantileMonotone(h: Counts, p: real, q: real, a: Option<nat>, b: Option<nat>)
    requires h.Shaped() && 0 < h.count && p <= q
    requires Answers(h, Q(p), a) && Answers(h, Q(q), b)
    ensures a.value <= b.value
  {
    RankMonotone(p, q, h.count);
    AnswerMonotone(h.buckets, h.maxMs, Rank(Q(p), h.count), Rank(Q(q), h.count), a.value, b.value);
  }

  /** Every rank is held by some sample, so the bracket always speaks about a real one. */
  lemma {:induction false} SomeSampleHasRank(samples: seq<nat>, rank: nat, v: nat)
    requires 0 < rank <= CountIf(samples, AtMost(v))
    ensures exists w :: HasRank(samples, w, rank)
    decreases v
  {
    if CountIf(samples, LessThan(v)) < rank {
      if v !in samples {
        CountImplied(samples, AtMost(v), LessThan(v));
      }
      assert HasRank(samples, v, rank);
    } else {
      if v == 0 {
        CountImplied(samples, LessThan(0), UnderBucket(0));
        NoneBelowZero(samples);
      }
      CountImplied(samples, LessThan(v), AtMost(v - 1));
      SomeSampleHasRank(samples, rank, v - 1);
    }
  }

  // ---------------------------------------------------------------- the object

  class Histogram {
    const buckets: array<U64>
    var count: U64
    var sumMs: U64
    var maxMs: U64

    ghost predicate Valid()
      reads this
    {
      buckets.Length == BUCKETS
    }

    ghost function Value(): (h: Counts)
      requires Valid()
      reads this, buckets
      ensures h.Shaped()
    {
      Counts(buckets[..], count, sumMs, maxMs)
    }

    constructor ()
      ensures Valid() && fresh(buckets) && Value() == Zero()
    {
      buckets := new U64[BUCKETS](i => 0);
      count, sumMs, maxMs := 0, 0, 0;
      new;
      assert buckets[..] == Zero().buckets;
    }

    /** Recording one duration merges its one-sample histogram. */
    method Record(durationMs: nat)
      requires Valid()
      modifies this, buckets
      ensures Valid() && Value() == old(Value()).Plus(One(durationMs))
    {
      var ms := Clamped(durationMs);
      var b := Bucket(ms);
      buckets[b] := Saturating(buckets[b], 1);
      count, sumMs, maxMs := Saturating(count, 1), Saturating(sumMs, ms), Max(maxMs, ms);
      assert buckets[..] == old(Value()).Plus(One(durationMs)).buckets;
    }

    method Add(other: Histogram)
      requires Valid() && other.Valid() && other != this && other.buckets != buckets
      modifies this, buckets
      ensures Valid() && Value() == old(Value()).Plus(other.Value())
      ensures other.Value() == old(other.Value())
    {
      for i := 0 to BUCKETS
        modifies buckets
        invariant forall j :: 0 <= j < i ==> buckets[j] == Saturating(old(buckets[j]), old(other.buckets[j]))
        invariant forall j :: i <= j < BUCKETS ==> buckets[j] == old(buckets[j])
        invariant other.buckets[..] == old(other.buckets[..])
      {
        assert other.buckets[i] == other.buckets[..][i] == old(other.buckets[i]);
        buckets[i] := Saturating(buckets[i], other.buckets[i]);
      }
      count, sumMs, maxMs := Saturating(count, other.count), Saturating(sumMs, other.sumMs), Max(maxMs, other.maxMs);
      assert buckets[..] == old(Value()).Plus(old(other.Value())).buckets;
    }

    /** Accumulates buckets, saturating, until the rank is reached. */
    method QuantileMs(q: Quantile) returns (r: Option<nat>)
      requires Valid()
      ensures Answers(Value(), q, r)
      ensures r == None <==> Value().count == 0
    {
      if count == 0 {
        return None;
      }
      var target := Rank(q, count);
      var accumulated: U64 := 0;
      for i := 0 to BUCKETS
        invariant accumulated == Clamped(Accumulated(buckets[..], i)) && accumulated < target
      {
        accumulated := Saturating(accumulated, buckets[i]);
        if accumulated >= target {
          assert Reaches(buckets[..], target, i);
          return Some(Limit(i, maxMs));
        }
      }
      return Some(maxMs);
    }
  }
}
