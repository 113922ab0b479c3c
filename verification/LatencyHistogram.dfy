/** A fixed histogram of 32 power-of-two buckets and the percentile bound read from it. */
module LatencyHistogram {
  import opened Prelude

  const BUCKETS: nat := 32

  lemma {:induction false} Power2Grows(a: nat, b: nat)
    requires a <= b
    ensures Power2(a) <= Power2(b)
  {
    if a < b {
      Power2Grows(a, b - 1);
    }
  }

  /** How many observations are at most `x`. */
  ghost function CountAtMost(observed: seq<nat>, x: int): (r: nat)
    ensures r <= |observed|
  {
    if observed == [] then 0 else
      CountAtMost(observed[..|observed| - 1], x) + (if observed[|observed| - 1] <= x then 1 else 0)
  }

  lemma {:induction false} CountGrows(observed: seq<nat>, x: int, y: int)
    requires x <= y
    ensures CountAtMost(observed, x) <= CountAtMost(observed, y)
  {
    if observed != [] {
      CountGrows(observed[..|observed| - 1], x, y);
    }
  }

  ghost function Largest(observed: seq<nat>): (r: nat)
    ensures forall k :: 0 <= k < |observed| ==> observed[k] <= r
    ensures CountAtMost(observed, r) == |observed|
  {
    if observed == [] then 0 else
      var init, last := observed[..|observed| - 1], observed[|observed| - 1];
      var r := if Largest(init) < last then last else Largest(init);
      CountGrows(init, Largest(init), r);
      assert forall k :: 0 <= k < |init| ==> init[k] == observed[k];
      r
  }

  /** The observation of the given rank: that many are at most `t`, but fewer are below it. */
  ghost predicate HasRank(observed: seq<nat>, rank: nat, t: nat) {
    t in observed && CountAtMost(observed, t - 1) < rank <= CountAtMost(observed, t)
  }

  lemma {:induction false} CountStep(observed: seq<nat>, x: int)
    ensures CountAtMost(observed, x - 1) < CountAtMost(observed, x) ==> x in observed
  {
    if observed != [] {
      CountStep(observed[..|observed| - 1], x);
      assert observed == observed[..|observed| - 1] + [observed[|observed| - 1]];
    }
  }

  lemma {:induction false} NoneBelowZero(observed: seq<nat>)
    ensures CountAtMost(observed, -1) == 0
  {
    if observed != [] {
      NoneBelowZero(observed[..|observed| - 1]);
    }
  }

  /** Every rank has exactly one observation value. */
  lemma {:induction false} RankExists(observed: seq<nat>, rank: nat, bound: nat) returns (t: nat)
    requires 1 <= rank <= CountAtMost(observed, bound)
    ensures HasRank(observed, rank, t)
    decreases bound
  {
    if CountAtMost(observed, bound - 1) < rank {
      CountStep(observed, bound);
      t := bound;
    } else {
      NoneBelowZero(observed);
      t := RankExists(observed, rank, bound - 1);
    }
  }

  lemma RankIsUnique(observed: seq<nat>, rank: nat, t: nat, u: nat)
    requires HasRank(observed, rank, t) && HasRank(observed, rank, u)
    ensures t == u
  {
    if t < u {
      CountGrows(observed, t, u - 1);
    } else if u < t {
      CountGrows(observed, u, t - 1);
    }
  }

  /** The rank a percentile asks for: the rounded-up share of the samples. */
  function Target(samples: nat, percent: nat): nat {
    samples / 100 * percent + (samples % 100 * percent + 99) / 100
  }

  lemma TargetIsCeiling(samples: nat, percent: nat)
    ensures Target(samples, percent) == (samples * percent + 99) / 100
    ensures samples > 0 && 1 <= percent <= 100 ==> 1 <= Target(samples, percent) <= samples
  {
    var q, m := samples / 100, samples % 100;
    Spread(q, m, percent);
    DivideSplit(q * percent, m * percent + 99);
    if samples > 0 && 1 <= percent <= 100 {
      ProductGrows(samples, 1, percent);
      ProductGrows(samples, percent, 100);
    }
  }

  lemma Spread(q: nat, m: nat, percent: nat)
    ensures (100 * q + m) * percent == 100 * (q * percent) + m * percent
  {
  }

  lemma DivideSplit(k: nat, r: nat)
    ensures (100 * k + r) / 100 == k + r / 100
  {
  }

  lemma TargetGrows(samples: nat, p: nat, q: nat)
    requires p <= q
    ensures Target(samples, p) <= Target(samples, q)
  {
    ProductGrows(samples / 100, p, q);
    ProductGrows(samples % 100, p, q);
  }

  lemma ProductGrows(a: nat, p: nat, q: nat)
    requires p <= q
    ensures a * p <= a * q
  {
  }

  /** The observations counted by the buckets up to `b`. */
  ghost function UpTo(observed: seq<nat>, b: nat): nat {
    if b + 1 < BUCKETS then CountAtMost(observed, Power2(b)) else |observed|
  }

  function Sum(buckets: seq<nat>): nat {
    if buckets == [] then 0 else Sum(buckets[..|buckets| - 1]) + buckets[|buckets| - 1]
  }

  function Running(buckets: seq<nat>, b: nat): nat
    requires b < |buckets|
  {
    Sum(buckets[..b + 1])
  }

  /** The first bucket at which the running count reaches the target, if any. */
  function FirstReaching(buckets: seq<nat>, target: nat, from: nat): (b: nat)
    requires from <= |buckets|
    ensures from <= b <= |buckets|
    ensures b < |buckets| ==> Running(buckets, b) >= target
    ensures forall k :: from <= k < b ==> Running(buckets, k) < target
    decreases |buckets| - from
  {
    if from == |buckets| || Running(buckets, from) >= target then from else FirstReaching(buckets, target, from + 1)
  }

  function Percentile(buckets: seq<nat>, samples: nat, maximum: nat, percent: nat): (r: nat)
    ensures samples == 0 ==> r == 0
  {
    if samples == 0 then 0 else
      var b := FirstReaching(buckets, Target(samples, percent), 0);
      if b < |buckets| && Power2(b) < maximum then Power2(b) else maximum
  }

  /** The buckets hold the observations, each counted once in the first bucket that bounds it. */
  ghost predicate Holds(buckets: seq<nat>, observed: seq<nat>) {
    |buckets| == BUCKETS && forall b :: 0 <= b < BUCKETS ==> Running(buckets, b) == UpTo(observed, b)
  }

  class LatencyHistogram {
    const buckets: array<nat>
    var samples: nat
    var maximum: nat
    ghost var observed: seq<nat>

    ghost predicate Valid()
      reads this, buckets
    {
      Holds(buckets[..], observed) && samples == |observed| && maximum == Largest(observed)
    }

    constructor ()
      ensures Valid() && observed == [] && fresh(buckets)
    {
      buckets := new nat[BUCKETS](_ => 0);
      samples, maximum, observed := 0, 0, [];
      new;
      ZeroesHoldNothing(buckets[..]);
    }

    method Observe(value: nat)
      requires Valid()
      modifies this`samples, this`maximum, this`observed, buckets
      ensures Valid() && observed == old(observed) + [value]
    {
      var bucket := 0;
      while bucket + 1 < buckets.Length && value > Power2(bucket)
        invariant bucket < BUCKETS == buckets.Length
        invariant forall k :: 0 <= k < bucket ==> Power2(k) < value
      {
        bucket := bucket + 1;
      }
      ObserveHolds(buckets[..], observed, value, bucket);
      assert (observed + [value])[..|observed|] == observed;
      ghost var next := buckets[..][bucket := buckets[bucket] + 1];
      buckets[bucket] := buckets[bucket] + 1;
      assert buckets[..] == next;
      samples := samples + 1;
      maximum := if maximum < value then value else maximum;
      observed := observed + [value];
    }

    method ReadPercentile(percent: nat) returns (r: nat)
      requires Valid()
      ensures r == Percentile(buckets[..], samples, maximum, percent)
    {
      if samples == 0 {
        return 0;
      }
      var target := Target(samples, percent);
      var count := 0;
      for index := 0 to buckets.Length
        invariant count == Sum(buckets[..index])
        invariant FirstReaching(buckets[..], target, 0) == FirstReaching(buckets[..], target, index)
      {
        assert buckets[..][..index + 1] == buckets[..index + 1] && buckets[..index + 1][..index] == buckets[..index];
        count := count + buckets[index];
        if count >= target {
          return if Power2(index) < maximum then Power2(index) else maximum;
        }
      }
      return maximum;
    }
  }

  lemma {:induction false} SumOfZeroes(buckets: seq<nat>)
    requires forall k :: 0 <= k < |buckets| ==> buckets[k] == 0
    ensures Sum(buckets) == 0
  {
    if buckets != [] {
      SumOfZeroes(buckets[..|buckets| - 1]);
    }
  }

  lemma ZeroesHoldNothing(buckets: seq<nat>)
    requires |buckets| == BUCKETS && forall k :: 0 <= k < |buckets| ==> buckets[k] == 0
    ensures Holds(buckets, [])
  {
    forall b | 0 <= b < BUCKETS ensures Running(buckets, b) == UpTo([], b) {
      SumOfZeroes(buckets[..b + 1]);
    }
  }

  lemma {:induction false} SumAfterIncrement(buckets: seq<nat>, i: nat)
    requires i < |buckets|
    ensures Sum(buckets[i := buckets[i] + 1]) == Sum(buckets) + 1
  {
    var after, last := buckets[i := buckets[i] + 1], |buckets| - 1;
    if i == last {
      assert after[..last] == buckets[..last];
    } else {
      SumAfterIncrement(buckets[..last], i);
      assert after[..last] == buckets[..last][i := buckets[i] + 1];
    }
  }

  /** Counting a value in the first bucket that bounds it keeps the buckets faithful. */
  lemma ObserveHolds(buckets: seq<nat>, observed: seq<nat>, value: nat, bucket: nat)
    requires Holds(buckets, observed) && bucket < BUCKETS
    requires forall k :: 0 <= k < bucket ==> Power2(k) < value
    requires bucket + 1 < BUCKETS ==> value <= Power2(bucket)
    ensures Holds(buckets[bucket := buckets[bucket] + 1], observed + [value])
  {
    var after := buckets[bucket := buckets[bucket] + 1];
    assert (observed + [value])[..|observed|] == observed;
    forall b | 0 <= b < BUCKETS ensures Running(after, b) == UpTo(observed + [value], b) {
      assert Running(buckets, b) == UpTo(observed, b);
      if b < bucket {
        assert after[..b + 1] == buckets[..b + 1];
        assert Power2(b) < value;
      } else {
        SumAfterIncrement(buckets[..b + 1], bucket);
        assert after[..b + 1] == buckets[..b + 1][bucket := buckets[bucket] + 1];
        Power2Grows(bucket, b);
      }
    }
  }

  /** The buckets account for every sample. */
  lemma BucketsSumToSamples(buckets: seq<nat>, observed: seq<nat>)
    requires Holds(buckets, observed)
    ensures Sum(buckets) == |observed|
  {
    assert buckets[..BUCKETS - 1 + 1] == buckets;
    assert Running(buckets, BUCKETS - 1) == UpTo(observed, BUCKETS - 1);
  }

  /** The bucket a percentile stops at brackets the observation of that rank. */
  lemma StopBrackets(buckets: seq<nat>, observed: seq<nat>, target: nat, t: nat)
    requires Holds(buckets, observed) && HasRank(observed, target, t)
    ensures var b := FirstReaching(buckets, target, 0);
            b < BUCKETS && (b + 1 < BUCKETS ==> t <= Power2(b)) && (b > 0 ==> Power2(b - 1) < t)
  {
    BucketsSumToSamples(buckets, observed);
    assert Running(buckets, BUCKETS - 1) == UpTo(observed, BUCKETS - 1);
    var b := FirstReaching(buckets, target, 0);
    assert Running(buckets, b) == UpTo(observed, b);
    if b + 1 < BUCKETS && Power2(b) < t {
      CountGrows(observed, Power2(b), t - 1);
    }
    if b > 0 {
      assert Running(buckets, b - 1) == UpTo(observed, b - 1);
      if t <= Power2(b - 1) {
        CountGrows(observed, t, Power2(b - 1));
      }
    }
  }

  /**
    The reported percentile against the true observation `t` of that rank: never more than twice it (or one), never
    above the maximum, and never below it as long as `t` fits the last bound; above that bound it always falls short.
  */
  lemma PercentileBrackets(buckets: seq<nat>, observed: seq<nat>, percent: nat, t: nat)
    requires Holds(buckets, observed) && observed != [] && 1 <= percent <= 100
    requires HasRank(observed, Target(|observed|, percent), t)
    ensures var r := Percentile(buckets, |observed|, Largest(observed), percent);
            && r <= Largest(observed)
            && r <= (if t == 0 then 1 else 2 * t)
            && (t <= r <==> t <= Power2(BUCKETS - 1))
  {
    StopBrackets(buckets, observed, Target(|observed|, percent), t);
    var maximum := Largest(observed);
    BoundBrackets(FirstReaching(buckets, Target(|observed|, percent), 0), t, maximum);
  }

  lemma BoundBrackets(b: nat, t: nat, maximum: nat)
    requires b < BUCKETS && t <= maximum
    requires (b + 1 < BUCKETS ==> t <= Power2(b)) && (b > 0 ==> Power2(b - 1) < t)
    ensures var r := if Power2(b) < maximum then Power2(b) else maximum;
            && (b > 0 ==> r <= 2 * t) && (b == 0 ==> r <= 1)
            && (t <= r <==> t <= Power2(BUCKETS - 1))
  {
    Power2Grows(b, BUCKETS - 1);
  }

  lemma TopBound()
    ensures Power2(BUCKETS - 1) == 0x8000_0000
    ensures forall k: nat :: k < BUCKETS ==> Power2(k) <= 0x8000_0000
  {
    assert Power2(8) == 0x100;
    assert Power2(16) == 0x1_0000;
    assert Power2(24) == 0x100_0000;
    assert Power2(31) == 0x8000_0000;
    forall k: nat | k < BUCKETS ensures Power2(k) <= 0x8000_0000 {
      Power2Grows(k, BUCKETS - 1);
    }
  }

  /** An observation just above the last bound: every percentile of it is reported as the bound, below what was seen. */
  lemma PercentileCanFallShort(percent: nat) returns (buckets: seq<nat>)
    requires 1 <= percent <= 100
    ensures Holds(buckets, [0x8000_0001]) && Largest([0x8000_0001]) == 0x8000_0001
    ensures Percentile(buckets, 1, 0x8000_0001, percent) == 0x8000_0000
  {
    var zeroes: seq<nat>, observed: seq<nat> := seq(BUCKETS, _ => 0), [0x8000_0001];
    TopBound();
    ZeroesHoldNothing(zeroes);
    ObserveHolds(zeroes, [], 0x8000_0001, BUCKETS - 1);
    assert [] + observed == observed;
    buckets := zeroes[BUCKETS - 1 := 1];
    assert Largest(observed) == 0x8000_0001 by {
      assert observed[..0] == [];
    }
    var t := TrueObservation(observed, percent);
    StopBrackets(buckets, observed, Target(1, percent), t);
  }

  /** Every percentile of a non-empty histogram has a true observation to compare with, and only one. */
  lemma TrueObservation(observed: seq<nat>, percent: nat) returns (t: nat)
    requires observed != [] && 1 <= percent <= 100
    ensures HasRank(observed, Target(|observed|, percent), t)
    ensures forall u: nat :: HasRank(observed, Target(|observed|, percent), u) ==> u == t
  {
    TargetIsCeiling(|observed|, percent);
    t := RankExists(observed, Target(|observed|, percent), Largest(observed));
    forall u: nat | HasRank(observed, Target(|observed|, percent), u) ensures u == t {
      RankIsUnique(observed, Target(|observed|, percent), t, u);
    }
  }

  lemma FirstReachingGrows(buckets: seq<nat>, low: nat, high: nat)
    requires low <= high
    ensures FirstReaching(buckets, low, 0) <= FirstReaching(buckets, high, 0)
  {
    var b := FirstReaching(buckets, high, 0);
    assert b < |buckets| ==> Running(buckets, b) >= low;
  }

  /** Asking for a higher percentile never reports less. */
  lemma PercentileGrows(buckets: seq<nat>, samples: nat, maximum: nat, p: nat, q: nat)
    requires p <= q
    ensures Percentile(buckets, samples, maximum, p) <= Percentile(buckets, samples, maximum, q)
  {
    TargetGrows(samples, p, q);
    FirstReachingGrows(buckets, Target(samples, p), Target(samples, q));
    Power2Grows(FirstReaching(buckets, Target(samples, p), 0), FirstReaching(buckets, Target(samples, q), 0));
  }
}
