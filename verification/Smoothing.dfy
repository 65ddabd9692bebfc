/** The organizer's smoothing of its traffic matrices (simgrid/organizer/hpvc.c:996-1003, 1014-1017). Rates are ints, so every
    period truncates the weighted mean of the smoothed rate and the raw one. */
module Smoothing {
  import opened Arithmetic

  /** `ALPHA`, the weight of the past. */
  predicate ValidAlpha(alpha: real) { 0.0 <= alpha < 1.0 }

  /** C's conversion of a floating-point value to an int. */
  function Truncate(x: real): int {
    if x >= 0.0 then x.Floor else -(-x).Floor
  }

  function SmoothRate(alpha: real, rate: int, raw: int): int {
    Truncate(SmoothLatency(alpha, rate as real, raw as real))
  }

  function SmoothLatency(alpha: real, latency: real, raw: real): real {
    alpha * latency + (1.0 - alpha) * raw
  }

  lemma TruncateIs(x: real)
    ensures x >= 0.0 ==> Truncate(x) as real <= x < Truncate(x) as real + 1.0
    ensures x <= 0.0 ==> Truncate(x) as real - 1.0 < x <= Truncate(x) as real
  {
  }

  lemma Scaled(b: real, d: real)
    requires 0.0 < b <= 1.0
    ensures d >= 0.0 ==> 0.0 <= b * d <= d && (d > 0.0 ==> b * d > 0.0)
    ensures d <= 0.0 ==> d <= b * d <= 0.0 && (d < 0.0 ==> b * d < 0.0)
  {
  }

  lemma MeanIdentity(alpha: real, x: real, y: real)
    ensures SmoothLatency(alpha, x, y) == x + (1.0 - alpha) * (y - x)
  {
  }

  /** The mean as a step from the old value towards the new one, by the weighted distance `w`. */
  lemma MeanIsStep(alpha: real, x: real, y: real) returns (w: real)
    requires ValidAlpha(alpha)
    ensures w == (1.0 - alpha) * (y - x)
    ensures SmoothLatency(alpha, x, y) == x + w
    ensures x <= y ==> 0.0 <= w <= y - x && (x < y ==> w > 0.0)
    ensures x >= y ==> y - x <= w <= 0.0 && (x > y ==> w < 0.0)
  {
    w := (1.0 - alpha) * (y - x);
    Scaled(1.0 - alpha, y - x);
    MeanIdentity(alpha, x, y);
  }

  lemma TruncateStep(rate: int, raw: int, w: real)
    requires rate >= 0 && raw >= 0
    requires rate <= raw ==> 0.0 <= w <= (raw - rate) as real
    requires rate >= raw ==> (raw - rate) as real <= w <= 0.0
    ensures rate >= raw ==> raw <= Truncate(rate as real + w) <= rate
    ensures rate > raw && w < 0.0 ==> Truncate(rate as real + w) < rate
    ensures rate <= raw ==> rate <= Truncate(rate as real + w) <= raw
    ensures rate < raw ==> (Truncate(rate as real + w) == rate <==> w < 1.0)
  {
  }

  /** One period never leaves the interval between the smoothed rate and the raw one. From above it moves whenever it is not
      there yet; from below it moves exactly if the weighted distance is at least 1. */
  lemma RateStep(alpha: real, rate: int, raw: int)
    requires ValidAlpha(alpha) && rate >= 0 && raw >= 0
    ensures rate >= raw ==> raw <= SmoothRate(alpha, rate, raw) <= rate
    ensures rate > raw ==> SmoothRate(alpha, rate, raw) < rate
    ensures rate <= raw ==> rate <= SmoothRate(alpha, rate, raw) <= raw
    ensures rate < raw ==> (SmoothRate(alpha, rate, raw) == rate <==> (1.0 - alpha) * (raw - rate) as real < 1.0)
  {
    var w := MeanIsStep(alpha, rate as real, raw as real);
    TruncateStep(rate, raw, w);
    assert (raw - rate) as real == raw as real - rate as real;
  }

  lemma LatencyStep(alpha: real, latency: real, raw: real, low: real)
    requires ValidAlpha(alpha) && latency >= low && raw >= low
    ensures SmoothLatency(alpha, latency, raw) >= low
  {
    var _ := MeanIsStep(alpha, latency, raw);
  }

  /** The smoothed rate after a history of raw ones. */
  function Smoothed(alpha: real, start: int, raws: seq<int>): int {
    if raws == [] then start else SmoothRate(alpha, Smoothed(alpha, start, raws[..|raws| - 1]), raws[|raws| - 1])
  }

  /** A smoothed rate stays within the range of its start and its history; in particular it stays at least 1. */
  lemma {:induction false} SmoothedInRange(alpha: real, start: int, raws: seq<int>, low: nat, high: int)
    requires ValidAlpha(alpha) && low <= start <= high
    requires forall i :: 0 <= i < |raws| ==> low <= raws[i] <= high
    ensures low <= Smoothed(alpha, start, raws) <= high
  {
    if raws != [] {
      var init := raws[..|raws| - 1];
      SmoothedInRange(alpha, start, init, low, high);
      RateStep(alpha, Smoothed(alpha, start, init), raws[|raws| - 1]);
    }
  }

  /** k periods of the same raw rate. */
  function Settle(alpha: real, rate: int, raw: int, k: nat): int
    decreases k
  {
    if k == 0 then rate else Settle(alpha, SmoothRate(alpha, rate, raw), raw, k - 1)
  }

  /** A rate that the constant raw rate no longer changes. */
  predicate Fixed(alpha: real, rate: int, raw: int) {
    SmoothRate(alpha, rate, raw) == rate
  }

  lemma {:induction false} FixedStays(alpha: real, rate: int, raw: int, k: nat)
    requires Fixed(alpha, rate, raw)
    ensures Settle(alpha, rate, raw, k) == rate
  {
    if k > 0 { FixedStays(alpha, rate, raw, k - 1); }
  }

  /** From above the raw rate is reached exactly, without overshoot, in at most as many periods as the distance. */
  lemma {:induction false} SettlesFromAbove(alpha: real, rate: int, raw: int, k: nat)
    requires ValidAlpha(alpha) && rate >= raw >= 0
    ensures raw <= Settle(alpha, rate, raw, k) <= rate
    ensures k >= rate - raw ==> Settle(alpha, rate, raw, k) == raw
    decreases k
  {
    if k > 0 {
      RateStep(alpha, rate, raw);
      SettlesFromAbove(alpha, SmoothRate(alpha, rate, raw), raw, k - 1);
    }
  }

  /** From below it rises without overshoot and stops, in at most as many periods as the distance, where the weighted distance
      has become smaller than 1: possibly short of the raw rate, for good. */
  lemma {:induction false} SettlesFromBelow(alpha: real, rate: int, raw: int, k: nat)
    requires ValidAlpha(alpha) && 0 <= rate <= raw
    ensures rate <= Settle(alpha, rate, raw, k) <= raw
    ensures k >= raw - rate ==>
              && Fixed(alpha, Settle(alpha, rate, raw, k), raw)
              && (1.0 - alpha) * (raw - Settle(alpha, rate, raw, k)) as real < 1.0
    decreases k
  {
    RateStep(alpha, rate, raw);
    if Fixed(alpha, rate, raw) {
      FixedStays(alpha, rate, raw, k);
    } else if k > 0 {
      SettlesFromBelow(alpha, SmoothRate(alpha, rate, raw), raw, k - 1);
    }
  }

  /** It keeps moving in one direction. */
  lemma {:induction false} SettlesMonotonically(alpha: real, rate: int, raw: int, k: nat)
    requires ValidAlpha(alpha) && rate >= 0 && raw >= 0
    ensures rate >= raw ==> Settle(alpha, rate, raw, k + 1) <= Settle(alpha, rate, raw, k)
    ensures rate <= raw ==> Settle(alpha, rate, raw, k) <= Settle(alpha, rate, raw, k + 1)
    decreases k
  {
    RateStep(alpha, rate, raw);
    if k > 0 {
      SettlesMonotonically(alpha, SmoothRate(alpha, rate, raw), raw, k - 1);
    }
  }

  /** The constant rates that smoothing does not change, exactly. */
  lemma FixedPoints(alpha: real, rate: int, raw: int)
    requires ValidAlpha(alpha) && rate >= 0 && raw >= 0
    ensures Fixed(alpha, rate, raw) <==> rate <= raw && (1.0 - alpha) * (raw - rate) as real < 1.0
  {
    RateStep(alpha, rate, raw);
  }

  /** k periods of the same raw latency. */
  function SettleLatency(alpha: real, latency: real, raw: real, k: nat): real {
    if k == 0 then latency else SmoothLatency(alpha, SettleLatency(alpha, latency, raw, k - 1), raw)
  }

  /** A latency is not truncated: its gap to a constant raw one is exactly the first gap times ALPHA^k. */
  lemma {:induction false} LatencyGap(alpha: real, latency: real, raw: real, k: nat)
    ensures SettleLatency(alpha, latency, raw, k) - raw == RealPower(alpha, k) * (latency - raw)
  {
    if k > 0 {
      LatencyGap(alpha, latency, raw, k - 1);
      assert SettleLatency(alpha, latency, raw, k) - raw == alpha * (SettleLatency(alpha, latency, raw, k - 1) - raw);
    }
  }

  /** A smoothed latency after a history of raw ones. */
  function SmoothedLatencies(alpha: real, start: real, raws: seq<real>): real {
    if raws == [] then start
    else alpha * SmoothedLatencies(alpha, start, raws[..|raws| - 1]) + (1.0 - alpha) * raws[|raws| - 1]
  }

  /** A smoothed rate is the weighted mean of the past and the new rate, cut off. */
  lemma RateIsMean(alpha: real, rate: int, raw: int)
    requires ValidAlpha(alpha) && rate >= 0 && raw >= 0
    ensures SmoothRate(alpha, rate, raw) as real <= alpha * rate as real + (1.0 - alpha) * raw as real
                                                 < SmoothRate(alpha, rate, raw) as real + 1.0
  {
    Scaled(1.0 - alpha, raw as real);
    if alpha > 0.0 { Scaled(alpha, rate as real); }
  }
}
