/** The congestion pacer (internal/bcl/pacing.go): an EWMA of write latencies drives an
    additive-increase, multiplicative-decrease rate. Durations are whole nanoseconds; latencies
    and the rate are real numbers. */
module Pacer {
  import opened Personality

  const ALPHA := 0.25
  const FLOOR_RATE := 0.10
  const STEP := 0.05
  const START_LATENCY := 1_000_000.0
  const BURST_BASE := 10 * MILLISECOND
  const GAP_MIN := 300_000
  const GAP_CAP := 2 * MILLISECOND

  datatype State = State(ewma: real, threshold: real, rate: real)

  predicate Congested(s: State) { s.ewma > s.threshold }

  function Max(a: real, b: real): real { if a >= b then a else b }
  function Min(a: real, b: real): real { if a <= b then a else b }

  function Fresh(threshold: real): State { State(START_LATENCY, threshold, 1.0) }

  /** ObserveWrite over values. */
  function Observe(s: State, latency: real): State {
    var e := ALPHA * latency + (1.0 - ALPHA) * s.ewma;
    var rate :=
      if e > s.threshold then Max(FLOOR_RATE, s.rate * 0.5)
      else if s.rate < 1.0 then Min(1.0, s.rate + STEP)
      else s.rate;
    State(e, s.threshold, rate)
  }

  function Run(s: State, latencies: seq<real>): State
    decreases |latencies|
  {
    if latencies == [] then s else Run(Observe(s, latencies[0]), latencies[1..])
  }

  /** Truncation of a non-negative duration to whole nanoseconds. */
  function Truncate(x: real): int { x.Floor }

  function Times(a: real, b: real): real { a * b }

  /** A duration divided by the rate. */
  function Stretch(d: int, rate: real): int
    requires rate > 0.0
  {
    Truncate(Times(d as real, 1.0 / rate))
  }

  function BurstDelay(s: State): int
    requires s.rate > 0.0
  {
    if !Congested(s) || s.rate >= 1.0 then 0 else Stretch(BURST_BASE, s.rate)
  }

  /** The base gap is a Pareto sample x, cut off at the cap. */
  function BaseGap(x: real): int {
    if Truncate(x) > GAP_CAP then GAP_CAP else Truncate(x)
  }

  function InterFrameDelay(s: State, x: real): int
    requires s.rate > 0.0
  {
    if s.rate >= 1.0 then BaseGap(x) else Stretch(BaseGap(x), s.rate)
  }

  class Pacer {
    var ewmaLatency: real
    const threshold: real
    var rate: real

    ghost function Value(): State
      reads this
    {
      State(ewmaLatency, threshold, rate)
    }

    constructor (p: Personality)
      ensures Value() == Fresh(p.congestionThreshold as real)
    {
      ewmaLatency, threshold, rate := START_LATENCY, p.congestionThreshold as real, 1.0;
    }

    method ObserveWrite(latency: real)
      modifies this
      ensures Value() == Observe(old(Value()), latency)
    {
      ewmaLatency := ALPHA * latency + (1.0 - ALPHA) * ewmaLatency;
      if ewmaLatency > threshold {
        rate := Max(FLOOR_RATE, rate * 0.5);
      } else if rate < 1.0 {
        rate := Min(1.0, rate + STEP);
      }
    }
  }

  // ----- what every run keeps -----

  predicate Bounded(s: State) {
    FLOOR_RATE <= s.rate <= 1.0 && (Congested(s) ==> s.rate <= 0.5 || s.rate == 1.0)
  }

  lemma {:induction false} RunBounded(s: State, ls: seq<real>)
    requires Bounded(s)
    ensures Bounded(Run(s, ls)) && Run(s, ls).threshold == s.threshold
    ensures ls != [] && Congested(Run(s, ls)) ==> Run(s, ls).rate <= 0.5
    decreases |ls|
  {
    if ls != [] {
      RunBounded(Observe(s, ls[0]), ls[1..]);
      assert |ls| == 1 ==> Run(s, ls) == Observe(s, ls[0]);
    }
  }

  /** Over every sequence of observations from a fresh pacer: the rate stays in [0.1, 1], the
      burst delay is zero or between 20 and 100 ms and non-zero only under congestion, and the
      gap between frames is between its base and ten times its base, at most 20 ms. */
  lemma DelaysBounded(threshold: real, ls: seq<real>, x: real)
    requires x >= GAP_MIN as real
    ensures BaseGap(x) as real <= x && (BaseGap(x) == GAP_CAP || x < BaseGap(x) as real + 1.0)
    ensures var s := Run(Fresh(threshold), ls);
            && FLOOR_RATE <= s.rate <= 1.0
            && (BurstDelay(s) == 0 || (Congested(s) && 20 * MILLISECOND <= BurstDelay(s) <= 100 * MILLISECOND))
            && GAP_MIN <= BaseGap(x) <= InterFrameDelay(s, x) <= 20 * MILLISECOND
  {
    RunBounded(Fresh(threshold), ls);
    var s := Run(Fresh(threshold), ls);
    StretchBounds(BaseGap(x), s.rate);
    StretchBounds(BURST_BASE, s.rate);
  }

  /** Dividing a duration by the rate scales it by a factor between one and ten. */
  lemma StretchBounds(d: nat, r: real)
    requires FLOOR_RATE <= r <= 1.0
    ensures d <= Stretch(d, r) <= 10 * d
    ensures r <= 0.5 ==> 2 * d <= Stretch(d, r)
  {
    Reciprocal(r);
    hide Times;
    var x, k := d as real, 1.0 / r;
    if r <= 0.5 {
      TimesBetween(x, k, 2.0, 10.0);
    } else {
      TimesBetween(x, k, 1.0, 10.0);
    }
    FloorBetween(d, x, Times(x, k));
  }

  lemma TimesBetween(x: real, k: real, lo: real, hi: real)
    requires x >= 0.0 && lo <= k <= hi
    ensures lo * x <= Times(x, k) <= hi * x
  {
    MulOrder(x, lo, k);
    MulOrder(x, k, hi);
  }

  lemma FloorBetween(d: nat, x: real, y: real)
    requires x == d as real && x <= y <= 10.0 * x
    ensures d <= y.Floor <= 10 * d
    ensures 2.0 * x <= y ==> 2 * d <= y.Floor
  {
  }

  lemma MulOrder(p: real, a: real, b: real)
    requires p >= 0.0 && a <= b
    ensures p * a <= p * b
  {
    assert p * (b - a) >= 0.0;
  }

  lemma Reciprocal(r: real)
    requires FLOOR_RATE <= r <= 1.0
    ensures 1.0 <= 1.0 / r <= 10.0
    ensures r <= 0.5 ==> 1.0 / r >= 2.0
  {
    assert (1.0 / r) * r == 1.0;
  }

  /** The stretched duration is the largest whole number whose product with the rate does not exceed
      the original. */
  lemma StretchExact(d: nat, r: real)
    requires FLOOR_RATE <= r <= 1.0
    ensures var y := Stretch(d, r) as real; Times(y, r) <= d as real < Times(y + 1.0, r)
  {
    var x, k := d as real, 1.0 / r;
    var y := Stretch(d, r) as real;
    assert y <= Times(x, k) < y + 1.0;
    assert Times(Times(x, k), r) == x by { assert k * r == 1.0; Associate(x, k, r); }
    MulOrder(r, y, Times(x, k));
    assert r * ((y + 1.0) - Times(x, k)) > 0.0;
  }

  lemma Associate(x: real, k: real, r: real)
    requires k * r == 1.0
    ensures Times(Times(x, k), r) == x
  {
    assert (x * k) * r == x * (k * r);
  }

  /** Both delays scale with the rate over every run: multiplied by the rate they give back the base,
      to within one nanosecond's worth, when the rate is reduced; the burst delay is zero exactly
      without congestion or at full rate. */
  lemma DelaysScale(threshold: real, ls: seq<real>, x: real)
    requires x >= GAP_MIN as real
    ensures var s := Run(Fresh(threshold), ls);
            && s.rate > 0.0
            && (var y := InterFrameDelay(s, x) as real;
                if s.rate < 1.0 then Times(y, s.rate) <= BaseGap(x) as real < Times(y + 1.0, s.rate)
                else InterFrameDelay(s, x) == BaseGap(x))
            && (if Congested(s) && s.rate < 1.0 then
                  var y := BurstDelay(s) as real; Times(y, s.rate) <= BURST_BASE as real < Times(y + 1.0, s.rate)
                else BurstDelay(s) == 0)
  {
    RunBounded(Fresh(threshold), ls);
    var s := Run(Fresh(threshold), ls);
    StretchExact(BaseGap(x), s.rate);
    StretchExact(BURST_BASE, s.rate);
    hide Run, Times, Stretch;
  }

  /** For a threshold of at least 1 ms, as in all five personalities, congestion always comes
      with a rate of at most one half. */
  lemma CongestionHalves(threshold: real, ls: seq<real>)
    requires threshold >= START_LATENCY
    ensures Congested(Run(Fresh(threshold), ls)) ==> Run(Fresh(threshold), ls).rate <= 0.5
  {
    RunBounded(Fresh(threshold), ls);
  }

  // ----- closed forms -----

  function Power(base: real, n: nat): real {
    if n == 0 then 1.0 else base * Power(base, n - 1)
  }

  /** Every observation of the run leaves the pacer congested. */
  predicate StaysCongested(s: State, ls: seq<real>)
    decreases |ls|
  {
    ls == [] || (Congested(Observe(s, ls[0])) && StaysCongested(Observe(s, ls[0]), ls[1..]))
  }

  predicate StaysClear(s: State, ls: seq<real>)
    decreases |ls|
  {
    ls == [] || (!Congested(Observe(s, ls[0])) && StaysClear(Observe(s, ls[0]), ls[1..]))
  }

  /** r halved n times: r / 2^n. */
  function Halved(r: real, n: nat): real
    decreases n
  {
    if n == 0 then r else Halved(r * 0.5, n - 1)
  }

  lemma {:induction false} HalvedBound(r: real, n: nat)
    requires r >= 0.0
    ensures 0.0 <= Halved(r, n) <= r
    ensures n >= 1 ==> Halved(r, n) <= r / 2.0
    ensures n >= 2 ==> Halved(r, n) <= r / 4.0
    ensures n >= 3 ==> Halved(r, n) <= r / 8.0
    ensures n >= 4 ==> Halved(r, n) <= r / 16.0
    decreases n
  {
    if n > 0 {
      HalvedBound(r * 0.5, n - 1);
    }
  }

  /** n congested observations divide the rate by 2^n, down to the floor. */
  lemma {:induction false} CongestedRate(s: State, ls: seq<real>)
    requires Bounded(s) && StaysCongested(s, ls)
    ensures Run(s, ls).rate == Max(FLOOR_RATE, Halved(s.rate, |ls|))
    decreases |ls|
  {
    if ls != [] {
      var s', n := Observe(s, ls[0]), |ls| - 1;
      CongestedRate(s', ls[1..]);
      HalvedBound(FLOOR_RATE, n);
      HalvedBound(s.rate * 0.5, n);
    }
  }

  /** n clear observations add n steps up to full rate. */
  lemma {:induction false} ClearRate(s: State, ls: seq<real>)
    requires Bounded(s) && StaysClear(s, ls)
    ensures Run(s, ls).rate == Min(1.0, s.rate + STEP * |ls| as real)
    decreases |ls|
  {
    if ls != [] {
      var s' := Observe(s, ls[0]);
      ClearRate(s', ls[1..]);
    }
  }

  /** From any state a run can reach, four congested observations bring the rate to the floor
      and eighteen clear ones restore full rate. */
  lemma FourDownEighteenUp(s: State, ls: seq<real>)
    requires Bounded(s)
    ensures StaysCongested(s, ls) && |ls| >= 4 ==> Run(s, ls).rate == FLOOR_RATE
    ensures StaysClear(s, ls) && |ls| >= 18 ==> Run(s, ls).rate == 1.0
  {
    if StaysCongested(s, ls) {
      CongestedRate(s, ls);
      HalvedBound(s.rate, |ls|);
    }
    if StaysClear(s, ls) {
      ClearRate(s, ls);
    }
  }

  // ----- the latency average -----

  ghost predicate AtMost(ls: seq<real>, x: real) {
    forall i :: 0 <= i < |ls| ==> ls[i] <= x
  }

  /** After n latencies of at most x the average exceeds x by at most (3/4)^n of the excess it
      started with. */
  lemma {:induction false} EwmaDecays(s: State, ls: seq<real>, x: real)
    requires AtMost(ls, x)
    ensures Run(s, ls).ewma <= x + Power(0.75, |ls|) * (s.ewma - x)
    decreases |ls|
  {
    if ls != [] {
      var s' := Observe(s, ls[0]);
      EwmaDecays(s', ls[1..], x);
      PowerPositive(|ls| - 1);
      var p := Power(0.75, |ls| - 1);
      assert s'.ewma - x <= 0.75 * (s.ewma - x);
      MulOrder(p, s'.ewma - x, 0.75 * (s.ewma - x));
    }
  }

  lemma {:induction false} PowerPositive(n: nat)
    ensures Power(0.75, n) > 0.0
    ensures Power(0.75, n) * (1.0 + n as real / 3.0) <= 1.0
  {
    if n > 0 {
      PowerPositive(n - 1);
      var p, m := Power(0.75, n - 1), (n - 1) as real;
      assert 0.75 * (1.0 + n as real / 3.0) <= 1.0 + m / 3.0;
      assert Power(0.75, n) * (1.0 + n as real / 3.0) == p * (0.75 * (1.0 + n as real / 3.0));
      MulOrder(p, 0.75 * (1.0 + n as real / 3.0), 1.0 + m / 3.0);
    }
  }

  lemma {:induction false} RunSplit(s: State, a: seq<real>, b: seq<real>)
    ensures Run(s, a + b) == Run(Run(s, a), b)
    decreases |a|
  {
    if a == [] {
      assert a + b == b;
    } else {
      assert (a + b)[1..] == a[1..] + b;
      RunSplit(Observe(s, a[0]), a[1..], b);
    }
  }

  lemma {:induction false} ClearStaysClear(s: State, ls: seq<real>, x: real)
    requires !Congested(s) && AtMost(ls, x) && x <= s.threshold
    ensures StaysClear(s, ls) && !Congested(Run(s, ls))
    decreases |ls|
  {
    if ls != [] {
      ClearStaysClear(Observe(s, ls[0]), ls[1..], x);
    }
  }

  /** How many observations at or below x bring the average e back under the threshold. */
  function Settle(e: real, threshold: real, x: real): (n: nat)
    requires x < threshold
  {
    if e <= threshold then 0 else
      assert (e - x) / (threshold - x) > 0.0;
      (3.0 * ((e - x) / (threshold - x))).Floor + 1
  }

  lemma SettleEnough(e: real, threshold: real, x: real)
    requires x < threshold
    ensures x + Power(0.75, Settle(e, threshold, x)) * (e - x) <= threshold
  {
    if e > threshold {
      var n := Settle(e, threshold, x);
      var gap := threshold - x;
      var ratio := (e - x) / gap;
      assert ratio <= 1.0 + n as real / 3.0;
      PowerPositive(n);
      SettleRatio(Power(0.75, n), ratio, 1.0 + n as real / 3.0, e - x, gap);
    }
  }

  lemma SettleRatio(p: real, ratio: real, k: real, excess: real, gap: real)
    requires p >= 0.0 && gap > 0.0 && ratio == excess / gap && ratio <= k && p * k <= 1.0
    ensures p * excess <= gap
  {
    MulOrder(p, ratio, k);
    assert excess == ratio * gap;
    assert p * excess == gap * (p * ratio);
    MulOrder(gap, p * ratio, 1.0);
  }

  /** Recovery: from any reachable state, latencies at or below some x under the threshold lead,
      after a number of observations known in advance, to full rate and no congestion for good. */
  lemma Recovers(s: State, ls: seq<real>, x: real)
    requires Bounded(s) && x < s.threshold && AtMost(ls, x)
    requires |ls| >= Settle(s.ewma, s.threshold, x) + 18
    ensures Run(s, ls).rate == 1.0 && !Congested(Run(s, ls))
  {
    hide Run, Settle, StaysClear, Power;
    var n := Settle(s.ewma, s.threshold, x);
    var a, b := ls[..n], ls[n..];
    assert ls == a + b;
    RunSplit(s, a, b);
    var mid := Run(s, a);
    RunBounded(s, a);
    EwmaDecays(s, a, x);
    SettleEnough(s.ewma, s.threshold, x);
    ClearStaysClear(mid, b, x);
    FourDownEighteenUp(mid, b);
  }

  // ----- congestion -----

  ghost predicate AtLeast(ls: seq<real>, x: real) {
    forall i :: 0 <= i < |ls| ==> ls[i] >= x
  }

  /** Where n latencies of x bring an average of e. */
  function Approach(e: real, x: real, n: nat): real {
    x + Power(0.75, n) * (e - x)
  }

  /** The mirror of the decay: after n latencies of at least x the average falls short of x by at
      most (3/4)^n of the shortfall it started with. */
  lemma {:induction false} EwmaRises(s: State, ls: seq<real>, x: real)
    requires AtLeast(ls, x)
    ensures Run(s, ls).ewma >= Approach(s.ewma, x, |ls|) == x + Power(0.75, |ls|) * (s.ewma - x)
    decreases |ls|
  {
    if ls != [] {
      var s' := Observe(s, ls[0]);
      EwmaRises(s', ls[1..], x);
      PowerPositive(|ls| - 1);
      var p := Power(0.75, |ls| - 1);
      assert s'.ewma - x >= 0.75 * (s.ewma - x);
      MulOrder(p, 0.75 * (s.ewma - x), s'.ewma - x);
    }
  }

  lemma {:induction false} CongestedStays(s: State, ls: seq<real>, x: real)
    requires Congested(s) && AtLeast(ls, x) && x > s.threshold
    ensures StaysCongested(s, ls) && Congested(Run(s, ls))
    decreases |ls|
  {
    if ls != [] {
      CongestedStays(Observe(s, ls[0]), ls[1..], x);
    }
  }

  /** How many observations at or above x bring the average e over the threshold. */
  function Saturate(e: real, threshold: real, x: real): (n: nat)
    requires x > threshold
  {
    if e > threshold then 0 else
      assert (x - e) / (x - threshold) > 0.0;
      (3.0 * ((x - e) / (x - threshold))).Floor + 1
  }

  lemma SaturateEnough(e: real, threshold: real, x: real)
    requires x > threshold
    ensures Approach(e, x, Saturate(e, threshold, x)) > threshold
  {
    if e > threshold {
      assert Power(0.75, 0) == 1.0;
    } else {
      var n := Saturate(e, threshold, x);
      var gap := x - threshold;
      var ratio, k := (x - e) / gap, 1.0 + n as real / 3.0;
      assert ratio < k;
      PowerPositive(n);
      SaturateRatio(Power(0.75, n), ratio, k, x - e, gap);
      assert Power(0.75, n) * (e - x) == -(Power(0.75, n) * (x - e));
    }
  }

  lemma SaturateRatio(p: real, ratio: real, k: real, excess: real, gap: real)
    requires p > 0.0 && gap > 0.0 && ratio == excess / gap && ratio < k && p * k <= 1.0
    ensures p * excess < gap
  {
    assert p * (k - ratio) > 0.0;
    assert p * k == p * ratio + p * (k - ratio);
    assert excess == ratio * gap;
    assert p * excess == gap * (p * ratio);
    Shrinks(gap, p * ratio);
  }

  lemma Shrinks(gap: real, y: real)
    requires gap > 0.0 && y < 1.0
    ensures gap * y < gap
  {
    assert gap * (1.0 - y) > 0.0;
  }

  /** Back-off: from any reachable state, latencies at or above some x over the threshold lead, after
      a number of observations known in advance, to the floor rate and a burst delay of 100 ms for
      good. */
  lemma BacksOff(s: State, ls: seq<real>, x: real)
    requires Bounded(s) && x > s.threshold && AtLeast(ls, x)
    requires |ls| >= Saturate(s.ewma, s.threshold, x) + 4
    ensures Run(s, ls).rate == FLOOR_RATE && Congested(Run(s, ls))
    ensures BurstDelay(Run(s, ls)) == 100 * MILLISECOND
  {
    var n := Saturate(s.ewma, s.threshold, x);
    var a, b := ls[..n], ls[n..];
    assert ls == a + b;
    RunSplit(s, a, b);
    var mid := Run(s, a);
    SaturatedRun(s, a, x);
    RunBounded(s, a);
    hide Run, Saturate, StaysCongested, Power, BurstDelay;
    CongestedStays(mid, b, x);
    FourDownEighteenUp(mid, b);
    FloorDelay(Run(s, ls));
  }

  lemma SaturatedRun(s: State, ls: seq<real>, x: real)
    requires x > s.threshold && AtLeast(ls, x) && |ls| == Saturate(s.ewma, s.threshold, x)
    ensures Congested(Run(s, ls)) && Run(s, ls).threshold == s.threshold
  {
    RisesTo(s, ls, x);
    SaturateEnough(s.ewma, s.threshold, x);
    ThresholdKept(s, ls);
    hide Run, Saturate, Approach;
  }

  lemma RisesTo(s: State, ls: seq<real>, x: real)
    requires AtLeast(ls, x)
    ensures Run(s, ls).ewma >= Approach(s.ewma, x, |ls|)
  {
    EwmaRises(s, ls, x);
    hide *;
  }

  lemma {:induction false} ThresholdKept(s: State, ls: seq<real>)
    ensures Run(s, ls).threshold == s.threshold
    decreases |ls|
  {
    if ls != [] {
      ThresholdKept(Observe(s, ls[0]), ls[1..]);
    }
  }

  lemma FloorDelay(s: State)
    requires s.rate == FLOOR_RATE && Congested(s)
    ensures BurstDelay(s) == 100 * MILLISECOND
  {
    assert 1.0 / FLOOR_RATE == 10.0;
    assert Times(BURST_BASE as real, 10.0) == 100_000_000.0;
  }

  /** A fresh pacer that only sees latencies at or below a threshold of at least 1 ms never slows
      down. */
  lemma StaysFast(threshold: real, ls: seq<real>, x: real)
    requires threshold >= START_LATENCY && AtMost(ls, threshold)
    ensures var s := Run(Fresh(threshold), ls);
            s.rate == 1.0 && !Congested(s) && BurstDelay(s) == 0 && InterFrameDelay(s, x) == BaseGap(x)
  {
    ClearStaysClear(Fresh(threshold), ls, threshold);
    ClearRate(Fresh(threshold), ls);
  }
}
