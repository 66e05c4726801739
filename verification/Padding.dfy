/** The padding selector (internal/bcl/padding.go): a two-state size sampler whose large mode
    draws until a size passes a quantile floor. Random draws are parameters. */
module Padding {
  import opened Bytes
  import opened SizeModel
  import opened Personality
  import FrameCodec

  const MODE_TRANSITION := 0.15
  const ZERO_PAD := 0.20
  const LARGE_FLOOR := 0.6

  predicate Accepts(m: Model, floor: real, u: real)
    requires |m.cum| == |m.buckets| > 0
  {
    floor <= 0.0 || Quantile(m, SizeAt(m, u)) >= floor
  }

  /** The outcome of the rejection loop on a finite run of draws: the first accepted size, or
      None while the loop is still drawing. */
  function Biased(m: Model, floor: real, draws: seq<real>): Option<int>
    requires |m.cum| == |m.buckets| > 0
  {
    if draws == [] then None
    else if Accepts(m, floor, draws[0]) then Some(SizeAt(m, draws[0]))
    else Biased(m, floor, draws[1..])
  }

  method SampleBiased(m: Model, floor: real, draws: seq<real>) returns (r: Option<int>)
    requires |m.cum| == |m.buckets| > 0 && NonDecreasing(m.cum)
    ensures r == Biased(m, floor, draws)
  {
    for i := 0 to |draws|
      invariant Biased(m, floor, draws) == Biased(m, floor, draws[i..])
    {
      var s := Sample(m, draws[i]);
      if floor <= 0.0 {
        return Some(s);
      }
      var q := QuantileScan(m, s);
      if q >= floor {
        return Some(s);
      }
      assert draws[i..][1..] == draws[i + 1..];
    }
    return None;
  }

  /** Draws come from the half-open unit interval. */
  ghost predicate Unit(draws: seq<real>) {
    forall i :: 0 <= i < |draws| ==> 0.0 <= draws[i] < 1.0
  }

  /** The first bucket accepted under the floor, or the number of buckets when none is. */
  function FirstAccepted(m: Model, floor: real, from: nat := 0): (k: nat)
    requires from <= |m.cum| == |m.buckets|
    ensures from <= k <= |m.cum|
    ensures forall i :: from <= i < k ==> !Accepted(m, floor, i)
    ensures k < |m.cum| ==> Accepted(m, floor, k)
    decreases |m.cum| - from
  {
    if from == |m.cum| || Accepted(m, floor, from) then from else FirstAccepted(m, floor, from + 1)
  }

  /** Under a positive floor the accepted draws are exactly those above one threshold, the left
      end of the first accepted bucket. */
  lemma AcceptanceThreshold(m: Model, floor: real, u: real)
    requires Proper(m) && IncreasingSizes(m.buckets) && floor > 0.0 && 0.0 <= u <= 1.0
    ensures Accepts(m, floor, u) <==> u > Low(m, FirstAccepted(m, floor))
  {
    var k, i := FirstAccepted(m, floor), FirstAtLeast(m.cum, u);
    AcceptedSuffix(m, floor, i, i);
    SampleInterval(m, u, i);
    hide Proper, Quantile, IncreasingSizes, FirstAtLeast;
    if k <= i {
      AcceptedSuffix(m, floor, k, i);
      LowOrder(m, k, i);
    } else {
      LowOrder(m, i + 1, k);
      assert u <= Low(m, i + 1);
    }
  }

  /** The loop stops exactly when some draw exceeds the threshold. */
  lemma {:induction false} BiasedReturns(m: Model, floor: real, draws: seq<real>)
    requires Proper(m) && IncreasingSizes(m.buckets) && floor > 0.0 && Unit(draws)
    ensures Biased(m, floor, draws).Some? <==>
            exists i :: 0 <= i < |draws| && draws[i] > Low(m, FirstAccepted(m, floor))
    ensures Biased(m, floor, draws).Some? ==> Quantile(m, Biased(m, floor, draws).value) >= floor
  {
    if draws != [] {
      AcceptanceThreshold(m, floor, draws[0]);
      BiasedReturns(m, floor, draws[1..]);
      assert draws == [draws[0]] + draws[1..];
    }
  }

  /** And then it returns the size that the first such draw chooses. */
  lemma {:induction false} BiasedChooses(m: Model, floor: real, draws: seq<real>, k: nat)
    requires Proper(m) && IncreasingSizes(m.buckets) && floor > 0.0 && Unit(draws) && k < |draws|
    requires draws[k] > Low(m, FirstAccepted(m, floor))
    requires forall i :: 0 <= i < k ==> draws[i] <= Low(m, FirstAccepted(m, floor))
    ensures Biased(m, floor, draws) == Some(m.buckets[FirstAtLeast(m.cum, draws[k])].size)
    decreases |draws|
  {
    AcceptanceThreshold(m, floor, draws[0]);
    if k > 0 {
      BiasedChooses(m, floor, draws[1..], k - 1);
    }
  }

  /** Which buckets a positive floor lets through: exactly those whose share starts at or above it. */
  lemma FloorSelects(m: Model, floor: real, i: nat)
    requires Proper(m) && IncreasingSizes(m.buckets) && floor > 0.0 && i < |m.cum|
    ensures (exists draws :: Unit(draws) && Biased(m, floor, draws) == Some(m.buckets[i].size)) <==>
            Low(m, i) >= floor
  {
    AcceptedSuffix(m, floor, i, i);
    if Low(m, i) >= floor {
      LowOrder(m, i, i + 1);
      LowOrder(m, i + 1, |m.cum|);
      var u := (Low(m, i) + Low(m, i + 1)) / 2.0;
      SampleInterval(m, u, i);
      hide Proper, IncreasingSizes;
      assert Unit([u]) && Accepts(m, floor, u);
      assert Biased(m, floor, [u]) == Some(m.buckets[i].size);
    } else {
      forall draws | Unit(draws) && Biased(m, floor, draws).Some?
        ensures Biased(m, floor, draws).value != m.buckets[i].size
      {
        BiasedReturns(m, floor, draws);
      }
    }
  }

  /** A table lets the loop stop at all exactly when the weight before its last bucket reaches
      the floor. */
  lemma BiasedCanReturn(m: Model, floor: real)
    requires Proper(m) && IncreasingSizes(m.buckets) && floor > 0.0
    ensures (exists draws :: Unit(draws) && Biased(m, floor, draws).Some?) <==>
            Weight(m.buckets, |m.buckets| - 1) >= floor * Total(m.buckets)
  {
    AcceptedExists(m, floor);
    LowOrder(m, 0, 0);
    var k := FirstAccepted(m, floor);
    hide Proper, Quantile, IncreasingSizes, Biased;
    if k < |m.cum| {
      LowOrder(m, k, |m.cum|);
      var draws := [(Low(m, k) + 1.0) / 2.0];
      BiasedReturns(m, floor, draws);
      assert draws[0] > Low(m, k);
    } else {
      forall draws | Unit(draws) ensures Biased(m, floor, draws).None? {
        BiasedReturns(m, floor, draws);
      }
    }
  }

  ghost predicate ModelOf(m: Model, p: Personality) {
    m.buckets == p.buckets && Normalised(m)
  }

  lemma ModelProper(m: Model, p: Personality)
    requires Known(p) && ModelOf(m, p)
    ensures Proper(m) && IncreasingSizes(m.buckets)
  {
    TablesProper(p);
  }

  /** Large mode can return a size for browser, grpc, mobile and relay, and for no run of draws
      for video: its loop never accepts a sample. */
  lemma LargeModeReturns(m: Model, p: Personality)
    requires Known(p) && ModelOf(m, p)
    ensures (exists draws :: Unit(draws) && Biased(m, LARGE_FLOOR, draws).Some?) <==> p != VIDEO
  {
    ModelProper(m, p);
    BiasedCanReturn(m, LARGE_FLOOR);
    TableWeights();
  }

  // ----- the selector -----

  function NextMode(large: bool, flip: real): bool {
    if flip < MODE_TRANSITION then !large else large
  }

  function FloorOf(large: bool): real {
    if large then LARGE_FLOOR else 0.0
  }

  /** The frame padding that fills the gap between a payload and the sampled target: the frame comes
      to exactly the target, or as close as the padding limit allows from below, or is unpadded
      because it already exceeds the target. */
  function PadFor(target: int, payloadLen: nat): (pad: Uint16)
    ensures pad <= FrameCodec.MAX_PADDING
    ensures var size := FrameCodec.HEADER_SIZE + payloadLen;
            && (size <= target <= size + FrameCodec.MAX_PADDING ==> size + pad == target)
            && (target > size + FrameCodec.MAX_PADDING ==> pad == FrameCodec.MAX_PADDING)
            && (target < size ==> pad == 0)
  {
    var gap := target - FrameCodec.HEADER_SIZE - payloadLen;
    if gap <= 0 then 0 else if gap > FrameCodec.MAX_PADDING then FrameCodec.MAX_PADDING else gap
  }

  class Selector {
    const model: Model
    var inLargeMode: bool

    constructor (model: Model)
      ensures this.model == model && !inLargeMode
    {
      this.model := model;
      inLargeMode := false;
    }

    /** sampleCorrelatedSize. None stands for a call that has not returned on these draws. */
    method SampleApparentSize(flip: real, draws: seq<real>) returns (r: Option<int>)
      requires |model.cum| == |model.buckets| > 0 && NonDecreasing(model.cum)
      modifies this
      ensures inLargeMode == NextMode(old(inLargeMode), flip)
      ensures r == Biased(model, FloorOf(inLargeMode), draws)
    {
      if flip < MODE_TRANSITION {
        inLargeMode := !inLargeMode;
      }
      if inLargeMode {
        r := SampleBiased(model, LARGE_FLOOR, draws);
      } else {
        r := SampleBiased(model, 0.0, draws);
      }
    }

    method SelectPadding(payloadLen: nat, zero: real, flip: real, draws: seq<real>) returns (r: Option<Uint16>)
      requires |model.cum| == |model.buckets| > 0 && NonDecreasing(model.cum)
      modifies this
      ensures zero < ZERO_PAD ==> r == Some(0) && inLargeMode == old(inLargeMode)
      ensures zero >= ZERO_PAD ==>
                && inLargeMode == NextMode(old(inLargeMode), flip)
                && var target := Biased(model, FloorOf(inLargeMode), draws);
                   r == if target.None? then None else Some(PadFor(target.value, payloadLen))
    {
      if zero < ZERO_PAD {
        return Some(0);
      }
      var target := SampleApparentSize(flip, draws);
      if target.None? {
        return None;
      }
      r := Some(PadFor(target.value, payloadLen));
    }
  }

  /** One call of the selector over values: its result and the new mode. */
  function Correlated(m: Model, large: bool, flip: real, draws: seq<real>): (Option<int>, bool)
    requires |m.cum| == |m.buckets| > 0
  {
    (Biased(m, FloorOf(NextMode(large, flip)), draws), NextMode(large, flip))
  }

  // ----- the mode over runs -----

  /** The draws of one use of the selector: sampling an apparent size, or selecting padding. */
  datatype Use = Apparent(flip: real, draws: seq<real>) | Pad(zero: real, flip: real, draws: seq<real>)

  /** Whether a use draws for a switch of modes, and whether it switches. */
  predicate Switches(u: Use) {
    (u.Pad? ==> u.zero >= 0.20) && u.flip < 0.15
  }

  function SwitchCount(uses: seq<Use>): nat {
    if uses == [] then 0 else SwitchCount(uses[..|uses| - 1]) + (if Switches(uses[|uses| - 1]) then 1 else 0)
  }

  /** The mode one use leaves, as the two methods of the selector state it. */
  function ModeAfter(large: bool, u: Use): bool {
    if u.Pad? && u.zero < ZERO_PAD then large else NextMode(large, u.flip)
  }

  function ModeAfterAll(large: bool, uses: seq<Use>): bool {
    if uses == [] then large else ModeAfter(ModeAfterAll(large, uses[..|uses| - 1]), uses[|uses| - 1])
  }

  /** After any run of uses the selector is back in the mode it started in exactly when the number of
      switches is even. */
  lemma {:induction false} ModeParity(large: bool, uses: seq<Use>)
    ensures ModeAfterAll(large, uses) == large <==> SwitchCount(uses) % 2 == 0
  {
    if uses != [] {
      ModeParity(large, uses[..|uses| - 1]);
    }
  }

  /** In small mode a call returns the size its first draw chooses; in large mode only sizes whose
      share starts at or above six tenths come out, and each of them can. */
  lemma ModeSizes(m: Model, large: bool, flip: real, u: real, i: nat)
    requires Proper(m) && IncreasingSizes(m.buckets) && 0.0 <= u < 1.0 && i < |m.cum|
    ensures var small := if flip < 0.15 then large else !large;
            if small then Correlated(m, large, flip, [u]) == (Some(m.buckets[FirstAtLeast(m.cum, u)].size), false)
            else
              (exists draws :: Unit(draws) && Correlated(m, large, flip, draws) == (Some(m.buckets[i].size), true)) <==>
              Low(m, i) >= 0.6
  {
    FloorSelects(m, LARGE_FLOOR, i);
    hide Proper, IncreasingSizes, Quantile;
    if large == (flip < 0.15) {
      assert Accepts(m, 0.0, u);
    } else {
      assert forall draws :: Correlated(m, large, flip, draws) == (Biased(m, LARGE_FLOOR, draws), true);
    }
  }

  /** Sizes come from the table. */
  lemma {:induction false} BiasedFromTable(m: Model, floor: real, draws: seq<real>) returns (i: nat)
    requires |m.cum| == |m.buckets| > 0 && Biased(m, floor, draws).Some?
    ensures i < |m.buckets| && m.buckets[i].size == Biased(m, floor, draws).value
  {
    if Accepts(m, floor, draws[0]) {
      i := FirstAtLeast(m.cum, draws[0]);
    } else {
      i := BiasedFromTable(m, floor, draws[1..]);
    }
  }

  /** Given at least one draw, a call of the video selector returns exactly when it ends in small
      mode. */
  lemma VideoSelector(m: Model, large: bool, flip: real, draws: seq<real>)
    requires ModelOf(m, VIDEO) && Unit(draws) && draws != []
    ensures Correlated(m, large, flip, draws).0.Some? <==> !Correlated(m, large, flip, draws).1
  {
    LargeModeReturns(m, VIDEO);
  }

  /** The draws of one call of the selector. */
  datatype Call = Call(flip: real, draws: seq<real>)

  ghost predicate Usable(calls: seq<Call>) {
    forall i :: 0 <= i < |calls| ==> Unit(calls[i].draws) && calls[i].draws != []
  }

  /** Every call of a run returns, each starting in the mode the last one left. */
  predicate AllReturn(m: Model, large: bool, calls: seq<Call>)
    requires |m.cum| == |m.buckets| > 0
    decreases |calls|
  {
    calls == [] ||
    var r := Correlated(m, large, calls[0].flip, calls[0].draws);
    r.0.Some? && AllReturn(m, r.1, calls[1..])
  }

  /** A video selector starts in small mode and all its calls return if and only if it never switches
      modes: the first switch is never left. */
  lemma {:induction false} VideoRun(m: Model, calls: seq<Call>)
    requires ModelOf(m, VIDEO) && Usable(calls)
    ensures |m.cum| == |m.buckets| > 0
    ensures AllReturn(m, false, calls) <==> forall i :: 0 <= i < |calls| ==> calls[i].flip >= MODE_TRANSITION
    decreases |calls|
  {
    if calls != [] {
      VideoSelector(m, false, calls[0].flip, calls[0].draws);
      VideoRun(m, calls[1..]);
      assert calls == [calls[0]] + calls[1..];
    }
  }
}
