/** The weighted frame-size sampler (internal/bcl/math.go) and the quantile its rejection
    sampler uses (internal/bcl/padding.go). Floating point is modelled by real numbers. */
module SizeModel {
  import opened Bytes

  datatype Bucket = Bucket(size: int, weight: real)

  /** The buckets with their normalised cumulative weights. */
  datatype Model = Model(buckets: seq<Bucket>, cum: seq<real>)

  /** Sum of the first n weights. */
  function Weight(bs: seq<Bucket>, n: nat): real
    requires n <= |bs|
  {
    if n == 0 then 0.0 else Weight(bs, n - 1) + bs[n - 1].weight
  }

  function Total(bs: seq<Bucket>): real { Weight(bs, |bs|) }

  ghost predicate Positive(bs: seq<Bucket>) {
    forall i :: 0 <= i < |bs| ==> bs[i].weight > 0.0
  }

  ghost predicate IncreasingSizes(bs: seq<Bucket>) {
    forall i, j :: 0 <= i < j < |bs| ==> bs[i].size < bs[j].size
  }

  /** cum[i] is the share of the first i + 1 buckets in the total weight. */
  ghost predicate Normalised(m: Model) {
    && |m.cum| == |m.buckets|
    && (|m.cum| > 0 ==> Total(m.buckets) != 0.0)
    && forall i :: 0 <= i < |m.cum| ==> m.cum[i] == Weight(m.buckets, i + 1) / Total(m.buckets)
  }

  /** What a caller must supply for the model to be a probability distribution. */
  ghost predicate Proper(m: Model) {
    |m.buckets| > 0 && Positive(m.buckets) && Normalised(m)
  }

  lemma DivAdd(a: real, b: real, t: real)
    requires t != 0.0
    ensures a / t + b / t == (a + b) / t
  {
  }

  /** NewSizeModel: the running sum of weight / total is the prefix sum divided by the total. None
      stands for a table whose weights sum to zero, for which the divisions yield no numbers. */
  method NewSizeModel(buckets: seq<Bucket>) returns (m: Option<Model>)
    ensures m.Some? <==> buckets == [] || Total(buckets) != 0.0
    ensures m.Some? ==> m.value.buckets == buckets && Normalised(m.value)
  {
    var total := 0.0;
    for i := 0 to |buckets|
      invariant total == Weight(buckets, i)
    {
      total := total + buckets[i].weight;
    }
    if buckets != [] && total == 0.0 {
      return None;
    }
    var cum: seq<real> := [];
    var running := 0.0;
    for i := 0 to |buckets|
      invariant |cum| == i
      invariant total != 0.0 ==> running == Weight(buckets, i) / total
      invariant forall k :: 0 <= k < i ==> cum[k] == Weight(buckets, k + 1) / total
    {
      DivAdd(Weight(buckets, i), buckets[i].weight, total);
      running := running + buckets[i].weight / total;
      cum := cum + [running];
    }
    m := Some(Model(buckets, cum));
  }

  lemma {:induction false} WeightMonotone(bs: seq<Bucket>, i: nat, j: nat)
    requires Positive(bs) && i <= j <= |bs|
    ensures Weight(bs, i) <= Weight(bs, j)
    ensures i < j ==> Weight(bs, i) < Weight(bs, j)
    decreases j
  {
    if i < j {
      WeightMonotone(bs, i, j - 1);
    }
  }

  lemma DivOrder(a: real, b: real, t: real)
    requires t > 0.0
    ensures a < b <==> a / t < b / t
    ensures a == b <==> a / t == b / t
  {
    assert a == (a / t) * t && b == (b / t) * t;
    assert b - a == (b / t - a / t) * t;
  }

  /** The left end of bucket i's share of [0, 1]. */
  function Low(m: Model, i: nat): real
    requires i <= |m.cum|
  {
    if i == 0 then 0.0 else m.cum[i - 1]
  }

  lemma LowIsWeight(m: Model, i: nat)
    requires Proper(m) && i <= |m.cum|
    ensures Total(m.buckets) > 0.0
    ensures Low(m, i) == Weight(m.buckets, i) / Total(m.buckets)
  {
    WeightMonotone(m.buckets, 0, |m.buckets|);
  }

  /** With positive weights the shares tile [0, 1]: strictly increasing from 0, ending at 1, the
      i-th of length weight_i / total. */
  lemma CumulativeShape(m: Model)
    requires Proper(m)
    ensures Low(m, 0) == 0.0 && Low(m, |m.cum|) == 1.0
    ensures forall i, j :: 0 <= i < j <= |m.cum| ==> Low(m, i) < Low(m, j)
    ensures forall i :: 0 <= i < |m.cum| ==>
              m.cum[i] - Low(m, i) == m.buckets[i].weight / Total(m.buckets) > 0.0
  {
    var bs, t := m.buckets, Total(m.buckets);
    LowIsWeight(m, |bs|);
    assert t / t == 1.0;
    forall i, j | 0 <= i < j <= |m.cum| ensures Low(m, i) < Low(m, j) {
      WeightMonotone(bs, i, j);
      LowIsWeight(m, i);
      LowIsWeight(m, j);
      DivOrder(Weight(bs, i), Weight(bs, j), t);
    }
    forall i | 0 <= i < |m.cum| ensures m.cum[i] - Low(m, i) == bs[i].weight / t > 0.0 {
      LowIsWeight(m, i);
      DivAdd(Weight(bs, i), bs[i].weight, t);
      assert Low(m, i) < Low(m, i + 1);
    }
  }

  lemma LowOrder(m: Model, i: nat, j: nat)
    requires Proper(m) && i <= j <= |m.cum|
    ensures Low(m, 0) == 0.0 <= Low(m, i) <= Low(m, j) <= 1.0 == Low(m, |m.cum|)
    ensures i < j ==> Low(m, i) < Low(m, j)
  {
    CumulativeShape(m);
  }

  // ----- sampling -----

  /** Linear search: the first index whose cumulative weight reaches u, or the last index. */
  function FirstAtLeast(cum: seq<real>, u: real, from: nat := 0): (i: nat)
    requires from < |cum|
    ensures from <= i < |cum|
    ensures forall j :: from <= j < i ==> cum[j] < u
    ensures cum[i] >= u || i == |cum| - 1
    decreases |cum| - from
  {
    if cum[from] >= u || from == |cum| - 1 then from else FirstAtLeast(cum, u, from + 1)
  }

  ghost predicate NonDecreasing(cum: seq<real>) {
    forall i, j :: 0 <= i < j < |cum| ==> cum[i] <= cum[j]
  }

  lemma FirstAtLeastIs(cum: seq<real>, u: real, i: nat)
    requires NonDecreasing(cum) && i < |cum| && u <= cum[|cum| - 1]
    ensures FirstAtLeast(cum, u) == i <==> (i == 0 || cum[i - 1] < u) && u <= cum[i]
  {
    var k := FirstAtLeast(cum, u);
    if k < i {
      assert u <= cum[k] <= cum[i - 1];
    }
  }

  lemma ProperIsSorted(m: Model)
    requires Proper(m)
    ensures NonDecreasing(m.cum)
  {
    CumulativeShape(m);
    forall i, j | 0 <= i < j < |m.cum| ensures m.cum[i] <= m.cum[j] {
      assert Low(m, i + 1) < Low(m, j + 1);
    }
  }

  function SizeAt(m: Model, u: real): int
    requires |m.cum| == |m.buckets| > 0
  {
    m.buckets[FirstAtLeast(m.cum, u)].size
  }

  /** SizeModel.Sample: the bisection agrees with the linear search. */
  method Sample(m: Model, u: real) returns (size: int)
    requires |m.cum| == |m.buckets| > 0 && NonDecreasing(m.cum)
    ensures size == SizeAt(m, u)
  {
    var lo, hi := 0, |m.cum| - 1;
    while lo < hi
      invariant 0 <= lo <= hi < |m.cum|
      invariant forall j :: 0 <= j < lo ==> m.cum[j] < u
      invariant hi == |m.cum| - 1 || m.cum[hi] >= u
    {
      var mid := (lo + hi) / 2;
      if m.cum[mid] < u {
        assert forall j :: 0 <= j < mid ==> m.cum[j] <= m.cum[mid];
        lo := mid + 1;
      } else {
        hi := mid;
      }
    }
    size := m.buckets[lo].size;
  }

  /** The values of u that choose bucket i are exactly its share (Low(i), cum[i]] of the unit
      interval, closed on the left for the first bucket. */
  lemma SampleInterval(m: Model, u: real, i: nat)
    requires Proper(m) && i < |m.cum| && 0.0 <= u <= 1.0
    ensures FirstAtLeast(m.cum, u) == i <==> (Low(m, i) < u || i == 0) && u <= m.cum[i]
    ensures m.cum[i] - Low(m, i) == m.buckets[i].weight / Total(m.buckets)
  {
    CumulativeShape(m);
    ProperIsSorted(m);
    assert Low(m, |m.cum|) == m.cum[|m.cum| - 1];
    FirstAtLeastIs(m.cum, u, i);
  }

  // ----- quantile and rejection -----

  /** SizeModel.quantile as a function: the share below the first bucket of at least this size. */
  function Quantile(m: Model, size: int, from: nat := 0): real
    requires from <= |m.buckets| == |m.cum|
    decreases |m.buckets| - from
  {
    if from == |m.buckets| then 1.0
    else if m.buckets[from].size >= size then Low(m, from)
    else Quantile(m, size, from + 1)
  }

  method QuantileScan(m: Model, size: int) returns (q: real)
    requires |m.buckets| == |m.cum|
    ensures q == Quantile(m, size)
  {
    for i := 0 to |m.buckets|
      invariant Quantile(m, size) == Quantile(m, size, i)
    {
      if m.buckets[i].size >= size {
        return if i == 0 then 0.0 else m.cum[i - 1];
      }
    }
    return 1.0;
  }

  lemma {:induction false} QuantileFrom(m: Model, i: nat, from: nat)
    requires |m.buckets| == |m.cum| && IncreasingSizes(m.buckets) && from <= i < |m.cum|
    ensures Quantile(m, m.buckets[i].size, from) == Low(m, i)
    decreases i - from
  {
    if from < i {
      QuantileFrom(m, i, from + 1);
    }
  }

  /** Bucket i passes the rejection test with this floor. */
  predicate Accepted(m: Model, floor: real, i: nat)
    requires i < |m.buckets| == |m.cum|
  {
    Quantile(m, m.buckets[i].size) >= floor
  }

  /** The accepted buckets are exactly those whose share starts at or above the floor, so they
      form a suffix. */
  lemma AcceptedSuffix(m: Model, floor: real, i: nat, j: nat)
    requires Proper(m) && IncreasingSizes(m.buckets) && i <= j < |m.cum|
    ensures Accepted(m, floor, i) <==> Low(m, i) >= floor
    ensures Accepted(m, floor, i) ==> Accepted(m, floor, j)
  {
    QuantileFrom(m, i, 0);
    QuantileFrom(m, j, 0);
    CumulativeShape(m);
  }

  lemma ShareAtLeast(w: real, t: real, floor: real)
    requires t > 0.0
    ensures w / t >= floor <==> w >= floor * t
  {
    assert w == (w / t) * t;
    if w / t >= floor { assert (w / t - floor) * t >= 0.0; }
    if w / t < floor { assert (floor - w / t) * t > 0.0; }
  }

  /** Some bucket is accepted exactly when the weight before the last bucket reaches the floor. */
  lemma AcceptedExists(m: Model, floor: real)
    requires Proper(m) && IncreasingSizes(m.buckets)
    ensures (exists i: nat :: i < |m.cum| && Accepted(m, floor, i)) <==>
            Weight(m.buckets, |m.buckets| - 1) >= floor * Total(m.buckets)
  {
    var last := |m.cum| - 1;
    LowIsWeight(m, last);
    ShareAtLeast(Weight(m.buckets, last), Total(m.buckets), floor);
    AcceptedSuffix(m, floor, last, last);
    forall i: nat | i < |m.cum| && Accepted(m, floor, i) ensures Accepted(m, floor, last) {
      AcceptedSuffix(m, floor, i, last);
    }
  }
}
