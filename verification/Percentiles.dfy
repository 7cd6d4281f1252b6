/** The gate's percentile and mean estimates, against the samples behind the histogram. */
module Percentiles {
  import opened Histograms
  import opened Powers
  import opened Slots
  import RealSums

  // ---- the estimates ------------------------------------------------------------

  function Prefix(buckets: seq<nat>, i: nat): nat
    requires i <= |buckets|
  {
    Total(buckets[..i])
  }

  /** The first bucket at or after `i` whose prefix count reaches `target`; `|buckets|` if none. */
  function FirstReaching(buckets: seq<nat>, target: real, i: nat): (b: nat)
    requires i <= |buckets|
    ensures i <= b <= |buckets|
    ensures b < |buckets| ==> Prefix(buckets, b + 1) as real >= target
    ensures b > i ==> (Prefix(buckets, b) as real) < target
    decreases |buckets| - i
  {
    if i == |buckets| then i
    else if Prefix(buckets, i + 1) as real >= target then i
    else FirstReaching(buckets, target, i + 1)
  }

  /** The bucket the scan for quantile `q` stops in. */
  function ScanStop(buckets: seq<nat>, q: real): (b: nat)
    ensures b <= |buckets|
  {
    FirstReaching(buckets, Target(q, Total(buckets)), 0)
  }

  function Target(q: real, total: nat): real
  {
    q * (total as real)
  }

  function Midpoint(i: nat): real
  {
    1.5 * (Pow2(i) as real)
  }

  function Log2Estimate(buckets: seq<nat>, q: real): real
  {
    if Total(buckets) == 0 then 0.0
    else
      var b := ScanStop(buckets, q);
      Midpoint(if b < |buckets| then b else |buckets| - 1)
  }

  method Log2Percentile(buckets: seq<nat>, q: real) returns (estimate: real)
    requires Total(buckets) == 0 || |buckets| <= 64
    ensures estimate == Log2Estimate(buckets, q)
  {
    var total := Tally(buckets);
    if total == 0 {
      return 0.0;
    }
    var target := Target(q, total);
    ghost var first := FirstReaching(buckets, target, 0);
    var cum := 0;
    for i := 0 to |buckets|
      invariant cum == Prefix(buckets, i)
      invariant first == FirstReaching(buckets, target, i)
    {
      assert buckets[..i + 1][..i] == buckets[..i];
      cum := cum + buckets[i];
      if cum as real >= target {
        return 1.5 * (Pow2(i) as real);
      }
    }
    assert |buckets| > 0;
    var last := if |buckets| == 0 then 0 else |buckets| - 1;
    return 1.5 * (Pow2(last) as real);
  }

  /** Midpoint of explicit bucket `i`; the overflow bucket is taken to end at twice its start. */
  function ExplicitMidpoint(bounds: seq<real>, i: nat): real
    requires i <= |bounds|
  {
    var lo := if i == 0 then 0.0 else bounds[i - 1];
    var hi := if i < |bounds| then bounds[i] else lo * 2.0;
    (lo + hi) / 2.0
  }

  function ExplicitEstimate(buckets: seq<nat>, bounds: seq<real>, q: real): real
    requires Total(buckets) == 0 || |buckets| <= |bounds| + 1
  {
    if Total(buckets) == 0 then 0.0
    else
      var b := ScanStop(buckets, q);
      if b < |buckets| then ExplicitMidpoint(bounds, b)
      else if bounds == [] then 0.0 else bounds[|bounds| - 1]
  }

  method ExplicitPercentile(buckets: seq<nat>, bounds: seq<real>, q: real) returns (estimate: real)
    requires Total(buckets) == 0 || |buckets| <= |bounds| + 1
    ensures estimate == ExplicitEstimate(buckets, bounds, q)
  {
    var total := Tally(buckets);
    if total == 0 {
      return 0.0;
    }
    var target := Target(q, total);
    ghost var first := FirstReaching(buckets, target, 0);
    var cum := 0;
    for i := 0 to |buckets|
      invariant cum == Prefix(buckets, i)
      invariant first == FirstReaching(buckets, target, i)
    {
      assert buckets[..i + 1][..i] == buckets[..i];
      cum := cum + buckets[i];
      if cum as real >= target {
        var lo := if i == 0 then 0.0 else bounds[i - 1];
        var hi := if i < |bounds| then bounds[i] else lo * 2.0;
        return (lo + hi) / 2.0;
      }
    }
    return if bounds == [] then 0.0 else bounds[|bounds| - 1];
  }

  /** Upper edge of sub-bucket `sub` of an octave starting at `base`. */
  function SubEdge(base: nat, sub: nat): real
  {
    (base as real) * (1.0 + (sub as real + 1.0) / (SUBSLOTS as real))
  }

  /** Upper edge of log-linear slot `s`. */
  function UpperEdge(s: nat): real
  {
    SubEdge(Pow2(s / SUBSLOTS), s % SUBSLOTS)
  }

  method LogLinearBounds() returns (bounds: seq<real>)
    ensures LogLinear(bounds)
  {
    bounds := [];
    for s := 0 to LINEAR_SLOTS - 1
      invariant |bounds| == s
      invariant forall k :: 0 <= k < s ==> bounds[k] == UpperEdge(k)
    {
      var octave := s / SUBSLOTS;
      var sub := (s % SUBSLOTS) as real;
      var base := Pow2(octave) as real;
      bounds := bounds + [base * (1.0 + (sub + 1.0) / (SUBSLOTS as real))];
    }
  }

  // ---- order statistics ---------------------------------------------------------

  /** `v` is a k-th smallest sample, counting from one. */
  ghost predicate OrderStatistic(samples: seq<nat>, k: nat, v: nat)
  {
    CountBelow(samples, v) < k <= CountBelow(samples, v + 1)
  }

  /** In ascending order the k-th smallest sample is the one at position k. */
  lemma SortedOrderStatistic(sorted: seq<nat>, k: nat)
    requires forall i, j :: 0 <= i <= j < |sorted| ==> sorted[i] <= sorted[j]
    requires 1 <= k <= |sorted|
    ensures OrderStatistic(sorted, k, sorted[k - 1])
  {
    var v := sorted[k - 1];
    CountBelowAtMost(sorted, v, k - 1);
    CountBelowAtLeast(sorted, v + 1, k);
  }

  lemma {:induction false} CountBelowAtMost(xs: seq<nat>, bound: nat, k: nat)
    requires k <= |xs| && forall i :: k <= i < |xs| ==> xs[i] >= bound
    ensures CountBelow(xs, bound) <= k
  {
    if |xs| > k {
      CountBelowAtMost(xs[..|xs| - 1], bound, k);
    } else if |xs| > 0 {
      CountBelowAtMost(xs[..|xs| - 1], bound, |xs| - 1);
    }
  }

  lemma {:induction false} CountBelowAtLeast(xs: seq<nat>, bound: nat, k: nat)
    requires k <= |xs| && forall i :: 0 <= i < k ==> xs[i] < bound
    ensures CountBelow(xs, bound) >= k
  {
    if |xs| > k {
      CountBelowAtLeast(xs[..|xs| - 1], bound, k);
    } else if k > 0 {
      CountBelowAtLeast(xs[..|xs| - 1], bound, k - 1);
    }
  }

  /** `k` is the ceiling of `q` times the number of samples. */
  ghost predicate Rank(samples: seq<nat>, q: real, k: nat)
  {
    (k as real) - 1.0 < q * (|samples| as real) <= k as real
  }

  lemma {:induction false} ReachedBy(h: seq<nat>, target: real, i: nat, b: nat)
    requires i <= b < |h| && Prefix(h, b + 1) as real >= target
    ensures FirstReaching(h, target, i) <= b
    decreases b - i
  {
    if i < b {
      ReachedBy(h, target, i + 1, b);
    }
  }

  /** No sample up to `v` has a slot above `hi`, and none from `v` on has one below `lo`. */
  ghost predicate SplitAround(samples: seq<nat>, slot: nat -> nat, v: nat, lo: nat, hi: nat)
  {
    && (forall i :: 0 <= i < |samples| && samples[i] <= v ==> slot(samples[i]) <= hi)
    && (forall i :: 0 <= i < |samples| && v <= samples[i] ==> lo <= slot(samples[i]))
  }

  /** At least the k smallest samples are in slot `hi` or an earlier one. */
  lemma ReachesInSlot(samples: seq<nat>, slot: nat -> nat, k: nat, v: nat, lo: nat, hi: nat)
    requires SplitAround(samples, slot, v, lo, hi) && OrderStatistic(samples, k, v)
    ensures CountBelow(Buckets(samples, slot), hi + 1) >= k
  {
    CountBelowImplies(samples, v + 1, Buckets(samples, slot), hi + 1);
  }

  /** Fewer than k samples are in slots before `lo`. */
  lemma NotBeforeSlot(samples: seq<nat>, slot: nat -> nat, k: nat, v: nat, lo: nat, hi: nat, b: nat)
    requires SplitAround(samples, slot, v, lo, hi) && OrderStatistic(samples, k, v) && b <= lo
    ensures CountBelow(Buckets(samples, slot), b) < k
  {
    CountBelowImplies(Buckets(samples, slot), b, samples, v);
  }

  /** The scan stops between the two slots that split the samples around the true k-th one. */
  lemma ScanStopsBetween(samples: seq<nat>, slot: nat -> nat, n: nat, q: real, k: nat, v: nat, lo: nat, hi: nat)
    requires forall i :: 0 <= i < |samples| ==> slot(samples[i]) < n
    requires SplitAround(samples, slot, v, lo, hi) && hi < n
    requires Rank(samples, q, k) && OrderStatistic(samples, k, v)
    ensures Total(Histogram(Buckets(samples, slot), n)) == |samples| > 0
    ensures lo <= ScanStop(Histogram(Buckets(samples, slot), n), q) <= hi
  {
    var bs := Buckets(samples, slot);
    HistogramTotal(bs, n);
    ReachesInSlot(samples, slot, k, v, lo, hi);
    forall b: nat | b <= lo ensures CountBelow(bs, b) < k {
      NotBeforeSlot(samples, slot, k, v, lo, hi, b);
    }
    FirstBetween(bs, n, Target(q, |samples|), k, lo, hi);
  }

  /** The first bucket to reach the target, from what the cumulative counts say. */
  lemma FirstBetween(bs: seq<nat>, n: nat, target: real, k: nat, lo: nat, hi: nat)
    requires (forall i :: 0 <= i < |bs| ==> bs[i] < n) && hi < n && (k as real) - 1.0 < target <= k as real
    requires CountBelow(bs, hi + 1) >= k && forall b: nat :: b <= lo ==> CountBelow(bs, b) < k
    ensures lo <= FirstReaching(Histogram(bs, n), target, 0) <= hi
  {
    var h := Histogram(bs, n);
    var first: nat := FirstReaching(h, target, 0);
    PrefixTotals(bs, n, hi + 1);
    ReachedBy(h, target, 0, hi);
    PrefixTotals(bs, n, first + 1);
  }

  /** The scan stops in the bucket of the true k-th smallest sample, whatever the
      (monotone) bucketing. */
  lemma ScanFindsTheSampleBucket(samples: seq<nat>, slot: nat -> nat, n: nat, q: real, k: nat, v: nat)
    requires forall i :: 0 <= i < |samples| ==> slot(samples[i]) < n
    requires SplitAround(samples, slot, v, slot(v), slot(v)) && slot(v) < n
    requires Rank(samples, q, k) && OrderStatistic(samples, k, v)
    ensures Total(Histogram(Buckets(samples, slot), n)) == |samples| > 0
    ensures ScanStop(Histogram(Buckets(samples, slot), n), q) == slot(v)
  {
    ScanStopsBetween(samples, slot, n, q, k, v, slot(v), slot(v));
  }

  lemma Log2Split(samples: seq<nat>, v: nat)
    ensures SplitAround(samples, Log2Slot, v, Log2Slot(v), Log2Slot(v))
  {
    forall i | 0 <= i < |samples|
      ensures samples[i] <= v ==> Log2Slot(samples[i]) <= Log2Slot(v)
      ensures v <= samples[i] ==> Log2Slot(v) <= Log2Slot(samples[i])
    {
      if samples[i] <= v {
        Log2SlotMonotone(samples[i], v);
      } else {
        Log2SlotMonotone(v, samples[i]);
      }
    }
  }

  /** The log2 percentile of the samples' histogram lands in the bucket of the true
      ceil(q*n)-th smallest sample, and is off by at most half of it. */
  lemma Log2PercentileError(samples: seq<nat>, q: real, k: nat, v: nat)
    requires Rank(samples, q, k) && OrderStatistic(samples, k, v)
    ensures var estimate := Log2Estimate(Histogram(Buckets(samples, Log2Slot), MAX_OCTAVES), q);
            && estimate == Midpoint(Log2Slot(v))
            && (1 <= v < Pow2(40) ==> RealSums.Abs(estimate - v as real) <= (v as real) / 2.0)
  {
    Log2Split(samples, v);
    ScanFindsTheSampleBucket(samples, Log2Slot, MAX_OCTAVES, q, k, v);
    if 1 <= v < Pow2(40) {
      Log2SlotBrackets(v);
    }
  }

  /** The reported edge above a sub-bucket is its exact edge. */
  lemma SubEdgeExact(p: nat, sub: nat)
    requires sub < SUBSLOTS
    ensures 4.0 * SubEdge(p, sub) == QuarterEdge(p, sub + 1) as real
  {
    if sub == 0 {
    } else if sub == 1 {
    } else if sub == 2 {
    } else {
    }
  }

  lemma SlotSplits(octave: nat, sub: nat)
    requires sub < SUBSLOTS
    ensures (octave * SUBSLOTS + sub) / SUBSLOTS == octave && (octave * SUBSLOTS + sub) % SUBSLOTS == sub
  {}

  ghost predicate LogLinear(bounds: seq<real>)
  {
    |bounds| == LINEAR_SLOTS - 1 && forall s :: 0 <= s < |bounds| ==> bounds[s] == UpperEdge(s)
  }

  lemma BoundExact(bounds: seq<real>, s: nat, octave: nat, sub: nat)
    requires LogLinear(bounds) && sub < SUBSLOTS && s == octave * SUBSLOTS + sub < |bounds|
    ensures 4.0 * bounds[s] == QuarterEdge(Pow2(octave), sub + 1) as real
  {
    SlotSplits(octave, sub);
    SubEdgeExact(Pow2(octave), sub);
  }

  /** The midpoint of slot `4 * octave + sub`, away from the first and the overflow slot. */
  lemma InnerMidpoint(bounds: seq<real>, octave: nat, sub: nat)
    requires LogLinear(bounds) && sub < SUBSLOTS && 0 < octave * SUBSLOTS + sub < LINEAR_SLOTS - 1
    ensures 8.0 * ExplicitMidpoint(bounds, octave * SUBSLOTS + sub)
            == (QuarterEdge(Pow2(octave), sub) + QuarterEdge(Pow2(octave), sub + 1)) as real
  {
    BoundExact(bounds, octave * SUBSLOTS + sub, octave, sub);
    LowerBoundExact(bounds, octave * SUBSLOTS + sub, octave, sub);
    MidpointFromEdges(bounds, octave * SUBSLOTS + sub, QuarterEdge(Pow2(octave), sub),
                      QuarterEdge(Pow2(octave), sub + 1));
  }

  lemma MidpointFromEdges(bounds: seq<real>, i: nat, lower: nat, upper: nat)
    requires 0 < i < |bounds| && 4.0 * bounds[i - 1] == lower as real && 4.0 * bounds[i] == upper as real
    ensures 8.0 * ExplicitMidpoint(bounds, i) == (lower + upper) as real
  {}

  lemma LowerBoundExact(bounds: seq<real>, s: nat, octave: nat, sub: nat)
    requires LogLinear(bounds) && sub < SUBSLOTS && 0 < s == octave * SUBSLOTS + sub <= |bounds|
    ensures 4.0 * bounds[s - 1] == QuarterEdge(Pow2(octave), sub) as real
  {
    if sub == 0 {
      var before := octave - 1;
      BoundExact(bounds, s - 1, before, 3);
      NextOctave(before);
    } else {
      BoundExact(bounds, s - 1, octave, sub - 1);
    }
  }

  /** The upper edge of an octave is the lower edge of the next. */
  lemma NextOctave(octave: nat)
    ensures QuarterEdge(Pow2(octave), 4) == QuarterEdge(Pow2(octave + 1), 0)
  {}

  function HighResEstimate(samples: seq<nat>, bounds: seq<real>, q: real): real
    requires |bounds| == LINEAR_SLOTS - 1
  {
    ExplicitEstimate(Histogram(Buckets(samples, LinearSlot), LINEAR_SLOTS), bounds, q)
  }

  ghost predicate WithinEighth(samples: seq<nat>, bounds: seq<real>, q: real, v: nat)
    requires |bounds| == LINEAR_SLOTS - 1
  {
    RealSums.Abs(HighResEstimate(samples, bounds, q) - v as real) <= (v as real) / 8.0
  }

  /** Whatever samples, quantile and rank make `v` the true sample. */
  ghost predicate AlwaysWithinEighth(bounds: seq<real>, v: nat)
    requires |bounds| == LINEAR_SLOTS - 1
  {
    forall samples, q, k :: Rank(samples, q, k) && OrderStatistic(samples, k, v) ==> WithinEighth(samples, bounds, q, v)
  }

  /** A quarter of the last octave, 2^37. */
  const LAST_QUARTER: nat := 0x20_0000_0000

  /** No duration is long enough to wrap. */
  predicate NoneWraps(samples: seq<nat>)
  {
    forall i :: 0 <= i < |samples| ==> samples[i] < FIRST_WRAP
  }

  /** The first slot of the last octave: a duration that wraps lands there or above. */
  const LAST_OCTAVE_SLOT: nat := 156

  /** Where the scan can stop when durations may wrap. */
  lemma HighResSplit(samples: seq<nat>, v: nat)
    requires v < FIRST_WRAP
    ensures LinearSlot(v) < LINEAR_SLOTS
    ensures forall i :: 0 <= i < |samples| ==> LinearSlot(samples[i]) < LINEAR_SLOTS
    ensures NoneWraps(samples) || LinearSlot(v) <= LAST_OCTAVE_SLOT
            ==> SplitAround(samples, LinearSlot, v, LinearSlot(v), LinearSlot(v))
    ensures LinearSlot(v) >= LAST_OCTAVE_SLOT ==> SplitAround(samples, LinearSlot, v, LAST_OCTAVE_SLOT, LinearSlot(v))
  {
    LinearSlotRefinesLog2(v);
    forall i | 0 <= i < |samples|
      ensures LinearSlot(samples[i]) < LINEAR_SLOTS
      ensures samples[i] <= v ==> LinearSlot(samples[i]) <= LinearSlot(v)
      ensures v <= samples[i] < FIRST_WRAP ==> LinearSlot(v) <= LinearSlot(samples[i])
      ensures FIRST_WRAP <= samples[i] ==> LAST_OCTAVE_SLOT <= LinearSlot(samples[i])
    {
      SlotAgainst(samples[i], v);
    }
  }

  lemma SlotAgainst(x: nat, v: nat)
    requires v < FIRST_WRAP
    ensures LinearSlot(x) < LINEAR_SLOTS
    ensures x <= v ==> LinearSlot(x) <= LinearSlot(v)
    ensures v <= x < FIRST_WRAP ==> LinearSlot(v) <= LinearSlot(x)
    ensures FIRST_WRAP <= x ==> LAST_OCTAVE_SLOT <= LinearSlot(x)
  {
    LinearSlotRefinesLog2(x);
    if x <= v {
      LinearSlotMonotone(x, v);
    } else if x < FIRST_WRAP {
      LinearSlotMonotone(v, x);
    } else {
      Log2SlotMonotone(FIRST_WRAP - 1, x);
      WrapLandsLow();
      LinearSlotRefinesLog2(FIRST_WRAP - 1);
    }
  }

  /** The high-resolution percentile lands in the bucket of the true sample `v`, whatever the
      samples, if `v` is below five quarters of 2^39; for a longer `v` if no sample wraps. */
  lemma HighResSameBucket(samples: seq<nat>, bounds: seq<real>, q: real, k: nat, v: nat)
    requires Rank(samples, q, k) && OrderStatistic(samples, k, v) && LogLinear(bounds) && v < FIRST_WRAP
    requires v < 5 * LAST_QUARTER || NoneWraps(samples)
    ensures LinearSlot(v) < LINEAR_SLOTS
              && HighResEstimate(samples, bounds, q) == ExplicitMidpoint(bounds, LinearSlot(v))
  {
    HighResSplit(samples, v);
    if v < 5 * LAST_QUARTER {
      QuarterSlots(v);
    }
    ScanFindsTheSampleBucket(samples, LinearSlot, LINEAR_SLOTS, q, k, v);
  }

  /** Which slot of the last octave a duration is in. */
  lemma QuarterSlots(v: nat)
    requires v < 8 * LAST_QUARTER
    ensures v < Pow2(40) && Pow2(39) == 4 * LAST_QUARTER
    ensures v < 5 * LAST_QUARTER <==> LinearSlot(v) <= LAST_OCTAVE_SLOT
    ensures v >= 6 * LAST_QUARTER ==> LinearSlot(v) > LAST_OCTAVE_SLOT + 1
    ensures v < 6 * LAST_QUARTER ==> LinearSlot(v) <= LAST_OCTAVE_SLOT + 1
  {
    Pow2Values();
    if v >= Pow2(39) {
      FloorLog2Unique(v, 39);
      LinearSlotBrackets(v);
      QuarterOf(v, SubOf(v), LAST_QUARTER);
    } else if v > 0 {
      FloorLog2Below(v, 39);
    }
  }

  lemma QuarterOf(v: nat, sub: nat, u: nat)
    requires sub < 4 && QuarterEdge(4 * u, sub) <= 4 * v < QuarterEdge(4 * u, sub + 1)
    ensures v < 5 * u <==> sub == 0
    ensures v < 6 * u <==> sub <= 1
  {
    if sub == 0 {
    } else if sub == 1 {
    } else if sub == 2 {
    } else {
    }
  }

  /** The high-resolution percentile is off by at most an eighth of the true sample, a quarter
      of the log2 bound, outside the first and the overflow bucket: whatever the samples up to
      36/7 of 2^37, and beyond that if no sample wraps. */
  lemma HighResPercentileError(samples: seq<nat>, bounds: seq<real>, q: real, k: nat, v: nat)
    requires 2 <= v < 7 * LAST_QUARTER
    requires Rank(samples, q, k) && OrderStatistic(samples, k, v) && LogLinear(bounds)
    requires 7 * v <= 36 * LAST_QUARTER || NoneWraps(samples)
    ensures WithinEighth(samples, bounds, q, v)
  {
    if v < 5 * LAST_QUARTER || NoneWraps(samples) {
      HighResSameBucket(samples, bounds, q, k, v);
      LinearMidpointError(v, bounds);
    } else {
      HighResLateSample(samples, bounds, q, k, v);
    }
  }

  /** In the second quarter of the last octave the scan may stop one slot early. */
  lemma HighResLateSample(samples: seq<nat>, bounds: seq<real>, q: real, k: nat, v: nat)
    requires 5 * LAST_QUARTER <= v && 7 * v <= 36 * LAST_QUARTER
    requires Rank(samples, q, k) && OrderStatistic(samples, k, v) && LogLinear(bounds)
    ensures WithinEighth(samples, bounds, q, v)
  {
    QuarterSlots(v);
    HighResStops(samples, q, k, v);
    EstimateAtStop(samples, bounds, q);
    LastOctaveMidpoint(bounds);
    JustBelow(v, LAST_QUARTER);
    LinearMidpointError(v, bounds);
  }

  lemma HighResStops(samples: seq<nat>, q: real, k: nat, v: nat)
    requires 5 * LAST_QUARTER <= v < 8 * LAST_QUARTER && Rank(samples, q, k) && OrderStatistic(samples, k, v)
    ensures Total(Histogram(Buckets(samples, LinearSlot), LINEAR_SLOTS)) > 0
    ensures var stop := ScanStop(Histogram(Buckets(samples, LinearSlot), LINEAR_SLOTS), q);
            LAST_OCTAVE_SLOT <= stop <= LinearSlot(v) < LINEAR_SLOTS
  {
    QuarterSlots(v);
    HighResSplit(samples, v);
    ScanStopsBetween(samples, LinearSlot, LINEAR_SLOTS, q, k, v, LAST_OCTAVE_SLOT, LinearSlot(v));
  }

  lemma EstimateAtStop(samples: seq<nat>, bounds: seq<real>, q: real)
    requires LogLinear(bounds) && Total(Histogram(Buckets(samples, LinearSlot), LINEAR_SLOTS)) > 0
    requires ScanStop(Histogram(Buckets(samples, LinearSlot), LINEAR_SLOTS), q) < LINEAR_SLOTS
    ensures HighResEstimate(samples, bounds, q)
         == ExplicitMidpoint(bounds, ScanStop(Histogram(Buckets(samples, LinearSlot), LINEAR_SLOTS), q))
  {
  }

  lemma LastOctaveMidpoint(bounds: seq<real>)
    requires LogLinear(bounds)
    ensures 2.0 * ExplicitMidpoint(bounds, LAST_OCTAVE_SLOT) == 9.0 * (LAST_QUARTER as real)
  {
    InnerMidpoint(bounds, 39, 0);
    Pow2Values();
  }

  lemma JustBelow(v: nat, u: nat)
    requires 5 * u <= v
    ensures 7 * v <= 36 * u <==> RealSums.Abs(4.5 * (u as real) - v as real) <= (v as real) / 8.0
  {
  }

  /** Exactly up to 36/7 of 2^37 does the bound hold whatever the samples: above it, one duration
      that wraps, beside `v`, pulls the median down by more than an eighth. */
  lemma HighResBoundExactly(bounds: seq<real>, v: nat)
    requires 2 <= v < 7 * LAST_QUARTER && LogLinear(bounds)
    ensures AlwaysWithinEighth(bounds, v) <==> 7 * v <= 36 * LAST_QUARTER
  {
    if 7 * v <= 36 * LAST_QUARTER {
      forall samples: seq<nat>, q: real, k: nat | Rank(samples, q, k) && OrderStatistic(samples, k, v)
        ensures WithinEighth(samples, bounds, q, v)
      {
        HighResPercentileError(samples, bounds, q, k, v);
      }
    } else {
      WrapPullsDown(bounds, v);
      LastOctaveMidpoint(bounds);
      JustBelow(v, LAST_QUARTER);
      assert !WithinEighth([v, FIRST_WRAP], bounds, 0.5, v);
    }
  }

  lemma WrapPullsDown(bounds: seq<real>, v: nat)
    requires 5 * LAST_QUARTER <= v < 8 * LAST_QUARTER && LogLinear(bounds)
    ensures Rank([v, FIRST_WRAP], 0.5, 1) && OrderStatistic([v, FIRST_WRAP], 1, v)
    ensures HighResEstimate([v, FIRST_WRAP], bounds, 0.5) == ExplicitMidpoint(bounds, LAST_OCTAVE_SLOT)
  {
    var samples := [v, FIRST_WRAP];
    QuarterSlots(v);
    WrapLandsLow();
    FirstOfPair(v, FIRST_WRAP);
    HighResStops(samples, 0.5, 1, v);
    assert Buckets(samples, LinearSlot) == [LinearSlot(v), LAST_OCTAVE_SLOT];
    StopsEarly(LinearSlot(v));
    EstimateAtStop(samples, bounds, 0.5);
  }

  lemma FirstOfPair(v: nat, w: nat)
    requires v < w
    ensures Rank([v, w], 0.5, 1) && OrderStatistic([v, w], 1, v)
  {
    PairCounts(v, w, v);
    PairCounts(v, w, v + 1);
  }

  lemma StopsEarly(slot: nat)
    requires slot < LINEAR_SLOTS
    ensures ScanStop(Histogram([slot, LAST_OCTAVE_SLOT], LINEAR_SLOTS), 0.5) <= LAST_OCTAVE_SLOT
  {
    var bs := [slot, LAST_OCTAVE_SLOT];
    HistogramTotal(bs, LINEAR_SLOTS);
    PrefixTotals(bs, LINEAR_SLOTS, LAST_OCTAVE_SLOT + 1);
    PairCounts(slot, LAST_OCTAVE_SLOT, LAST_OCTAVE_SLOT + 1);
    ReachedBy(Histogram(bs, LINEAR_SLOTS), Target(0.5, 2), 0, LAST_OCTAVE_SLOT);
  }

  lemma PairCounts(x: nat, y: nat, bound: nat)
    ensures CountBelow([x, y], bound) == (if x < bound then 1 else 0) + (if y < bound then 1 else 0)
  {
    var one := [x, y][..1];
    assert one[..0] == [];
    assert CountBelow(one, bound) == if x < bound then 1 else 0;
  }

  lemma LinearMidpointError(v: nat, bounds: seq<real>)
    requires 2 <= v < 7 * LAST_QUARTER
    requires LogLinear(bounds)
    ensures LinearSlot(v) < LINEAR_SLOTS
    ensures RealSums.Abs(ExplicitMidpoint(bounds, LinearSlot(v)) - v as real) <= (v as real) / 8.0
  {
    InnerSlot(v);
    LinearSlotBrackets(v);
    SlotMidpointError(bounds, Log2Slot(v), SubOf(v), v);
  }

  lemma SlotMidpointError(bounds: seq<real>, octave: nat, sub: nat, v: nat)
    requires LogLinear(bounds) && sub < SUBSLOTS && 0 < octave * SUBSLOTS + sub < LINEAR_SLOTS - 1
    requires QuarterEdge(Pow2(octave), sub) <= 4 * v < QuarterEdge(Pow2(octave), sub + 1)
    ensures RealSums.Abs(ExplicitMidpoint(bounds, octave * SUBSLOTS + sub) - v as real) <= (v as real) / 8.0
  {
    InnerMidpoint(bounds, octave, sub);
    QuarterEdgeGap(Pow2(octave), sub);
    EighthOff(ExplicitMidpoint(bounds, octave * SUBSLOTS + sub), QuarterEdge(Pow2(octave), sub), Pow2(octave), v);
  }

  lemma EighthOff(mid: real, edge: nat, p: nat, v: nat)
    requires 8.0 * mid == (edge + (edge + p)) as real && 4 * p <= edge <= 4 * v < edge + p
    ensures RealSums.Abs(mid - v as real) <= (v as real) / 8.0
  {
  }

  /** Neighbouring edges are a quarter octave apart, at most a quarter of the lower edge. */
  lemma QuarterEdgeGap(p: nat, sub: nat)
    ensures QuarterEdge(p, sub + 1) == QuarterEdge(p, sub) + p
    ensures 4 * p <= QuarterEdge(p, sub)
  {
    assert p * (sub + 1) == p * sub + p;
  }

  /** Durations from 2 up to 7 * 2^37 miss the first and the overflow slot. */
  lemma InnerSlot(v: nat)
    requires 2 <= v < 7 * LAST_QUARTER
    ensures 0 < LinearSlot(v) < LINEAR_SLOTS - 1 && v < Pow2(40)
  {
    QuarterSlots(v);
    FloorLog2Below(v, 1);
    LinearSlotBrackets(v);
  }

  // ---- mean -----------------------------------------------------------------------

  /** Every bucket's count times its midpoint, added up. */
  function WeightedSum(h: seq<nat>): real
  {
    if h == [] then 0.0
    else WeightedSum(h[..|h| - 1]) + (h[|h| - 1] as real) * Midpoint(|h| - 1)
  }

  function MeanEstimate(h: seq<nat>): real
  {
    if Total(h) == 0 then 0.0 else WeightedSum(h) / (Total(h) as real)
  }

  method Log2Mean(buckets: seq<nat>) returns (estimate: real)
    requires Total(buckets) == 0 || |buckets| <= 64
    ensures estimate == MeanEstimate(buckets)
  {
    var total := Tally(buckets);
    if total == 0 {
      return 0.0;
    }
    var acc := 0.0;
    for i := 0 to |buckets|
      invariant acc == WeightedSum(buckets[..i])
    {
      assert buckets[..i + 1][..i] == buckets[..i];
      acc := acc + (buckets[i] as real) * (1.5 * (Pow2(i) as real));
    }
    assert buckets[..|buckets|] == buckets;
    return acc / (total as real);
  }

  function SampleSum(samples: seq<nat>): nat
  {
    if samples == [] then 0 else SampleSum(samples[..|samples| - 1]) + samples[|samples| - 1]
  }

  lemma {:induction false} WeightedSumBump(h: seq<nat>, b: nat)
    requires b < |h|
    ensures WeightedSum(h[b := h[b] + 1]) == WeightedSum(h) + Midpoint(b)
  {
    var n := |h| - 1;
    var bumped := h[b := h[b] + 1];
    if b == n {
      assert bumped[..n] == h[..n];
    } else {
      assert bumped[..n] == h[..n][b := h[..n][b] + 1];
      WeightedSumBump(h[..n], b);
    }
  }

  lemma {:induction false} WeightedSumZero(h: seq<nat>)
    requires forall i :: 0 <= i < |h| ==> h[i] == 0
    ensures WeightedSum(h) == 0.0
  {
    if h != [] {
      WeightedSumZero(h[..|h| - 1]);
    }
  }

  lemma OneMoreSample(rest: seq<nat>, x: nat)
    ensures WeightedSum(Histogram(Buckets(rest + [x], Log2Slot), MAX_OCTAVES))
         == WeightedSum(Histogram(Buckets(rest, Log2Slot), MAX_OCTAVES)) + Midpoint(Log2Slot(x))
  {
    assert Buckets(rest + [x], Log2Slot) == Buckets(rest, Log2Slot) + [Log2Slot(x)];
    HistogramAppend(Buckets(rest, Log2Slot), Log2Slot(x), MAX_OCTAVES);
    WeightedSumBump(Histogram(Buckets(rest, Log2Slot), MAX_OCTAVES), Log2Slot(x));
  }

  lemma MidpointBrackets(x: nat)
    requires 1 <= x < Pow2(40)
    ensures 0.75 * (x as real) < Midpoint(Log2Slot(x)) <= 1.5 * (x as real)
  {
    Log2SlotBrackets(x);
  }

  /** Counting each bucket at its midpoint is counting each sample at its bucket's midpoint,
      between three quarters and three halves of the sample. */
  lemma {:induction false} WeightedSumBrackets(samples: seq<nat>)
    requires forall i :: 0 <= i < |samples| ==> 1 <= samples[i] < Pow2(40)
    ensures var w := WeightedSum(Histogram(Buckets(samples, Log2Slot), MAX_OCTAVES));
            var s := SampleSum(samples) as real;
            if samples == [] then w == 0.0 == s else 0.75 * s < w <= 1.5 * s
  {
    if samples == [] {
      WeightedSumZero(Histogram(Buckets(samples, Log2Slot), MAX_OCTAVES));
    } else {
      var n := |samples| - 1;
      WeightedSumBrackets(samples[..n]);
      assert samples == samples[..n] + [samples[n]];
      OneMoreSample(samples[..n], samples[n]);
      MidpointBrackets(samples[n]);
    }
  }

  /** The estimated mean of positive samples below 2^40 is above three quarters of the
      true mean and at most three halves of it. */
  lemma MeanEstimateBrackets(samples: seq<nat>)
    requires |samples| > 0 && forall i :: 0 <= i < |samples| ==> 1 <= samples[i] < Pow2(40)
    ensures var m := (SampleSum(samples) as real) / (|samples| as real);
            0.75 * m < MeanEstimate(Histogram(Buckets(samples, Log2Slot), MAX_OCTAVES)) <= 1.5 * m
  {
    var bs := Buckets(samples, Log2Slot);
    HistogramTotal(bs, MAX_OCTAVES);
    WeightedSumBrackets(samples);
    var n, s := |samples| as real, SampleSum(samples) as real;
    var w := WeightedSum(Histogram(bs, MAX_OCTAVES));
    QuotientBrackets(w, s, n);
  }

  lemma QuotientBrackets(w: real, s: real, n: real)
    requires n > 0.0 && 0.75 * s < w <= 1.5 * s
    ensures 0.75 * (s / n) < w / n <= 1.5 * (s / n)
  {
    DivideBoth(0.75 * s, w, n);
    DivideBoth(w, 1.5 * s, n);
    ScaleQuotient(0.75, s, n);
    ScaleQuotient(1.5, s, n);
  }

  lemma DivideBoth(x: real, y: real, n: real)
    requires n > 0.0
    ensures x < y ==> x / n < y / n
    ensures x <= y ==> x / n <= y / n
  {}

  lemma ScaleQuotient(c: real, s: real, n: real)
    requires n > 0.0
    ensures (c * s) / n == c * (s / n)
  {}
}
