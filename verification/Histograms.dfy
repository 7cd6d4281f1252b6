/** Counting samples into buckets, and what survives of the samples afterwards. */
module Histograms {
  import opened Slots

  /** How many entries of `xs` equal `x`. */
  function CountOf(xs: seq<nat>, x: nat): nat
  {
    if xs == [] then 0
    else CountOf(xs[..|xs| - 1], x) + if xs[|xs| - 1] == x then 1 else 0
  }

  /** How many entries of `xs` are below `bound`. */
  function CountBelow(xs: seq<nat>, bound: nat): nat
  {
    if xs == [] then 0
    else CountBelow(xs[..|xs| - 1], bound) + if xs[|xs| - 1] < bound then 1 else 0
  }

  /** The bucket of every sample, in order. */
  function Buckets(samples: seq<nat>, slot: nat -> nat): (bs: seq<nat>)
    ensures |bs| == |samples|
    ensures forall i :: 0 <= i < |bs| ==> bs[i] == slot(samples[i])
  {
    seq(|samples|, i requires 0 <= i < |samples| => slot(samples[i]))
  }

  /** The counts of buckets 0..n for a stream of bucket indices. */
  function Histogram(bs: seq<nat>, n: nat): (h: seq<nat>)
    ensures |h| == n
    ensures forall i :: 0 <= i < n ==> h[i] == CountOf(bs, i)
  {
    seq(n, i requires 0 <= i < n => CountOf(bs, i))
  }

  function Total(h: seq<nat>): nat
  {
    if h == [] then 0 else Total(h[..|h| - 1]) + h[|h| - 1]
  }

  lemma {:induction false} CountBelowSplits(xs: seq<nat>, bound: nat)
    ensures CountBelow(xs, bound + 1) == CountBelow(xs, bound) + CountOf(xs, bound)
  {
    if xs != [] {
      CountBelowSplits(xs[..|xs| - 1], bound);
    }
  }

  lemma {:induction false} CountBelowZero(xs: seq<nat>)
    ensures CountBelow(xs, 0) == 0
  {
    if xs != [] {
      CountBelowZero(xs[..|xs| - 1]);
    }
  }

  lemma {:induction false} CountBelowAll(xs: seq<nat>, bound: nat)
    requires forall i :: 0 <= i < |xs| ==> xs[i] < bound
    ensures CountBelow(xs, bound) == |xs|
  {
    if xs != [] {
      CountBelowAll(xs[..|xs| - 1], bound);
    }
  }

  /** Prefix sums of a histogram count the samples in the prefix of buckets. */
  lemma {:induction false} PrefixTotals(bs: seq<nat>, n: nat, i: nat)
    requires i <= n
    ensures Total(Histogram(bs, n)[..i]) == CountBelow(bs, i)
  {
    var h := Histogram(bs, n);
    if i == 0 {
      CountBelowZero(bs);
    } else {
      PrefixTotals(bs, n, i - 1);
      CountBelowSplits(bs, i - 1);
      assert h[..i][..i - 1] == h[..i - 1];
    }
  }

  /** No sample is lost: the buckets add up to the number of samples. */
  lemma HistogramTotal(bs: seq<nat>, n: nat)
    requires forall i :: 0 <= i < |bs| ==> bs[i] < n
    ensures Total(Histogram(bs, n)) == |bs|
  {
    PrefixTotals(bs, n, n);
    CountBelowAll(bs, n);
    assert Histogram(bs, n)[..n] == Histogram(bs, n);
  }

  lemma HistogramAppend(bs: seq<nat>, b: nat, n: nat)
    requires b < n
    ensures Histogram(bs + [b], n) == Histogram(bs, n)[b := CountOf(bs, b) + 1]
  {
    assert (bs + [b])[..|bs|] == bs;
  }

  lemma {:induction false} CountBelowImplies(xs: seq<nat>, b: nat, ys: seq<nat>, c: nat)
    requires |xs| == |ys|
    requires forall i :: 0 <= i < |xs| && xs[i] < b ==> ys[i] < c
    ensures CountBelow(xs, b) <= CountBelow(ys, c)
  {
    if xs != [] {
      CountBelowImplies(xs[..|xs| - 1], b, ys[..|ys| - 1], c);
    }
  }

  lemma {:induction false} TotalBump(h: seq<nat>, b: nat)
    requires b < |h|
    ensures Total(h[b := h[b] + 1]) == Total(h) + 1
  {
    var n := |h| - 1;
    var bumped := h[b := h[b] + 1];
    if b == n {
      assert bumped[..n] == h[..n];
    } else {
      assert bumped[..n] == h[..n][b := h[..n][b] + 1];
      TotalBump(h[..n], b);
    }
  }

  /** The total of a histogram's buckets, counted one by one. */
  method Tally(slots: seq<nat>) returns (count: nat)
    ensures count == Total(slots)
  {
    count := 0;
    for i := 0 to |slots|
      invariant count == Total(slots[..i])
    {
      assert slots[..i + 1][..i] == slots[..i];
      count := count + slots[i];
    }
    assert slots[..|slots|] == slots;
  }

  lemma {:induction false} TotalZero(h: seq<nat>)
    requires forall i :: 0 <= i < |h| ==> h[i] == 0
    ensures Total(h) == 0
  {
    if h != [] {
      TotalZero(h[..|h| - 1]);
    }
  }

  // ---- collapse ---------------------------------------------------------------

  /** The sum of each octave's sub-buckets. */
  function Collapsed(slots: seq<nat>): (octaves: seq<nat>)
    requires |slots| == LINEAR_SLOTS
    ensures |octaves| == MAX_OCTAVES
  {
    seq(MAX_OCTAVES, o requires 0 <= o < MAX_OCTAVES => OctaveSoFar(slots, o, LINEAR_SLOTS))
  }

  /** What octave `o` has received once slots 0..i have been added. */
  function OctaveSoFar(slots: seq<nat>, o: nat, i: nat): nat
    requires i <= |slots|
  {
    var lo, hi := o * SUBSLOTS, (o + 1) * SUBSLOTS;
    if i <= lo then 0 else Total(slots[lo..if i < hi then i else hi])
  }

  /** `collapse_to_log2`: one pass over the slots, adding each into its octave. */
  method CollapseToLog2(slots: seq<nat>) returns (octaves: array<nat>)
    requires |slots| == LINEAR_SLOTS
    ensures fresh(octaves) && octaves[..] == Collapsed(slots)
  {
    octaves := new nat[MAX_OCTAVES](_ => 0);
    for i := 0 to LINEAR_SLOTS
      invariant forall o :: 0 <= o < MAX_OCTAVES ==> octaves[o] == OctaveSoFar(slots, o, i)
    {
      forall o | 0 <= o < MAX_OCTAVES {
        OctaveStep(slots, o, i);
      }
      octaves[i / SUBSLOTS] := octaves[i / SUBSLOTS] + slots[i];
    }
  }

  lemma OctaveStep(slots: seq<nat>, o: nat, i: nat)
    requires i < |slots|
    ensures OctaveSoFar(slots, o, i + 1) == OctaveSoFar(slots, o, i) + if i / SUBSLOTS == o then slots[i] else 0
  {
    var lo, hi := o * SUBSLOTS, (o + 1) * SUBSLOTS;
    if lo <= i < hi {
      assert i / SUBSLOTS == o;
      var grown := slots[lo..i + 1];
      assert grown[..|grown| - 1] == slots[lo..i];
      assert OctaveSoFar(slots, o, i + 1) == Total(grown) == Total(slots[lo..i]) + slots[i];
    } else {
      assert i / SUBSLOTS != o;
    }
  }

  /** An octave's count is the number of samples whose log-linear slot falls in it. */
  lemma {:induction false} OctaveCount(bs: seq<nat>, o: nat)
    ensures CountBelow(bs, (o + 1) * SUBSLOTS) - CountBelow(bs, o * SUBSLOTS)
            == CountOf(Buckets(bs, s => s / SUBSLOTS), o)
  {
    if bs != [] {
      var rest := bs[..|bs| - 1];
      OctaveCount(rest, o);
      assert Buckets(bs, s => s / SUBSLOTS)[..|rest|] == Buckets(rest, s => s / SUBSLOTS);
    }
  }

  lemma {:induction false} TotalSplits(h: seq<nat>, i: nat)
    requires i <= |h|
    ensures Total(h) == Total(h[..i]) + Total(h[i..])
  {
    if i < |h| {
      TotalSplits(h[..|h| - 1], i);
      assert h[..|h| - 1][..i] == h[..i];
      assert h[i..][..|h| - i - 1] == h[..|h| - 1][i..];
    } else {
      assert h[..i] == h;
    }
  }

  /** Collapsing the log-linear histogram of any stream of durations gives exactly the
      histogram a plain log2 gadget would have kept, and keeps the total. */
  lemma CollapseIsLog2(deltas: seq<nat>)
    ensures Collapsed(Histogram(Buckets(deltas, LinearSlot), LINEAR_SLOTS))
            == Histogram(Buckets(deltas, Log2Slot), MAX_OCTAVES)
    ensures Total(Collapsed(Histogram(Buckets(deltas, LinearSlot), LINEAR_SLOTS))) == |deltas|
  {
    var bs := Buckets(deltas, LinearSlot);
    var h := Histogram(bs, LINEAR_SLOTS);
    var plain := Buckets(deltas, Log2Slot);
    forall i | 0 <= i < |deltas| ensures bs[i] / SUBSLOTS == plain[i] {
      LinearSlotRefinesLog2(deltas[i]);
    }
    assert Buckets(bs, s => s / SUBSLOTS) == plain;
    forall o | 0 <= o < MAX_OCTAVES
      ensures Collapsed(h)[o] == Histogram(plain, MAX_OCTAVES)[o]
    {
      var lo, hi := o * SUBSLOTS, (o + 1) * SUBSLOTS;
      PrefixTotals(bs, LINEAR_SLOTS, lo);
      PrefixTotals(bs, LINEAR_SLOTS, hi);
      TotalSplits(h[..hi], lo);
      assert h[..hi][..lo] == h[..lo] && h[..hi][lo..] == h[lo..hi];
      OctaveCount(bs, o);
    }
    HistogramTotal(plain, MAX_OCTAVES);
  }
}
