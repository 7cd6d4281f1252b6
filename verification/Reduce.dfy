/** Reducing a run to the flat list of scalar metrics the gate compares. */
module Reduce {
  import opened Histograms
  import opened MetricIds
  import opened Options
  import P = Percentiles
  import Powers
  import RealSums
  import S = Strings
  import Slots
  import W = WorkloadReports

  // ---- what a run holds ---------------------------------------------------------------------

  /** The `data` object of a series: absent numbers are `None`. */
  datatype RawData = Data(layout: Option<string>, buckets: seq<nat>, bounds: seq<real>,
                          sum: Option<real>, count: Option<real>, value: Option<real>)

  /** A histogram that counts anything has no more buckets than its layout describes; on any
      other the reduction would index past the bounds or shift past the word. */
  predicate Describable(d: RawData)
  {
    Total(d.buckets) == 0 || |d.buckets| <= if IsExplicit(d) then |d.bounds| + 1 else 64
  }

  predicate IsExplicit(d: RawData)
  {
    d.layout == Some("explicit")
  }

  type SeriesData = d: RawData | Describable(d) witness Data(None, [], [], None, None, None)

  datatype Series = Series(name: string, unit: string, kind: string, source: string, key: Option<string>,
                           labels: seq<(string, Scalar)>, overflow: bool, data: Option<SeriesData>)

  /** A probe's account of its own cost. */
  datatype ProbeCost = ProbeCost(probeId: Option<string>, overBudget: bool, steadyFraction: real)

  datatype Span = Span(name: string, start: Option<real>, end: Option<real>)

  datatype Run = Run(grade: Option<string>, fingerprint: Option<Fingerprint>, cell: string,
                     series: seq<Series>, probes: seq<ProbeCost>, overflow: bool, window: Option<real>,
                     workload: Option<W.Report>, spans: seq<Span>)

  datatype Fingerprint = Fingerprint(coreKnown: bool, tenancy: Option<string>)

  // ---- polarity -------------------------------------------------------------------------------

  datatype Polarity = LowerBetter | HigherBetter | Unknown

  /** ASCII capitals become the same letter in lower case; everything else stays. */
  function Lower(s: string): (l: string)
    ensures |l| == |s|
    ensures forall i :: 0 <= i < |s| ==>
              if 'A' <= s[i] <= 'Z' then l[i] as int - 'a' as int == s[i] as int - 'A' as int else l[i] == s[i]
  {
    seq(|s|, i requires 0 <= i < |s| => if 'A' <= s[i] <= 'Z' then ((s[i] as int) + 32) as char else s[i])
  }

  predicate ThroughputLike(l: string)
  {
    S.Contains(l, "bytes") || S.Contains(l, "packets") || S.Contains(l, "throughput") || S.Contains(l, "iops")
  }

  predicate MemoryConsumed(l: string)
  {
    S.Contains(l, "mem_consumed") || S.Contains(l, "memory_consumed") || S.Contains(l, "rss")
  }

  predicate CpuConsumed(l: string)
  {
    S.Contains(l, "on_cpu") || S.Contains(l, "utilis") || S.Contains(l, "cpu_ns")
  }

  function PolarityOf(id: string, unit: string): Polarity
  {
    var l := Lower(id);
    if ThroughputLike(l) || unit == "By" then HigherBetter
    else if MemoryConsumed(l) then LowerBetter
    else if CpuConsumed(l) then Unknown
    else if unit in ["ns", "us", "ms", "s"] then LowerBetter
    else Unknown
  }

  /** A memory-consumption metric is read as lower-better exactly when nothing about it looks
      like throughput: the throughput rule comes first, whatever its comment says. */
  lemma MemoryIsLowerBetterExactly(id: string, unit: string)
    requires MemoryConsumed(Lower(id))
    ensures PolarityOf(id, unit) == LowerBetter <==> !ThroughputLike(Lower(id)) && unit != "By"
  {
  }

  /** Which way is better, exactly: more for throughput, less for memory and for times other than
      those of a CPU; nothing else has a direction. */
  lemma PolarityExactly(id: string, unit: string)
    ensures PolarityOf(id, unit) == HigherBetter <==> ThroughputLike(Lower(id)) || unit == "By"
    ensures PolarityOf(id, unit) == LowerBetter <==>
            && !ThroughputLike(Lower(id)) && unit != "By"
            && (MemoryConsumed(Lower(id)) || (unit in ["ns", "us", "ms", "s"] && !CpuConsumed(Lower(id))))
  {
  }

  /** So memory counted in bytes is taken for a throughput, by name or by unit. */
  lemma MemoryInBytesMisread(id: string)
    ensures PolarityOf("mem_consumed_bytes", "") == HigherBetter
    ensures PolarityOf(id, "By") == HigherBetter
  {
    var l := Lower("mem_consumed_bytes");
    assert l == "mem_consumed_bytes";
    SuffixContained("mem_consumed_", "bytes");
    assert "mem_consumed_" + "bytes" == l;
  }

  lemma {:induction false} SuffixContained(front: string, t: string)
    ensures S.Contains(front + t, t)
  {
    if front == [] {
      assert front + t == t;
    } else {
      SuffixContained(front[1..], t);
      assert (front + t)[1..] == front[1..] + t;
    }
  }

  // ---- contamination ---------------------------------------------------------------------------

  /** `overbudget_sources`: the identified probes that overran their budget. */
  function OverbudgetSources(probes: seq<ProbeCost>): (sources: set<string>)
    ensures forall id :: id in sources
              <==> exists i :: 0 <= i < |probes| && probes[i].overBudget && probes[i].probeId == Some(id)
  {
    if probes == [] then {}
    else
      var last := probes[|probes| - 1];
      OverbudgetSources(probes[..|probes| - 1])
      + if last.overBudget && last.probeId.Some? then {last.probeId.value} else {}
  }

  method CollectOverbudget(probes: seq<ProbeCost>) returns (sources: set<string>)
    ensures sources == OverbudgetSources(probes)
  {
    sources := {};
    for i := 0 to |probes|
      invariant sources == OverbudgetSources(probes[..i])
    {
      assert probes[..i + 1][..i] == probes[..i];
      if probes[i].overBudget && probes[i].probeId.Some? {
        sources := sources + {probes[i].probeId.value};
      }
    }
    assert probes[..|probes|] == probes;
  }

  /** A series whose source overran its budget, or that overflowed, alone or with its run. */
  predicate Dirty(run: Run, s: Series)
  {
    s.source in OverbudgetSources(run.probes) || s.overflow || run.overflow
  }

  // ---- the reduction -----------------------------------------------------------------------------

  datatype Metric = Metric(id: string, value: real, contaminated: bool, polarity: Polarity)

  /** The explicit buckets' midpoints, weighted by their counts. */
  function ExplicitWeighted(buckets: seq<nat>, bounds: seq<real>): real
    requires |buckets| <= |bounds| + 1
  {
    if buckets == [] then 0.0
    else
      var n := |buckets| - 1;
      ExplicitWeighted(buckets[..n], bounds) + (buckets[n] as real) * P.ExplicitMidpoint(bounds, n)
  }

  function HistogramMean(d: SeriesData): real
  {
    if IsExplicit(d) then
      if Total(d.buckets) == 0 then 0.0 else ExplicitWeighted(d.buckets, d.bounds) / (Total(d.buckets) as real)
    else if d.sum.Some? && d.count.Some? && d.count.value > 0.0 then d.sum.value / d.count.value
    else P.MeanEstimate(d.buckets)
  }

  function Quantile(d: SeriesData, q: real): real
  {
    if IsExplicit(d) then P.ExplicitEstimate(d.buckets, d.bounds, q) else P.Log2Estimate(d.buckets, q)
  }

  function Labelled(s: Series, r: Reduction, value: real, dirty: bool): Metric
  {
    var id := MetricId(Subject(s.name, s.key, s.labels, r));
    Metric(id, value, dirty, PolarityOf(id, s.unit))
  }

  function ScalarValue(d: SeriesData): real
  {
    if d.value.Some? then d.value.value else 0.0
  }

  /** The reductions of one series; unknown kinds and series without data have none. */
  function SeriesValues(s: Series, window: Option<real>): seq<(Reduction, real)>
  {
    if s.data.None? then []
    else
      var d := s.data.value;
      if s.kind == "histogram" then [(Mean, HistogramMean(d)), (P50, Quantile(d, 0.50)), (P99, Quantile(d, 0.99))]
      else if s.kind == "counter" then
        if window.Some? && window.value > 0.0 then
          [(Value, ScalarValue(d)), (Rate, ScalarValue(d) / window.value * 1000000000.0)]
        else [(Value, ScalarValue(d))]
      else if s.kind == "gauge" then [(Value, ScalarValue(d))]
      else []
  }

  function LabelAll(s: Series, values: seq<(Reduction, real)>, dirty: bool): (out: seq<Metric>)
    ensures |out| == |values|
    ensures forall i :: 0 <= i < |out| ==> out[i] == Labelled(s, values[i].0, values[i].1, dirty)
  {
    seq(|values|, i requires 0 <= i < |values| => Labelled(s, values[i].0, values[i].1, dirty))
  }

  function SeriesMetrics(s: Series, dirty: bool, window: Option<real>): seq<Metric>
  {
    LabelAll(s, SeriesValues(s, window), dirty)
  }

  /** How the series of a run are reduced. */
  function SeriesReport(run: Run): Series -> seq<Metric>
  {
    (s: Series) => SeriesMetrics(s, Dirty(run, s), run.window)
  }

  function Flat(series: seq<Series>, report: Series -> seq<Metric>): seq<Metric>
  {
    if series == [] then [] else Flat(series[..|series| - 1], report) + report(series[|series| - 1])
  }

  function AllSeriesMetrics(run: Run): seq<Metric>
  {
    Flat(run.series, SeriesReport(run))
  }

  predicate EndsWith(s: string, t: string)
  {
    |t| <= |s| && s[|s| - |t|..] == t
  }

  function WorkloadMetric(leaf: (string, real)): Metric
  {
    var id := "workload:" + leaf.0;
    var unit := if EndsWith(leaf.0, "_ns") then "ns"
                else if EndsWith(leaf.0, "_us") then "us"
                else if EndsWith(leaf.0, "_ms") then "ms"
                else "";
    Metric(id, leaf.1, false, PolarityOf(id, unit))
  }

  function SpanMetric(sp: Span): seq<Metric>
  {
    if sp.start.Some? && sp.end.Some? then
      [Metric("span:" + sp.name + "|dur", sp.end.value - sp.start.value, false, LowerBetter)]
    else []
  }

  function WorkloadMetrics(leaves: seq<(string, real)>): (out: seq<Metric>)
    ensures forall i :: 0 <= i < |out| ==> !out[i].contaminated
  {
    if leaves == [] then [] else WorkloadMetrics(leaves[..|leaves| - 1]) + [WorkloadMetric(leaves[|leaves| - 1])]
  }

  function SpanMetrics(spans: seq<Span>): (out: seq<Metric>)
    ensures forall i :: 0 <= i < |out| ==> !out[i].contaminated
  {
    if spans == [] then [] else SpanMetrics(spans[..|spans| - 1]) + SpanMetric(spans[|spans| - 1])
  }

  /** The numeric leaves of the workload report. */
  function Leaves(run: Run): seq<(string, real)>
  {
    if run.workload.Some? then W.Flatten("", run.workload.value) else []
  }

  function Metrics(run: Run): seq<Metric>
  {
    AllSeriesMetrics(run) + WorkloadMetrics(Leaves(run)) + SpanMetrics(run.spans)
  }

  method ExplicitMean(buckets: seq<nat>, bounds: seq<real>) returns (mean: real)
    requires Total(buckets) == 0 || |buckets| <= |bounds| + 1
    ensures mean == if Total(buckets) == 0 then 0.0 else ExplicitWeighted(buckets, bounds) / (Total(buckets) as real)
  {
    var total := Tally(buckets);
    if total == 0 {
      return 0.0;
    }
    var acc := 0.0;
    for i := 0 to |buckets|
      invariant acc == ExplicitWeighted(buckets[..i], bounds)
    {
      var lo := if i == 0 then 0.0 else bounds[i - 1];
      var hi := if i < |bounds| then bounds[i] else lo * 2.0;
      assert buckets[..i + 1][..i] == buckets[..i];
      Halved(buckets[i] as real, lo + hi);
      acc := acc + (buckets[i] as real) * (lo + hi) / 2.0;
    }
    assert buckets[..|buckets|] == buckets;
    mean := acc / (total as real);
  }

  lemma Halved(b: real, x: real)
    ensures b * x / 2.0 == b * (x / 2.0)
  {
  }

  method ReduceHistogram(d: SeriesData) returns (mean: real, p50: real, p99: real)
    ensures mean == HistogramMean(d) && p50 == Quantile(d, 0.50) && p99 == Quantile(d, 0.99)
  {
    if IsExplicit(d) {
      mean := ExplicitMean(d.buckets, d.bounds);
      p50 := P.ExplicitPercentile(d.buckets, d.bounds, 0.50);
      p99 := P.ExplicitPercentile(d.buckets, d.bounds, 0.99);
    } else {
      if d.sum.Some? && d.count.Some? && d.count.value > 0.0 {
        mean := d.sum.value / d.count.value;
      } else {
        mean := P.Log2Mean(d.buckets);
      }
      p50 := P.Log2Percentile(d.buckets, 0.50);
      p99 := P.Log2Percentile(d.buckets, 0.99);
    }
  }

  method ReduceSeries(s: Series, window: Option<real>) returns (values: seq<(Reduction, real)>)
    ensures values == SeriesValues(s, window)
  {
    values := [];
    if s.data.None? {
      return;
    }
    var d := s.data.value;
    if s.kind == "histogram" {
      var mean, p50, p99 := ReduceHistogram(d);
      values := [(Mean, mean), (P50, p50), (P99, p99)];
    } else if s.kind == "counter" {
      var value := ScalarValue(d);
      values := [(Value, value)];
      if window.Some? && window.value > 0.0 {
        values := values + [(Rate, value / window.value * 1000000000.0)];
      }
    } else if s.kind == "gauge" {
      values := [(Value, ScalarValue(d))];
    }
  }

  method ReportSeries(run: Run, over: set<string>, s: Series) returns (out: seq<Metric>)
    requires over == OverbudgetSources(run.probes)
    ensures out == SeriesReport(run)(s)
  {
    var values := ReduceSeries(s, run.window);
    var dirty := s.source in over || s.overflow || run.overflow;
    assert dirty == Dirty(run, s);
    out := LabelAll(s, values, dirty);
  }

  method ReduceAllSeries(run: Run) returns (out: seq<Metric>)
    ensures out == AllSeriesMetrics(run)
  {
    out := [];
    var over := CollectOverbudget(run.probes);
    ghost var report := SeriesReport(run);
    for i := 0 to |run.series|
      invariant out == Flat(run.series[..i], report)
    {
      var metrics := ReportSeries(run, over, run.series[i]);
      FlatOneMore(run.series, i, report);
      out := out + metrics;
    }
    assert run.series[..|run.series|] == run.series;
  }

  lemma FlatOneMore(series: seq<Series>, i: nat, report: Series -> seq<Metric>)
    requires i < |series|
    ensures Flat(series[..i + 1], report) == Flat(series[..i], report) + report(series[i])
  {
    assert series[..i + 1][..i] == series[..i];
  }

  method ReduceWorkload(leaves: seq<(string, real)>) returns (out: seq<Metric>)
    ensures out == WorkloadMetrics(leaves)
  {
    out := [];
    for i := 0 to |leaves|
      invariant out == WorkloadMetrics(leaves[..i])
    {
      assert leaves[..i + 1][..i] == leaves[..i];
      out := out + [WorkloadMetric(leaves[i])];
    }
    assert leaves[..|leaves|] == leaves;
  }

  method ReduceSpans(spans: seq<Span>) returns (out: seq<Metric>)
    ensures out == SpanMetrics(spans)
  {
    out := [];
    for i := 0 to |spans|
      invariant out == SpanMetrics(spans[..i])
    {
      assert spans[..i + 1][..i] == spans[..i];
      out := out + SpanMetric(spans[i]);
    }
    assert spans[..|spans|] == spans;
  }

  method ReadReport(run: Run) returns (leaves: seq<(string, real)>)
    ensures leaves == Leaves(run)
  {
    leaves := [];
    if run.workload.Some? {
      leaves := W.FlattenNumbers("", run.workload.value, leaves);
      assert [] + W.Flatten("", run.workload.value) == W.Flatten("", run.workload.value);
    }
  }

  method ReduceRun(run: Run) returns (out: seq<Metric>)
    ensures out == Metrics(run)
  {
    var ofSeries := ReduceAllSeries(run);
    var leaves := ReadReport(run);
    var ofWorkload := ReduceWorkload(leaves);
    var ofSpans := ReduceSpans(run.spans);
    out := ofSeries + ofWorkload + ofSpans;
  }

  // ---- what the reductions of a series mean -----------------------------------------------------------

  lemma BarredLast(parts: seq<string>, last: string)
    ensures Barred(parts + [last]) == Barred(parts) + ("|" + last)
  {
    assert (parts + [last])[..|parts|] == parts;
    assert Barred(parts) + "|" + last == Barred(parts) + ("|" + last);
  }

  lemma EndsWithLast(a: string, b: string, c: string)
    ensures EndsWith(a + (b + c), c)
  {
  }

  lemma IdNamesReduction(subject: Subject)
    ensures EndsWith(MetricId(subject), "|" + ReductionName(subject.reduction))
  {
    hide EndsWith, Barred;
    var parts, last := KeyParts(subject.key) + LabelParts(subject.labels), ReductionName(subject.reduction);
    BarredLast(parts, last);
    EndsWithLast(subject.name, Barred(parts), "|" + last);
  }

  /** The metric's id ends in the name of its reduction. */
  ghost predicate Named(m: Metric, r: Reduction)
  {
    EndsWith(m.id, match r
                   case Mean => "|mean"
                   case P50 => "|p50"
                   case P99 => "|p99"
                   case Value => "|value"
                   case Rate => "|rate")
  }

  lemma LabelledIs(s: Series, r: Reduction, value: real, dirty: bool)
    ensures var m := Labelled(s, r, value, dirty); Named(m, r) && m.value == value
  {
    hide EndsWith, MetricId;
    IdNamesReduction(Subject(s.name, s.key, s.labels, r));
    match r {
      case Mean => assert "|" + "mean" == "|mean";
      case P50 => assert "|" + "p50" == "|p50";
      case P99 => assert "|" + "p99" == "|p99";
      case Value => assert "|" + "value" == "|value";
      case Rate => assert "|" + "rate" == "|rate";
    }
  }

  /** A number of the workload report keeps its value under its name; one of a latency, told by its
      suffix, is lower-better unless its name says otherwise. */
  lemma WorkloadReports(name: string, value: real)
    ensures var m := WorkloadMetric((name, value));
            && m.id == "workload:" + name && m.value == value
            && (!ThroughputLike(Lower(m.id)) && !CpuConsumed(Lower(m.id))
                && (EndsWith(name, "_ns") || EndsWith(name, "_us") || EndsWith(name, "_ms"))
                ==> m.polarity == LowerBetter)
  {
  }

  /** A span with both times reports what it took, lower-better. */
  lemma SpanReports(sp: Span, start: real, end: real)
    requires sp.start == Some(start) && sp.end == Some(end)
    ensures |SpanMetric(sp)| == 1
    ensures var m := SpanMetric(sp)[0];
            m.id == "span:" + sp.name + "|dur" && start + m.value == end && m.polarity == LowerBetter
  {
  }

  lemma HistogramSeries(s: Series, dirty: bool, window: Option<real>)
    requires s.kind == "histogram" && s.data.Some?
    ensures var out, d := SeriesMetrics(s, dirty, window), s.data.value;
            |out| == 3 && Named(out[0], Mean) && Named(out[1], P50) && Named(out[2], P99)
            && out[0].value == HistogramMean(d) && out[1].value == Quantile(d, 0.5) && out[2].value == Quantile(d, 0.99)
  {
    hide Labelled, Named, HistogramMean, Quantile;
    LabelledIs(s, Mean, HistogramMean(s.data.value), dirty);
    LabelledIs(s, P50, Quantile(s.data.value, 0.5), dirty);
    LabelledIs(s, P99, Quantile(s.data.value, 0.99), dirty);
  }

  /** A base-two histogram of samples reports, in this order, their mean, exact where sum and count
      are known, their median and their 99th percentile, each within a half of the true one. */
  lemma HistogramReports(s: Series, dirty: bool, window: Option<real>, samples: seq<nat>,
                         k50: nat, v50: nat, k99: nat, v99: nat)
    requires s.kind == "histogram" && s.data.Some? && !IsExplicit(s.data.value)
    requires s.data.value.buckets == Histogram(Buckets(samples, Slots.Log2Slot), Slots.MAX_OCTAVES)
    requires P.Rank(samples, 0.5, k50) && P.OrderStatistic(samples, k50, v50) && 1 <= v50 < Powers.Pow2(40)
    requires P.Rank(samples, 0.99, k99) && P.OrderStatistic(samples, k99, v99) && 1 <= v99 < Powers.Pow2(40)
    ensures var out := SeriesMetrics(s, dirty, window);
            && |out| == 3 && Named(out[0], Mean) && Named(out[1], P50) && Named(out[2], P99)
            && (s.data.value.sum.Some? && s.data.value.count.Some? && s.data.value.count.value > 0.0
                ==> out[0].value * s.data.value.count.value == s.data.value.sum.value)
            && RealSums.Abs(out[1].value - v50 as real) <= (v50 as real) / 2.0
            && RealSums.Abs(out[2].value - v99 as real) <= (v99 as real) / 2.0
  {
    hide SeriesMetrics, Named, HistogramMean, Quantile;
    HistogramSeries(s, dirty, window);
    QuantileError(s.data.value, samples, 0.5, k50, v50);
    QuantileError(s.data.value, samples, 0.99, k99, v99);
    MeanIsExact(s.data.value);
  }

  lemma QuantileError(d: SeriesData, samples: seq<nat>, q: real, k: nat, v: nat)
    requires !IsExplicit(d) && d.buckets == Histogram(Buckets(samples, Slots.Log2Slot), Slots.MAX_OCTAVES)
    requires P.Rank(samples, q, k) && P.OrderStatistic(samples, k, v) && 1 <= v < Powers.Pow2(40)
    ensures RealSums.Abs(Quantile(d, q) - v as real) <= (v as real) / 2.0
  {
    P.Log2PercentileError(samples, q, k, v);
  }

  lemma MeanIsExact(d: SeriesData)
    requires !IsExplicit(d)
    ensures d.sum.Some? && d.count.Some? && d.count.value > 0.0
            ==> HistogramMean(d) * d.count.value == d.sum.value
  {
    if d.sum.Some? && d.count.Some? && d.count.value > 0.0 {
      QuotientTimes(d.sum.value, d.count.value);
    }
  }

  lemma QuotientTimes(x: real, n: real)
    requires n > 0.0
    ensures x / n * n == x
  {}

  /** A counter reports its value and, over a known window, its rate per second. */
  lemma CounterReports(s: Series, dirty: bool, window: Option<real>, value: real)
    requires s.kind == "counter" && s.data.Some? && s.data.value.value == Some(value)
    ensures var out := SeriesMetrics(s, dirty, window);
            && |out| == (if window.Some? && window.value > 0.0 then 2 else 1)
            && Named(out[0], Value) && out[0].value == value
            && (|out| == 2 ==> Named(out[1], Rate) && out[1].value * (window.value / 1000000000.0) == value)
  {
    hide Labelled, Named;
    LabelledIs(s, Value, value, dirty);
    if window.Some? && window.value > 0.0 {
      LabelledIs(s, Rate, value / window.value * 1000000000.0, dirty);
      QuotientTimes(value, window.value);
      PerSecond(value / window.value, window.value);
    }
  }

  lemma PerSecond(x: real, w: real)
    ensures x * 1000000000.0 * (w / 1000000000.0) == x * w
  {}

  // ---- which metrics are contaminated --------------------------------------------------------------

  /** One of the series' reductions has this id. */
  ghost predicate Yields(s: Series, window: Option<real>, id: string)
  {
    exists v :: v in SeriesValues(s, window) && MetricId(Subject(s.name, s.key, s.labels, v.0)) == id
  }

  /** Some series of the run that a probe over budget or an overflow makes dirty yields `id`. */
  ghost predicate HasDirty(run: Run, id: string)
  {
    exists k :: 0 <= k < |run.series| && Dirty(run, run.series[k]) && Yields(run.series[k], run.window, id)
  }

  ghost predicate Reported(metrics: seq<Metric>, id: string)
  {
    exists j :: 0 <= j < |metrics| && metrics[j].id == id && metrics[j].contaminated
  }

  lemma LabelsReported(s: Series, values: seq<(Reduction, real)>, id: string, dirty: bool)
    ensures Reported(LabelAll(s, values, dirty), id) <==>
            dirty && exists v :: v in values && MetricId(Subject(s.name, s.key, s.labels, v.0)) == id
  {
    var out := LabelAll(s, values, dirty);
    if v :| v in values && MetricId(Subject(s.name, s.key, s.labels, v.0)) == id {
      var j :| 0 <= j < |values| && values[j] == v;
      assert out[j].id == id;
    }
    if Reported(out, id) {
      var j :| 0 <= j < |out| && out[j].id == id && out[j].contaminated;
      assert values[j] in values;
    }
  }

  lemma SeriesReported(run: Run, s: Series, id: string)
    ensures Reported(SeriesReport(run)(s), id) <==> Dirty(run, s) && Yields(s, run.window, id)
  {
    LabelsReported(s, SeriesValues(s, run.window), id, Dirty(run, s));
  }

  lemma ReportedConcat(a: seq<Metric>, b: seq<Metric>, id: string)
    ensures Reported(a + b, id) <==> Reported(a, id) || Reported(b, id)
  {
    if Reported(a, id) {
      var j :| 0 <= j < |a| && a[j].id == id && a[j].contaminated;
      assert (a + b)[j] == a[j];
    }
    if Reported(b, id) {
      var j :| 0 <= j < |b| && b[j].id == id && b[j].contaminated;
      assert (a + b)[|a| + j] == b[j];
    }
  }

  lemma {:induction false} FlatReported(series: seq<Series>, report: Series -> seq<Metric>, id: string)
    ensures Reported(Flat(series, report), id) <==> exists k :: 0 <= k < |series| && Reported(report(series[k]), id)
  {
    if series != [] {
      var n := |series| - 1;
      FlatReported(series[..n], report, id);
      ReportedConcat(Flat(series[..n], report), report(series[n]), id);
      assert forall k :: 0 <= k < n ==> series[..n][k] == series[k];
    }
  }

  lemma CleanUnreported(metrics: seq<Metric>, id: string)
    requires forall i :: 0 <= i < |metrics| ==> !metrics[i].contaminated
    ensures !Reported(metrics, id)
  {
  }

  /** A run reports a contaminated metric under an id exactly when a dirty series yields it. */
  lemma ContaminatedExactly(run: Run, id: string)
    ensures Reported(Metrics(run), id) <==> HasDirty(run, id)
  {
    var ofSeries, ofWorkload, ofSpans := AllSeriesMetrics(run), WorkloadMetrics(Leaves(run)), SpanMetrics(run.spans);
    ReportedConcat(ofSeries + ofWorkload, ofSpans, id);
    ReportedConcat(ofSeries, ofWorkload, id);
    CleanUnreported(ofWorkload, id);
    CleanUnreported(ofSpans, id);
    DirtySeriesReported(run, id);
  }

  /** A probe that reports no id changes none of a run's metrics, over budget or not. */
  lemma UnnamedProbeChangesNothing(run: Run, probe: ProbeCost)
    requires probe.probeId.None?
    ensures Metrics(run.(probes := run.probes + [probe])) == Metrics(run)
  {
    var more := run.(probes := run.probes + [probe]);
    assert more.probes[..|run.probes|] == run.probes;
    assert OverbudgetSources(more.probes) == OverbudgetSources(run.probes);
    FlatSame(run.series, SeriesReport(more), SeriesReport(run));
  }

  lemma {:induction false} FlatSame(series: seq<Series>, f: Series -> seq<Metric>, g: Series -> seq<Metric>)
    requires forall s :: s in series ==> f(s) == g(s)
    ensures Flat(series, f) == Flat(series, g)
  {
    if series != [] {
      FlatSame(series[..|series| - 1], f, g);
    }
  }

  lemma DirtySeriesReported(run: Run, id: string)
    ensures Reported(AllSeriesMetrics(run), id) <==> HasDirty(run, id)
  {
    var report := SeriesReport(run);
    FlatReported(run.series, report, id);
    forall k | 0 <= k < |run.series|
      ensures Reported(report(run.series[k]), id) <==>
              Dirty(run, run.series[k]) && Yields(run.series[k], run.window, id)
    {
      SeriesReported(run, run.series[k], id);
    }
  }
}
