/** What an exported run says to whoever reads it: the buckets' edges, the counts, the units. */
module OtlpMeaning {
  import opened Decimal
  import opened Options
  import opened Otlp
  import opened OtlpDocument
  import opened OtlpResource
  import opened OtlpRun
  import OtlpSpans
  import opened Powers
  import opened Slots

  // ---- the edges of exponential buckets ------------------------------------------------------

  function Power(x: real, k: nat): real
  {
    if k == 0 then 1.0 else x * Power(x, k - 1)
  }

  /** Two to any integer. */
  function Exp2(i: int): real
  {
    if i >= 0 then Pow2(i) as real else 1.0 / (Pow2(-i) as real)
  }

  /** `x` is the `index`-th power of the base at this scale, the 2^scale-th root of two. */
  ghost predicate IsEdge(scale: int, index: int, x: real)
  {
    x > 0.0 && if scale >= 0 then Power(x, Pow2(scale)) == Exp2(index) else x == Exp2(index * Pow2(-scale))
  }

  /** `x` is where the `i`-th positive bucket of the point begins and the one before it ends. */
  ghost predicate BucketEdge(p: Point, i: int, x: real)
  {
    && p.scale.Some? && p.positive.Some? && p.positive.value.offset.Some?
    && IsEdge(p.scale.value, p.positive.value.offset.value + i, x)
  }

  lemma PowerOfOne(x: real)
    ensures Power(x, Pow2(0)) == x
  {
    assert Power(x, 1) == x * Power(x, 0);
  }

  /** The buckets of the point are the gadget's: the `i`-th begins at 2^i. */
  ghost predicate HasOctaves(p: Point)
  {
    forall i: nat, x: real :: BucketEdge(p, i, x) <==> x == Pow2(i) as real
  }

  lemma ScaleZeroHasOctaves(p: Point)
    requires p.scale == Some(0) && p.positive.Some? && p.positive.value.offset == Some(0)
    ensures HasOctaves(p)
  {
    forall i: nat, x: real ensures BucketEdge(p, i, x) <==> x == Pow2(i) as real {
      PowerOfOne(x);
    }
  }

  // ---- numbers in text ------------------------------------------------------------------------

  /** The field spells `n` in decimal. */
  ghost predicate Spells(f: Field, n: int)
  {
    && f.Text? && f.s != []
    && if n >= 0 then AllDigits(f.s) && Decimal.Value(f.s) == n
       else f.s[0] == '-' && AllDigits(f.s[1..]) && Decimal.Value(f.s[1..]) == -n
  }

  lemma IntTextSpells(n: int)
    ensures Spells(Text(IntText(n)), n)
  {
    if n >= 0 {
      ValueOfRender(n);
    } else {
      ValueOfRender(-n);
      assert IntText(n)[1..] == Render(-n);
    }
  }

  ghost predicate SpellsAll(fs: Option<seq<Field>>, ns: seq<int>)
  {
    fs.Some? && |fs.value| == |ns| && forall i :: 0 <= i < |ns| ==> Spells(fs.value[i], ns[i])
  }

  lemma TextsSpell(ns: seq<int>)
    ensures SpellsAll(Some(IntTexts(ns)), ns)
  {
    forall i | 0 <= i < |ns| ensures Spells(IntTexts(ns)[i], ns[i]) {
      IntTextSpells(ns[i]);
    }
  }

  /** The field spells the number as far as it fits a `u64`, and zero otherwise. */
  ghost predicate SpellsU64(f: Option<Field>, v: Option<Number>)
  {
    f.Some? && Spells(f.value, if v.Some? && v.value.Int? && 0 <= v.value.n < U64 then v.value.n else 0)
  }

  lemma U64StrSpells(v: Option<Number>)
    ensures SpellsU64(Some(U64Str(v)), v)
  {
    IntTextSpells(OrZero(AsU64(v)));
  }

  // ---- what a metric shows of a series -----------------------------------------------------------

  /** The point carries the series' source and key, and nothing else. */
  ghost predicate Attributed(p: Point, s: Series)
  {
    && p.attributes.Some?
    && AttrStr(p.attributes.value, "assayist.source") == s.source
    && AttrStr(p.attributes.value, "assayist.key") == s.key
    && |p.attributes.value| == (if s.source.Some? then 1 else 0) + (if s.key.Some? then 1 else 0)
  }

  /** One cumulative point. */
  ghost predicate OneCumulative(g: Option<Signal>, monotonic: Option<bool>)
  {
    g.Some? && g.value.temporality == Some(2) && g.value.monotonic == monotonic && OnePoint(g)
  }

  ghost predicate OnePoint(g: Option<Signal>)
  {
    g.Some? && g.value.points.Some? && |g.value.points.value| == 1
  }

  /** The count, sum and time of a histogram point. */
  ghost predicate Counted(p: Point, d: Data, ts: nat)
  {
    && SpellsU64(p.count, d.count) && AsF64(p.sum) == AsF64(d.sum)
    && p.time.Some? && Spells(p.time.value, ts)
  }

  /** A base-two histogram: octaves, with the counts of the series. */
  ghost predicate ShowsLog2(m: Metric, s: Series, ts: nat)
    requires s.data.Some?
  {
    var d := s.data.value;
    && OneCumulative(m.exponential, None) && m.histogram.None? && m.sum.None? && m.gauge.None?
    && var p := m.exponential.value.points.value[0];
       && HasOctaves(p) && SpellsAll(PositiveCounts(p), I64s(Listed(d.buckets)))
       && p.zeroCount.Some? && Spells(p.zeroCount.value, 0)
       && Counted(p, d, ts) && Attributed(p, s)
  }

  /** A histogram with the series' own bounds and counts. */
  ghost predicate ShowsExplicit(m: Metric, s: Series, ts: nat)
    requires s.data.Some?
  {
    var d := s.data.value;
    && OneCumulative(m.histogram, None) && m.exponential.None? && m.sum.None? && m.gauge.None?
    && var p := m.histogram.value.points.value[0];
       && SameNumbers(p.explicitBounds, Some(Listed(d.bounds)))
       && SpellsAll(p.bucketCounts, I64s(Listed(d.buckets)))
       && Counted(p, d, ts) && Attributed(p, s)
  }

  /** A monotonic cumulative sum: the value, since the start. */
  ghost predicate ShowsCounter(m: Metric, s: Series)
    requires s.data.Some?
  {
    var d := s.data.value;
    && OneCumulative(m.sum, Some(true)) && m.exponential.None? && m.histogram.None? && m.gauge.None?
    && var p := m.sum.value.points.value[0];
       && SpellsU64(p.asInt, d.value) && SpellsU64(p.start, d.start) && SpellsU64(p.time, d.start) && Attributed(p, s)
  }

  /** A gauge: the value, zero for none, at its time. */
  ghost predicate ShowsGauge(m: Metric, s: Series)
    requires s.data.Some?
  {
    var d := s.data.value;
    && OnePoint(m.gauge) && m.exponential.None? && m.histogram.None? && m.sum.None?
    && var p := m.gauge.value.points.value[0];
       && AsF64(p.asDouble) == Some(if AsF64(d.value).Some? then AsF64(d.value).value else 0.0)
       && SpellsU64(p.time, d.time) && Attributed(p, s)
  }

  /** The metric says of the series what its kind and layout call for. */
  ghost predicate Shows(m: Metric, s: Series, ts: nat)
    requires Exportable(s)
  {
    && m.name == s.name && m.unit == Some(if s.unit.Some? then s.unit.value else "")
    && if s.kind == Some("histogram") then
         if Layout(s.data.value) == "log2" then ShowsLog2(m, s, ts) else ShowsExplicit(m, s, ts)
       else if s.kind == Some("counter") then ShowsCounter(m, s)
       else ShowsGauge(m, s)
  }

  lemma PointAttributed(p: Point, s: Series)
    requires p.attributes == Some(PointAttrs(s))
    ensures Attributed(p, s)
  {
    AttrsTrip(s);
  }

  lemma Log2Shown(s: Series, ts: nat)
    requires Exportable(s) && s.kind == Some("histogram") && Layout(s.data.value) == "log2"
    ensures SeriesToMetric(s, ts).Some? && ShowsLog2(SeriesToMetric(s, ts).value, s, ts)
  {
    var p := SeriesToMetric(s, ts).value.exponential.value.points.value[0];
    ScaleZeroHasOctaves(p);
    TextsSpell(I64s(Listed(s.data.value.buckets)));
    IntTextSpells(0);
    IntTextSpells(ts);
    U64StrSpells(s.data.value.count);
    PointAttributed(p, s);
  }

  lemma ExplicitShown(s: Series, ts: nat)
    requires Exportable(s) && s.kind == Some("histogram") && Layout(s.data.value) == "explicit"
    ensures SeriesToMetric(s, ts).Some? && ShowsExplicit(SeriesToMetric(s, ts).value, s, ts)
  {
    var p := SeriesToMetric(s, ts).value.histogram.value.points.value[0];
    TextsSpell(I64s(Listed(s.data.value.buckets)));
    IntTextSpells(ts);
    U64StrSpells(s.data.value.count);
    PointAttributed(p, s);
  }

  lemma CounterShown(s: Series, ts: nat)
    requires Exportable(s) && s.kind == Some("counter")
    ensures SeriesToMetric(s, ts).Some? && ShowsCounter(SeriesToMetric(s, ts).value, s)
  {
    var d, p := s.data.value, SeriesToMetric(s, ts).value.sum.value.points.value[0];
    U64StrSpells(d.value);
    U64StrSpells(d.start);
    PointAttributed(p, s);
  }

  lemma GaugeShown(s: Series, ts: nat)
    requires Exportable(s) && s.kind == Some("gauge")
    ensures SeriesToMetric(s, ts).Some? && ShowsGauge(SeriesToMetric(s, ts).value, s)
  {
    var p := SeriesToMetric(s, ts).value.gauge.value.points.value[0];
    U64StrSpells(s.data.value.time);
    PointAttributed(p, s);
  }

  /** Every exportable series is shown by its metric. */
  lemma SeriesShown(s: Series, ts: nat)
    requires Exportable(s)
    ensures SeriesToMetric(s, ts).Some? && Shows(SeriesToMetric(s, ts).value, s, ts)
  {
    NotExported(s, ts);
    if s.kind == Some("counter") {
      CounterShown(s, ts);
    } else if s.kind == Some("gauge") {
      GaugeShown(s, ts);
    } else if Layout(s.data.value) == "log2" {
      Log2Shown(s, ts);
    } else {
      ExplicitShown(s, ts);
    }
  }

  /** The bucket that a reader finds a duration counted in lies around it. */
  lemma DurationInItsBucket(s: Series, ts: nat, m: Metric, v: nat, lo: real, hi: real)
    requires Exportable(s) && s.kind == Some("histogram") && Layout(s.data.value) == "log2" && 1 <= v < Pow2(40)
    requires SeriesToMetric(s, ts) == Some(m) && OnePoint(m.exponential)
    requires BucketEdge(m.exponential.value.points.value[0], Log2Slot(v), lo)
    requires BucketEdge(m.exponential.value.points.value[0], Log2Slot(v) + 1, hi)
    ensures lo <= v as real < hi
  {
    Log2Shown(s, ts);
    Log2SlotBrackets(v);
    assert Pow2(Log2Slot(v) + 1) == 2 * Pow2(Log2Slot(v));
  }

  /** OTLP counts an edge to the bucket below it, the gadget to the one above: they agree on a
      duration exactly when it is no power of two. */
  lemma EdgesCountBelow(v: nat, j: nat)
    requires 1 < v < Pow2(40) && Pow2(j) < v <= Pow2(j + 1)
    ensures j == Log2Slot(v) <==> v != Pow2(j + 1)
    ensures v == Pow2(j + 1) ==> j + 1 == Log2Slot(v)
  {
    Log2SlotBrackets(v);
    var r := Log2Slot(v);
    assert Pow2(r + 1) == 2 * Pow2(r);
    if v == Pow2(j + 1) {
      FloorLog2Unique(v, j + 1);
      FloorLog2Unique(v, r);
    } else {
      FloorLog2Unique(v, j);
      FloorLog2Unique(v, r);
    }
  }

  // ---- what the two metrics of a probe show --------------------------------------------------------

  ghost predicate ProbeAttributed(p: Point, probe: Probe)
  {
    && p.attributes.Some?
    && AttrStr(p.attributes.value, "assayist.probe.id") == probe.id
    && AttrStr(p.attributes.value, "assayist.probe.attach_kind") == probe.attachKind
    && AttrBool(p.attributes.value, "assayist.probe.over_budget") == probe.overBudget
  }

  /** The share of a CPU that the probe took, as a gauge. */
  ghost predicate ShowsFraction(m: Metric, probe: Probe, ts: nat)
  {
    && m.name == Some("assayist.probe.steady_cpu_fraction") && m.unit == Some("1")
    && OnePoint(m.gauge) && m.exponential.None? && m.histogram.None? && m.sum.None?
    && var p, v := m.gauge.value.points.value[0], AsF64(probe.steadyFraction);
       && AsF64(p.asDouble) == Some(if v.Some? then v.value else 0.0)
       && p.time.Some? && Spells(p.time.value, ts) && ProbeAttributed(p, probe)
  }

  /** The time the probe ran, as a monotonic cumulative sum of nanoseconds. */
  ghost predicate ShowsRunTime(m: Metric, probe: Probe, ts: nat)
  {
    && m.name == Some("assayist.probe.run_time_ns") && m.unit == Some("ns")
    && OneCumulative(m.sum, Some(true)) && m.exponential.None? && m.histogram.None? && m.gauge.None?
    && var p := m.sum.value.points.value[0];
       && SpellsU64(p.asInt, probe.runTime)
       && p.time.Some? && Spells(p.time.value, ts) && ProbeAttributed(p, probe)
  }

  /** The value of a key in attributes joined from parts, only one of which may have it. */
  lemma {:induction false} AttrJoined(a: seq<Attr>, b: seq<Attr>, key: string)
    requires forall i :: 0 <= i < |a| ==> a[i].key != Some(key)
    ensures AttrVal(a + b, key) == AttrVal(b, key)
  {
    if a == [] {
      assert a + b == b;
    } else {
      assert (a + b)[1..] == a[1..] + b;
      AttrJoined(a[1..], b, key);
    }
  }

  lemma AttrFirst(a: Attr, rest: seq<Attr>, key: string)
    requires a.key == Some(key)
    ensures AttrVal([a] + rest, key) == a.value
  {
    AttrHead(a, rest, key);
  }

  lemma {:induction false} AttrAbsent(attrs: seq<Attr>, key: string)
    requires forall i :: 0 <= i < |attrs| ==> attrs[i].key != Some(key)
    ensures AttrVal(attrs, key) == None
  {
    if attrs != [] {
      AttrAbsent(attrs[1..], key);
    }
  }

  function Maybe(present: bool, a: Attr): (attrs: seq<Attr>)
  {
    if present then [a] else []
  }

  /** Three attributes with different keys, each there or not, are read back as they are. */
  lemma ThreeAttrs(p: bool, a: Attr, q: bool, b: Attr, r: bool, c: Attr)
    requires a.key.Some? && b.key.Some? && c.key.Some? && a.key != b.key && b.key != c.key && a.key != c.key
    ensures var attrs := Maybe(p, a) + Maybe(q, b) + Maybe(r, c);
            && AttrVal(attrs, a.key.value) == (if p then a.value else None)
            && AttrVal(attrs, b.key.value) == (if q then b.value else None)
            && AttrVal(attrs, c.key.value) == (if r then c.value else None)
  {
    var x, y, z := Maybe(p, a), Maybe(q, b), Maybe(r, c);
    assert x + y + z == x + (y + z);
    AttrJoined(x, y + z, b.key.value);
    AttrJoined(x + y, z, c.key.value);
    if p {
      AttrFirst(a, y + z, a.key.value);
    } else {
      assert x + (y + z) == y + z;
      AttrAbsent(y + z, a.key.value);
    }
    if q {
      AttrFirst(b, z, b.key.value);
    } else {
      assert y + z == z;
      AttrAbsent(z, b.key.value);
    }
    if r {
      assert z == [c] + [];
      AttrFirst(c, [], c.key.value);
    }
  }

  lemma ProbeKeysDiffer()
    ensures "assayist.probe.id" != "assayist.probe.attach_kind"
    ensures "assayist.probe.attach_kind" != "assayist.probe.over_budget"
    ensures "assayist.probe.id" != "assayist.probe.over_budget"
  {
    assert |"assayist.probe.id"| == 17 && |"assayist.probe.attach_kind"| == 26 && |"assayist.probe.over_budget"| == 26;
    assert "assayist.probe.attach_kind"[15] == 'a' && "assayist.probe.over_budget"[15] == 'o';
  }

  lemma ProbePointAttributed(p: Point, probe: Probe)
    requires p.attributes == Some(ProbeAttrs(probe))
    ensures ProbeAttributed(p, probe)
  {
    ProbeKeysDiffer();
    var id := StrAttr("assayist.probe.id", if probe.id.Some? then probe.id.value else "");
    var kind := StrAttr("assayist.probe.attach_kind", if probe.attachKind.Some? then probe.attachKind.value else "");
    var over := Attr(Some("assayist.probe.over_budget"), Some(AnyValue(None, probe.overBudget, None, None)));
    ThreeAttrs(probe.id.Some?, id, probe.attachKind.Some?, kind, probe.overBudget.Some?, over);
    assert ProbeAttrs(probe)
        == Maybe(probe.id.Some?, id) + Maybe(probe.attachKind.Some?, kind) + Maybe(probe.overBudget.Some?, over);
  }

  /** A probe becomes the two metrics of its cost. */
  lemma ProbeShown(probe: Probe, ts: nat)
    ensures var ms := ProbeMetrics(ts)(probe);
            |ms| == 2 && ShowsFraction(ms[0], probe, ts) && ShowsRunTime(ms[1], probe, ts)
  {
    var ms := ProbeMetrics(ts)(probe);
    IntTextSpells(ts);
    U64StrSpells(probe.runTime);
    ProbePointAttributed(ms[0].gauge.value.points.value[0], probe);
    ProbePointAttributed(ms[1].sum.value.points.value[0], probe);
  }

  // ---- the exported run ----------------------------------------------------------------------------

  /** The series that export accepts, in order. */
  function Accepted(series: seq<Series>): (out: seq<Series>)
    ensures forall i :: 0 <= i < |out| ==> Exportable(out[i])
  {
    if series == [] then []
    else
      var last := series[|series| - 1];
      Accepted(series[..|series| - 1]) + if Exportable(last) then [last] else []
  }

  ghost predicate AllShown(ms: seq<Metric>, series: seq<Series>, ts: nat)
  {
    |ms| == |series| && forall i :: 0 <= i < |ms| ==> Exportable(series[i]) && Shows(ms[i], series[i], ts)
  }

  ghost predicate ProbesShown(ms: seq<Metric>, probes: seq<Probe>, ts: nat)
  {
    && |ms| == 2 * |probes|
    && forall k :: 0 <= k < |probes| ==>
         ShowsFraction(ms[2 * k], probes[k], ts) && ShowsRunTime(ms[2 * k + 1], probes[k], ts)
  }

  lemma {:induction false} AcceptedShown(series: seq<Series>, ts: nat)
    ensures AllShown(FlatMap(series, ExportOne(ts)), Accepted(series), ts)
  {
    if series != [] {
      var n := |series| - 1;
      AcceptedShown(series[..n], ts);
      NotExported(series[n], ts);
      if Exportable(series[n]) {
        SeriesShown(series[n], ts);
      }
    }
  }

  lemma {:induction false} AllProbesShown(probes: seq<Probe>, ts: nat)
    ensures ProbesShown(FlatMap(probes, ProbeMetrics(ts)), probes, ts)
  {
    if probes != [] {
      var n := |probes| - 1;
      AllProbesShown(probes[..n], ts);
      ProbeShown(probes[n], ts);
    }
  }

  /** The exported metrics show every series that export accepts, in order, and then what every
      probe cost. */
  lemma ExportShows(series: seq<Series>, probes: seq<Probe>, ts: nat)
    ensures var out, kept := ExportedMetrics(series, probes, ts), Accepted(series);
            |kept| <= |out| && AllShown(out[..|kept|], kept, ts) && ProbesShown(out[|kept|..], probes, ts)
  {
    AcceptedShown(series, ts);
    AllProbesShown(probes, ts);
    var ofSeries, ofProbes := FlatMap(series, ExportOne(ts)), FlatMap(probes, ProbeMetrics(ts));
    assert (ofSeries + ofProbes)[..|ofSeries|] == ofSeries && (ofSeries + ofProbes)[|ofSeries|..] == ofProbes;
  }

  lemma VerdictKeyIsNew(i: nat)
    requires i < KEYS
    ensures KeyName(i) != "assayist.gate.verdict"
  {
    KeySigned(i);
    assert Signature("assayist.gate.verdict").0 == 21;
  }

  /** The attributes name the grade and, if the gate has spoken, its verdict. */
  lemma VerdictShown(f: Fingerprint, id: Identity, g: Grade, verdict: Option<string>)
    requires Sized(f)
    ensures var attrs := Attributes(f, id, g, verdict);
            && AttrStr(attrs, "assayist.gate.verdict") == verdict
            && AttrStr(attrs, "assayist.grade")
               == Some(if g.Reproducible? then "reproducible" else if g.Valid? then "valid" else "invalid")
  {
    var attrs := Attributes(f, id, g, verdict);
    FieldRead(f, id, g, verdict, 19);
    forall i | 0 <= i < KEYS ensures attrs[i].key != Some("assayist.gate.verdict") {
      VerdictKeyIsNew(i);
    }
    var last := if verdict.Some? then [StrAttr("assayist.gate.verdict", verdict.value)] else [];
    assert attrs == attrs[..KEYS] + last;
    AttrJoined(attrs[..KEYS], last, "assayist.gate.verdict");
    if verdict.Some? {
      assert last == [StrAttr("assayist.gate.verdict", verdict.value)] + [];
      AttrFirst(last[0], [], "assayist.gate.verdict");
    }
  }

  /** The exported document holds its metrics under one resource, and they show the run's series
      and probes; that resource tells the run's grade and verdict. */
  lemma DocumentShows(run: OtlpDocument.Run, ts: nat, hash: OtlpSpans.Hash)
    requires Sized(run.fingerprint)
    ensures var doc := Exported(run, ts, hash);
            && |doc.resourceMetrics| == 1 && |doc.resourceMetrics[0].scopes| == 1
            && doc.resourceMetrics[0].attributes.Some?
            && AttrStr(doc.resourceMetrics[0].attributes.value, "assayist.gate.verdict") == run.verdict
            && var metrics, kept := doc.resourceMetrics[0].scopes[0], Accepted(run.series);
               |kept| <= |metrics| && AllShown(metrics[..|kept|], kept, ts)
               && ProbesShown(metrics[|kept|..], run.probes, ts)
  {
    ExportShows(run.series, run.probes, ts);
    VerdictShown(run.fingerprint, run.identity, run.grade, run.verdict);
  }
}
