/** Whole runs through OTLP: the exported document, the import of any document, and spans. */
module OtlpRun {
  import opened Decimal
  import opened Options
  import opened Otlp

  // ---- folding lists -----------------------------------------------------------------------

  function FlatMap<A, B>(xs: seq<A>, f: A -> seq<B>): seq<B>
  {
    if xs == [] then [] else FlatMap(xs[..|xs| - 1], f) + f(xs[|xs| - 1])
  }

  lemma FlatMapOneMore<A, B>(xs: seq<A>, i: nat, f: A -> seq<B>)
    requires i < |xs|
    ensures FlatMap(xs[..i + 1], f) == FlatMap(xs[..i], f) + f(xs[i])
  {
    assert xs[..i + 1][..i] == xs[..i];
  }

  lemma FlatMapOne<A, B>(x: A, f: A -> seq<B>)
    ensures FlatMap([x], f) == f(x)
  {
    var xs := [x];
    assert xs[..|xs| - 1] == [];
    assert FlatMap(xs, f) == FlatMap(xs[..|xs| - 1], f) + f(xs[|xs| - 1]);
  }

  lemma {:induction false} FlatMapConcat<A, B>(xs: seq<A>, ys: seq<A>, f: A -> seq<B>)
    ensures FlatMap(xs + ys, f) == FlatMap(xs, f) + FlatMap(ys, f)
  {
    if ys == [] {
      assert xs + ys == xs;
    } else {
      FlatMapConcat(xs, ys[..|ys| - 1], f);
      assert (xs + ys)[..|xs + ys| - 1] == xs + ys[..|ys| - 1];
    }
  }

  lemma {:induction false} FlatMapCompose<A, B, C>(xs: seq<A>, f: A -> seq<B>, g: B -> seq<C>, h: A -> seq<C>)
    requires forall i :: 0 <= i < |xs| ==> FlatMap(f(xs[i]), g) == h(xs[i])
    ensures FlatMap(FlatMap(xs, f), g) == FlatMap(xs, h)
  {
    if xs != [] {
      var n := |xs| - 1;
      FlatMapCompose(xs[..n], f, g, h);
      FlatMapConcat(FlatMap(xs[..n], f), f(xs[n]), g);
    }
  }

  lemma {:induction false} FlatMapKeeps<A>(xs: seq<A>, f: A -> seq<A>)
    requires forall i :: 0 <= i < |xs| ==> f(xs[i]) == [xs[i]]
    ensures FlatMap(xs, f) == xs
  {
    if xs != [] {
      FlatMapKeeps(xs[..|xs| - 1], f);
    }
  }

  lemma {:induction false} FlatMapOneEach<A, B>(xs: seq<A>, f: A -> seq<B>)
    requires forall i :: 0 <= i < |xs| ==> |f(xs[i])| == 1
    ensures |FlatMap(xs, f)| == |xs| && forall i :: 0 <= i < |xs| ==> FlatMap(xs, f)[i] == f(xs[i])[0]
  {
    if xs != [] {
      FlatMapOneEach(xs[..|xs| - 1], f);
    }
  }

  // ---- metrics ----------------------------------------------------------------------------------

  datatype Probe = Probe(id: Option<string>, attachKind: Option<string>, overBudget: Option<bool>,
                         steadyFraction: Option<Number>, runTime: Option<Number>)

  function ProbeAttrs(p: Probe): seq<Attr>
  {
    (if p.id.Some? then [StrAttr("assayist.probe.id", p.id.value)] else [])
    + (if p.attachKind.Some? then [StrAttr("assayist.probe.attach_kind", p.attachKind.value)] else [])
    + (if p.overBudget.Some? then
         [Attr(Some("assayist.probe.over_budget"), Some(AnyValue(None, p.overBudget, None, None)))]
       else [])
  }

  /** The two metrics of one probe. */
  function ProbeMetrics(ts: nat): Probe -> seq<Metric>
  {
    (p: Probe) =>
      [Metric(Some("assayist.probe.steady_cpu_fraction"), Some("1"), None, None, None,
              Some(Signal(None, None, Some([NO_POINT.(attributes := Some(ProbeAttrs(p)),
                                                      asDouble := Some(FloatOrZero(p.steadyFraction)),
                                                      time := Some(Text(Render(ts))))])))),
       Metric(Some("assayist.probe.run_time_ns"), Some("ns"), None, None,
              Some(Signal(Some(true), Some(2), Some([NO_POINT.(attributes := Some(ProbeAttrs(p)),
                                                               asInt := Some(U64Str(p.runTime)),
                                                               time := Some(Text(Render(ts))))]))), None)]
  }

  function ExportOne(ts: nat): Series -> seq<Metric>
  {
    (s: Series) => match SeriesToMetric(s, ts) case Some(m) => [m] case None => []
  }

  predicate IsProbeName(name: Option<string>)
  {
    name.Some? && PROBE <= name.value
  }

  function ImportOne(m: Metric): seq<Series>
  {
    if IsProbeName(m.name) then [] else match MetricToSeries(m) case Some(s) => [s] case None => []
  }

  function ExportedMetrics(series: seq<Series>, probes: seq<Probe>, ts: nat): seq<Metric>
  {
    FlatMap(series, ExportOne(ts)) + FlatMap(probes, ProbeMetrics(ts))
  }

  method ExportMetrics(series: seq<Series>, probes: seq<Probe>, ts: nat) returns (metrics: seq<Metric>)
    ensures metrics == ExportedMetrics(series, probes, ts)
  {
    metrics := Collect(series, ExportOne(ts), []);
    metrics := Collect(probes, ProbeMetrics(ts), metrics);
  }

  /** The loop that appends what each entry becomes. */
  method Collect<A, B>(xs: seq<A>, f: A -> seq<B>, before: seq<B>) returns (out: seq<B>)
    ensures out == before + FlatMap(xs, f)
  {
    out := before;
    for i := 0 to |xs|
      invariant out == before + FlatMap(xs[..i], f)
    {
      FlatMapOneMore(xs, i, f);
      out := out + f(xs[i]);
    }
    assert xs[..|xs|] == xs;
  }

  function Whole<A>(xs: seq<A>): seq<A>
  {
    xs
  }

  /** All entries of a list of lists. */
  function Joined<A>(scopes: seq<seq<A>>): seq<A>
  {
    FlatMap(scopes, Whole<A>)
  }

  /** All entries of a list of lists of lists. */
  function Flatten<A>(nested: seq<seq<seq<A>>>): seq<A>
  {
    FlatMap(nested, Joined<A>)
  }

  function ImportedSeries(metrics: seq<Metric>): seq<Series>
  {
    FlatMap(metrics, ImportOne)
  }

  /** One list of metrics into the series read so far. */
  method ImportMetrics(before: seq<Series>, metrics: seq<Metric>) returns (series: seq<Series>)
    ensures series == before + ImportedSeries(metrics)
  {
    series := before;
    for i := 0 to |metrics|
      invariant series == before + FlatMap(metrics[..i], ImportOne)
    {
      FlatMapOneMore(metrics, i, ImportOne);
      series := series + ImportOne(metrics[i]);
    }
    assert metrics[..|metrics|] == metrics;
  }

  /** `import_series`: resources, their scopes, their metrics. */
  method ImportSeries(resources: seq<seq<seq<Metric>>>) returns (series: seq<Series>)
    ensures series == ImportedSeries(Flatten(resources))
  {
    series := [];
    for r := 0 to |resources|
      invariant series == ImportedSeries(Flatten(resources[..r]))
    {
      FlattenOneMore(resources, r);
      FlatMapConcat(Flatten(resources[..r]), Joined(resources[r]), ImportOne);
      series := ImportScopes(series, resources[r]);
    }
    assert resources[..|resources|] == resources;
  }

  method ImportScopes(before: seq<Series>, scopes: seq<seq<Metric>>) returns (series: seq<Series>)
    ensures series == before + ImportedSeries(Joined(scopes))
  {
    series := before;
    for k := 0 to |scopes|
      invariant series == before + ImportedSeries(Joined(scopes[..k]))
    {
      JoinedImports(scopes, k);
      series := ImportMetrics(series, scopes[k]);
    }
    assert scopes[..|scopes|] == scopes;
  }

  lemma JoinedImports(scopes: seq<seq<Metric>>, k: nat)
    requires k < |scopes|
    ensures ImportedSeries(Joined(scopes[..k + 1])) == ImportedSeries(Joined(scopes[..k])) + ImportedSeries(scopes[k])
  {
    FlatMapOneMore(scopes, k, Whole<Metric>);
    FlatMapConcat(Joined(scopes[..k]), scopes[k], ImportOne);
  }

  lemma FlattenOneMore<A>(nested: seq<seq<seq<A>>>, r: nat)
    requires r < |nested|
    ensures Flatten(nested[..r + 1]) == Flatten(nested[..r]) + Joined(nested[r])
  {
    assert nested[..r + 1][..r] == nested[..r];
  }

  // ---- what a run's series become ------------------------------------------------------------------

  function TripOne(ts: nat): Series -> seq<Series>
  {
    (s: Series) => if IsProbeName(s.name) then [] else match Trip(s, ts) case Some(t) => [t] case None => []
  }

  lemma ExportKeepsName(s: Series, ts: nat)
    requires SeriesToMetric(s, ts).Some?
    ensures SeriesToMetric(s, ts).value.name == s.name
  {
  }

  lemma OneThereAndBack(s: Series, ts: nat)
    ensures FlatMap(ExportOne(ts)(s), ImportOne) == TripOne(ts)(s)
  {
    if SeriesToMetric(s, ts).Some? {
      var m := SeriesToMetric(s, ts).value;
      ExportKeepsName(s, ts);
      assert ExportOne(ts)(s) == [m];
      assert [m][..0] == [];
    }
  }

  lemma ProbeNames(p: Probe, ts: nat)
    ensures FlatMap(ProbeMetrics(ts)(p), ImportOne) == []
  {
    var ms := ProbeMetrics(ts)(p);
    assert PROBE <= "assayist.probe.steady_cpu_fraction" && PROBE <= "assayist.probe.run_time_ns";
    assert ms[..1][..0] == [];
    assert ImportOne(ms[0]) == [] && ImportOne(ms[1]) == [];
    assert FlatMap(ms[..1], ImportOne) == [];
  }

  /** Export then import: the series one by one, and nothing for the probes. */
  lemma MetricsThereAndBack(series: seq<Series>, probes: seq<Probe>, ts: nat)
    ensures ImportedSeries(ExportedMetrics(series, probes, ts)) == FlatMap(series, TripOne(ts))
  {
    forall i | 0 <= i < |series| ensures FlatMap(ExportOne(ts)(series[i]), ImportOne) == TripOne(ts)(series[i]) {
      OneThereAndBack(series[i], ts);
    }
    FlatMapCompose(series, ExportOne(ts), ImportOne, TripOne(ts));
    var nothing := (p: Probe) => [];
    forall i | 0 <= i < |probes| ensures FlatMap(ProbeMetrics(ts)(probes[i]), ImportOne) == nothing(probes[i]) {
      ProbeNames(probes[i], ts);
    }
    FlatMapCompose(probes, ProbeMetrics(ts), ImportOne, nothing);
    FlatMapNothing(probes, nothing);
    FlatMapConcat(FlatMap(series, ExportOne(ts)), FlatMap(probes, ProbeMetrics(ts)), ImportOne);
  }

  lemma {:induction false} FlatMapNothing<A, B>(xs: seq<A>, f: A -> seq<B>)
    requires forall x :: x in xs ==> f(x) == []
    ensures FlatMap(xs, f) == []
  {
    if xs != [] {
      FlatMapNothing(xs[..|xs| - 1], f);
    }
  }

  /** Captured series outside the probe namespace keep name, unit, kind, source, key and data,
      in order, and nothing joins them. */
  lemma SeriesRoundTrip(series: seq<Series>, probes: seq<Probe>, ts: nat)
    requires forall i :: 0 <= i < |series| ==> Captured(series[i]) && !IsProbeName(series[i].name)
    ensures var out := ImportedSeries(ExportedMetrics(series, probes, ts));
            |out| == |series| && forall i :: 0 <= i < |out| ==> SameMeasurement(series[i], out[i])
  {
    MetricsThereAndBack(series, probes, ts);
    forall i | 0 <= i < |series|
      ensures |TripOne(ts)(series[i])| == 1 && SameMeasurement(series[i], TripOne(ts)(series[i])[0])
    {
      CapturedTrips(series[i], ts);
    }
    FlatMapOneEach(series, TripOne(ts));
  }

  lemma CapturedTrips(s: Series, ts: nat)
    requires Captured(s) && !IsProbeName(s.name)
    ensures |TripOne(ts)(s)| == 1 && SameMeasurement(s, TripOne(ts)(s)[0])
  {
    MeasurementSurvivesExactly(s, ts);
  }

  lemma WellFormedUnchanged(series: seq<Series>, probes: seq<Probe>, ts: nat)
    requires forall i :: 0 <= i < |series| ==> WellFormed(series[i]) && !IsProbeName(series[i].name)
    ensures ImportedSeries(ExportedMetrics(series, probes, ts)) == series
  {
    MetricsThereAndBack(series, probes, ts);
    forall i | 0 <= i < |series| ensures TripOne(ts)(series[i]) == [series[i]] {
      SurvivesExactly(series[i], ts);
    }
    FlatMapKeeps(series, TripOne(ts));
  }

  lemma {:induction false} TripsAreProper(series: seq<Series>, ts: nat)
    ensures forall t :: t in FlatMap(series, TripOne(ts)) ==> WellFormed(t) && !IsProbeName(t.name)
  {
    if series != [] {
      var n := |series| - 1;
      TripsAreProper(series[..n], ts);
      TripIs(series[n], ts);
      if Exportable(series[n]) {
        SecondTripChangesNothing(series[n], ts, ts);
      }
    }
  }

  /** Whatever series and probes a run has, a second export and import of the series changes
      nothing. */
  lemma SecondImportChangesNothing(series: seq<Series>, probes: seq<Probe>, ts: nat, again: nat)
    ensures var once := ImportedSeries(ExportedMetrics(series, probes, ts));
            ImportedSeries(ExportedMetrics(once, [], again)) == once
  {
    var once := ImportedSeries(ExportedMetrics(series, probes, ts));
    MetricsThereAndBack(series, probes, ts);
    TripsAreProper(series, ts);
    assert forall i :: 0 <= i < |once| ==> once[i] in once;
    WellFormedUnchanged(once, [], again);
  }
}
