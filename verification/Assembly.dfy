/** From gadget fragments to the run the gate reads: what assembly keeps of an overflow. */
module Assembly {
  import opened BpfMaps
  import opened Decimal
  import opened Gate
  import opened HistMaps
  import opened Histograms
  import opened MetricIds
  import opened Options
  import opened Reduce
  import opened Sums
  import K = Kvm
  import V = Verdicts
  import W = WorkloadReports

  /** What a gadget says about its capture as a whole. */
  datatype Meta = Meta(overflow: Option<bool>, window: Option<real>)

  datatype Fragment = Fragment(series: seq<Series>, probes: seq<ProbeCost>, meta: Option<Meta>)

  /** What the grade looks at: whether the read-back tuning is the requested one, and whether every
      extended field is present. */
  datatype Host = Host(tuned: bool, extended: bool, tenancy: string)

  /** Everything a run is assembled from. */
  datatype Recording = Recording(fragments: seq<Fragment>, host: Host, imported: bool, cell: string,
                                 spans: seq<Span>, workload: Option<W.Report>)

  function AllSeries(fragments: seq<Fragment>): seq<Series>
  {
    if fragments == [] then []
    else AllSeries(fragments[..|fragments| - 1]) + fragments[|fragments| - 1].series
  }

  function AllProbes(fragments: seq<Fragment>): seq<ProbeCost>
  {
    if fragments == [] then []
    else AllProbes(fragments[..|fragments| - 1]) + fragments[|fragments| - 1].probes
  }

  /** Some gadget produced series or capture metadata. */
  predicate ProbesRan(fragments: seq<Fragment>)
  {
    exists i :: 0 <= i < |fragments| && (fragments[i].series != [] || fragments[i].meta.Some?)
  }

  function Grade(host: Host, imported: bool, probesRan: bool, costed: bool): (g: string)
    ensures g == REPRODUCIBLE <==> host.tuned && !imported && host.extended && (!probesRan || costed)
    ensures g == "invalid" <==> !host.tuned
    ensures g in ["invalid", "valid", REPRODUCIBLE]
  {
    if !host.tuned then "invalid"
    else if imported then "valid"
    else if host.extended && (!probesRan || costed) then REPRODUCIBLE
    else "valid"
  }

  /** The assembled run as the gate reads it: the record has no capture metadata of its own, so the
      gate finds neither an overflow nor a window. */
  function Assembled(rec: Recording): Run
  {
    var probes := AllProbes(rec.fragments);
    Run(Some(Grade(rec.host, rec.imported, ProbesRan(rec.fragments), probes != [])),
        Some(Fingerprint(true, Some(rec.host.tenancy))), rec.cell, AllSeries(rec.fragments), probes,
        false, None, rec.workload, rec.spans)
  }

  method Assemble(rec: Recording) returns (run: Run)
    ensures run == Assembled(rec)
  {
    var series: seq<Series>, probes: seq<ProbeCost>, probesRan := [], [], false;
    for i := 0 to |rec.fragments|
      invariant series == AllSeries(rec.fragments[..i]) && probes == AllProbes(rec.fragments[..i])
      invariant probesRan == ProbesRan(rec.fragments[..i])
    {
      var f := rec.fragments[i];
      FragmentsOneMore(rec.fragments, i);
      series := series + f.series;
      probes := probes + f.probes;
      probesRan := probesRan || f.series != [] || f.meta.Some?;
    }
    assert rec.fragments[..|rec.fragments|] == rec.fragments;
    run := Run(Some(Grade(rec.host, rec.imported, probesRan, probes != [])),
               Some(Fingerprint(true, Some(rec.host.tenancy))), rec.cell, series, probes, false, None,
               rec.workload, rec.spans);
  }

  lemma FragmentsOneMore(fragments: seq<Fragment>, i: nat)
    requires i < |fragments|
    ensures AllSeries(fragments[..i + 1]) == AllSeries(fragments[..i]) + fragments[i].series
    ensures AllProbes(fragments[..i + 1]) == AllProbes(fragments[..i]) + fragments[i].probes
    ensures ProbesRan(fragments[..i + 1])
       <==> ProbesRan(fragments[..i]) || fragments[i].series != [] || fragments[i].meta.Some?
  {
    var more := fragments[..i + 1];
    assert more[..i] == fragments[..i];
    assert more[i] == fragments[i];
    assert forall j :: 0 <= j < i ==> more[j] == fragments[..i][j];
  }

  // ---- what assembly forgets -----------------------------------------------------------------------

  /** The same fragment with its capture metadata blank. */
  function Blank(f: Fragment): Fragment
  {
    f.(meta := if f.meta.Some? then Some(Meta(None, None)) else None)
  }

  function Blanked(fragments: seq<Fragment>): (out: seq<Fragment>)
    ensures |out| == |fragments| && forall i :: 0 <= i < |out| ==> out[i] == Blank(fragments[i])
  {
    seq(|fragments|, i requires 0 <= i < |fragments| => Blank(fragments[i]))
  }

  lemma {:induction false} BlankedSame(fragments: seq<Fragment>)
    ensures AllSeries(Blanked(fragments)) == AllSeries(fragments)
    ensures AllProbes(Blanked(fragments)) == AllProbes(fragments)
  {
    if fragments != [] {
      var n := |fragments| - 1;
      BlankedSame(fragments[..n]);
      assert Blanked(fragments)[..n] == Blanked(fragments[..n]);
    }
  }

  /** Whatever the gadgets say of their captures, overflow and window included, the run is the one
      they would give if they said nothing; so no counter of it ever has a rate. */
  lemma MetaIsForgotten(rec: Recording)
    ensures Assembled(rec) == Assembled(rec.(fragments := Blanked(rec.fragments)))
    ensures forall s: Series, v :: v in SeriesValues(s, Assembled(rec).window) ==> v.0 != Rate
  {
    BlankedSame(rec.fragments);
    var blank := Blanked(rec.fragments);
    forall i | 0 <= i < |blank|
      ensures (blank[i].series != [] || blank[i].meta.Some?)
         <==> (rec.fragments[i].series != [] || rec.fragments[i].meta.Some?)
    {
    }
    assert ProbesRan(blank) <==> ProbesRan(rec.fragments);
  }

  // ---- what reaches the gate -------------------------------------------------------------------------

  /** A series of some fragment carries its own overflow flag or comes from a probe over budget, and
      yields `id`. */
  ghost predicate Marked(rec: Recording, id: string)
  {
    exists i, s :: 0 <= i < |rec.fragments| && s in rec.fragments[i].series && MarkedAt(rec, s, id)
  }

  ghost predicate MarkedAt(rec: Recording, s: Series, id: string)
  {
    (s.overflow || s.source in OverbudgetSources(AllProbes(rec.fragments))) && Yields(s, None, id)
  }

  lemma {:induction false} SeriesFromFragments(fragments: seq<Fragment>, s: Series)
    ensures s in AllSeries(fragments) <==> exists i :: 0 <= i < |fragments| && s in fragments[i].series
  {
    if fragments != [] {
      var n := |fragments| - 1;
      SeriesFromFragments(fragments[..n], s);
      assert forall i :: 0 <= i < n ==> fragments[..n][i] == fragments[i];
    }
  }

  lemma DirtyIsMarked(rec: Recording, s: Series, id: string)
    ensures Dirty(Assembled(rec), s) && Yields(s, Assembled(rec).window, id) <==> MarkedAt(rec, s, id)
  {
  }

  /** An assembled run has a dirty series for an id exactly when some fragment's series is marked
      for it: the series' own flag counts, the capture's does not. */
  lemma DirtyExactly(rec: Recording, id: string)
    ensures HasDirty(Assembled(rec), id) <==> Marked(rec, id)
  {
    var run := Assembled(rec);
    if HasDirty(run, id) {
      var k :| 0 <= k < |run.series| && Dirty(run, run.series[k]) && Yields(run.series[k], run.window, id);
      DirtyIsMarked(rec, run.series[k], id);
      assert run.series[k] in AllSeries(rec.fragments);
      SeriesFromFragments(rec.fragments, run.series[k]);
    }
    if Marked(rec, id) {
      var i, s :| 0 <= i < |rec.fragments| && s in rec.fragments[i].series && MarkedAt(rec, s, id);
      MarkedIsDirty(rec, i, s, id);
    }
  }

  lemma MarkedIsDirty(rec: Recording, i: nat, s: Series, id: string)
    requires i < |rec.fragments| && s in rec.fragments[i].series && MarkedAt(rec, s, id)
    ensures HasDirty(Assembled(rec), id)
  {
    var run := Assembled(rec);
    SeriesFromFragments(rec.fragments, s);
    var k :| 0 <= k < |run.series| && run.series[k] == s;
    DirtyIsMarked(rec, s, id);
  }

  function Runs(recs: seq<Recording>): (runs: seq<Run>)
    ensures |runs| == |recs| && forall i :: 0 <= i < |runs| ==> runs[i] == Assembled(recs[i])
  {
    seq(|recs|, i requires 0 <= i < |recs| => Assembled(recs[i]))
  }

  ghost predicate MarkedIn(recs: seq<Recording>, id: string)
  {
    exists r :: 0 <= r < |recs| && Marked(recs[r], id)
  }

  lemma DirtyInExactly(recs: seq<Recording>, id: string)
    ensures V.DirtyIn(Runs(recs), id) <==> MarkedIn(recs, id)
  {
    forall r | 0 <= r < |recs| ensures HasDirty(Runs(recs)[r], id) <==> Marked(recs[r], id) {
      DirtyExactly(recs[r], id);
    }
  }

  /** A comparable id that is not ignored and is marked in some recording of either group. */
  ghost predicate Spoils(a: seq<Recording>, b: seq<Recording>, cfg: Config, id: string)
  {
    && Comparable(Observations(Runs(a)), Observations(Runs(b)), id)
    && !IsIgnored(id, cfg.ignore) && (MarkedIn(a, id) || MarkedIn(b, id))
  }

  lemma SpoiltExactly(a: seq<Recording>, b: seq<Recording>, cfg: Config, id: string)
    ensures V.SpoiltBy(Runs(a), Runs(b), cfg, id) <==> Spoils(a, b, cfg, id)
  {
    DirtyInExactly(a, id);
    DirtyInExactly(b, id);
  }

  /** Exactly when an overflow, or a budget overrun, reaches the verdict on assembled runs. */
  lemma OverflowReachesExactly(a: seq<Recording>, b: seq<Recording>, cfg: Config)
    requires Decide(Runs(a), Runs(b), cfg).Ok?
    ensures Decide(Runs(a), Runs(b), cfg).value.verdict == Dirtied <==> exists id :: Spoils(a, b, cfg, id)
  {
    V.ContaminatedVerdictExactly(Runs(a), Runs(b), cfg);
    forall id ensures V.SpoiltBy(Runs(a), Runs(b), cfg, id) <==> Spoils(a, b, cfg, id) {
      SpoiltExactly(a, b, cfg, id);
    }
  }

  // ---- a dropped sample that passes ------------------------------------------------------------------

  predicate Passes(a: seq<Run>, b: seq<Run>, cfg: Config)
  {
    var r := Decide(a, b, cfg);
    r.Ok? && r.value.verdict == Pass
  }

  /** A group without anything dirty passes against itself, if it is admitted and has something to
      compare. */
  lemma CleanPasses(runs: seq<Run>, cfg: Config, id: string)
    requires Admissible(runs, runs, cfg) && |Values(Observations(runs), id)| >= 2
    requires forall x :: !V.DirtyIn(runs, x)
    ensures Passes(runs, runs, cfg)
  {
    V.RefusedExactly(runs, runs, cfg);
    assert Comparable(Observations(runs), Observations(runs), id);
    V.ContaminatedVerdictExactly(runs, runs, cfg);
    V.ReorderingNeverFails(runs, runs, cfg);
  }

  /** A run that is admitted, has a metric and nothing dirty passes against itself. */
  lemma TwicePasses(run: Run, cfg: Config)
    requires GradeOf(run) == REPRODUCIBLE && Metrics(run) != [] && forall id :: !HasDirty(run, id)
    ensures Passes([run, run], [run, run], cfg)
  {
    var runs := [run, run];
    TwiceAdmissible(run, cfg);
    TwiceSampled(run);
    forall x ensures !V.DirtyIn(runs, x) {
      TwiceClean(run, x);
    }
    CleanPasses(runs, cfg, Metrics(run)[0].id);
  }

  lemma TwiceClean(run: Run, id: string)
    requires !HasDirty(run, id)
    ensures !V.DirtyIn([run, run], id)
  {
  }

  lemma TwiceAdmissible(run: Run, cfg: Config)
    requires GradeOf(run) == REPRODUCIBLE
    ensures Admissible([run, run], [run, run], cfg)
  {
    var runs := [run, run];
    OneTenancyClass(runs, runs);
    assert forall i :: 0 <= i < |runs + runs| ==> (runs + runs)[i] == run;
  }

  lemma TwiceSampled(run: Run)
    requires Metrics(run) != []
    ensures |Values(Observations([run, run]), Metrics(run)[0].id)| >= 2
  {
    var metrics := Metrics(run);
    GatherTwice(run, RunObs);
    FirstSampled(run.cell, metrics);
    V.ValuesConcat(RunObs(run), RunObs(run), metrics[0].id);
  }

  lemma GatherTwice(run: Run, report: Run -> seq<Obs>)
    ensures Gather([run, run], report) == report(run) + report(run)
  {
    assert [run, run] == [run] + [run];
    V.GatherConcat([run], [run], report);
    V.GatherOne(run, report);
  }

  lemma FirstSampled(cell: string, metrics: seq<Metric>)
    requires metrics != []
    ensures Values(Tag(cell, metrics), metrics[0].id) != []
  {
    var obs := Tag(cell, metrics);
    if Values(obs, metrics[0].id) == [] {
      NoneSampled(obs, metrics[0].id);
    }
  }

  lemma {:induction false} NoneSampled(obs: seq<Obs>, id: string)
    requires Values(obs, id) == []
    ensures forall j :: 0 <= j < |obs| ==> obs[j].metric.id != id
  {
    if obs != [] {
      NoneSampled(obs[..|obs| - 1], id);
    }
  }

  /** A series of the KVM gadget in the contract's terms: its flag is never set. */
  function KvmSeries(s: K.Series, perGuest: bool, reason: nat -> string): Series
    requires |s.buckets| <= 64
  {
    Series("kvm.exit_handling_latency:" + reason(s.key.reason), "ns", "histogram", "kvm_exit",
           if perGuest then Some(Render(s.key.cgroup)) else None, [], false,
           Some(Data(Some("log2"), s.buckets, [], None, Some(s.count as real), None)))
  }

  function AllKvmSeries(series: seq<K.Series>, perGuest: bool, reason: nat -> string): (out: seq<Series>)
    requires forall i :: 0 <= i < |series| ==> |series[i].buckets| <= 64
    ensures |out| == |series|
    ensures forall i :: 0 <= i < |out| ==> out[i] == KvmSeries(series[i], perGuest, reason)
  {
    seq(|series|, i requires 0 <= i < |series| => KvmSeries(series[i], perGuest, reason))
  }

  /** A fragment whose series are histograms without a flag of their own, and whose probes are costed
      and within budget. */
  predicate Unflagged(f: Fragment)
  {
    && f.probes != [] && OverbudgetSources(f.probes) == {}
    && forall k :: 0 <= k < |f.series| ==>
         !f.series[k].overflow && f.series[k].kind == "histogram" && f.series[k].data.Some?
  }

  /** The recording of one fragment, on a tuned and fully described host. */
  function Alone(f: Fragment, tenancy: string, cell: string): Recording
  {
    Recording([f], Host(true, true, tenancy), false, cell, [], None)
  }

  lemma AloneIs(f: Fragment, tenancy: string, cell: string)
    ensures var run := Assembled(Alone(f, tenancy, cell)); run.series == f.series && run.probes == f.probes
  {
    assert [f][..0] == [];
    assert AllSeries([]) == [] && AllProbes([]) == [];
    assert AllSeries([f]) == [] + f.series && AllProbes([f]) == [] + f.probes;
  }

  lemma UnflaggedMarksNothing(f: Fragment, tenancy: string, cell: string, id: string)
    requires Unflagged(f)
    ensures !HasDirty(Assembled(Alone(f, tenancy, cell)), id)
  {
    AloneIs(f, tenancy, cell);
  }

  /** So a capture that overflowed passes: its runs compared with each other, nothing is
      contaminated. */
  lemma OverflowPasses(f: Fragment, tenancy: string, cell: string, cfg: Config)
    requires Unflagged(f) && f.series != []
    ensures var run := Assembled(Alone(f, tenancy, cell)); Passes([run, run], [run, run], cfg)
  {
    var run := Assembled(Alone(f, tenancy, cell));
    forall id ensures !HasDirty(run, id) {
      UnflaggedMarksNothing(f, tenancy, cell, id);
    }
    AloneIs(f, tenancy, cell);
    FirstSeriesReports(run);
    TwicePasses(run, cfg);
  }

  lemma FirstSeriesReports(run: Run)
    requires run.series != [] && run.series[0].kind == "histogram" && run.series[0].data.Some?
    ensures Metrics(run) != []
  {
    FlatGrows(run.series, SeriesReport(run));
  }

  lemma {:induction false} FlatGrows(series: seq<Series>, report: Series -> seq<Metric>)
    requires series != [] && report(series[0]) != []
    ensures Flat(series, report) != []
  {
    if |series| > 1 {
      FlatGrows(series[..|series| - 1], report);
    }
  }

  // ---- end to end --------------------------------------------------------------------------------------

  /** What the KVM gadget hands over: it flags the capture, not the series. */
  function KvmFragment(series: seq<K.Series>, overflow: bool, window: real, perGuest: bool, reason: nat -> string,
                       probes: seq<ProbeCost>): Fragment
    requires forall i :: 0 <= i < |series| ==> |series[i].buckets| <= 64
  {
    Fragment(AllKvmSeries(series, perGuest, reason), probes, Some(Meta(Some(overflow), Some(window))))
  }

  /** As long as some sample was recorded, some series is emitted. */
  lemma SomethingShown(hists: Hists<K.Key>, series: seq<K.Series>)
    requires Recorded(hists) > 0 && forall k :: k in hists && Total(hists[k]) > 0 ==> K.Shown(series, k)
    ensures series != []
  {
    if forall k :: k in hists ==> Total(hists[k]) == 0 {
      SumOverZero(hists.Keys, KeyTotal(hists));
    }
  }

  /** End to end: whenever the KVM histogram map overflowed, dropping some samples and keeping
      others, its fragment says so, and the assembled run still passes. */
  method DroppedSamplesPass(kvm: K.Config, trace: seq<K.Event>, window: real, reason: nat -> string,
                            probes: seq<ProbeCost>, tenancy: string, cell: string, cfg: Config)
      returns (fragment: Fragment, run: Run)
    requires probes != [] && OverbudgetSources(probes) == {}
    requires 0 < K.Run(kvm, trace, |trace|).dropped < K.Run(kvm, trace, |trace|).matched
    ensures fragment.meta == Some(Meta(Some(true), Some(window)))
    ensures run == Assembled(Alone(fragment, tenancy, cell)) && Passes([run, run], [run, run], cfg)
  {
    var s := K.Run(kvm, trace, |trace|);
    K.NoSilentTruncation(kvm, trace, |trace|);
    var series, overflow := K.Readout(s.hists, kvm.maxKeys);
    SomethingShown(s.hists, series);
    fragment := KvmFragment(series, overflow, window, kvm.perGuest, reason, probes);
    OverflowPasses(fragment, tenancy, cell, cfg);
    run := Assemble(Alone(fragment, tenancy, cell));
  }

  /** One vCPU thread leaves its guest for one reason, then for another. */
  const TWO_REASONS: seq<K.Event> := [K.Exit(0, 0, 0, 0), K.Entry(0, 1), K.Exit(0, 2, 1, 0), K.Entry(0, 3)]

  lemma FirstReasonKept(kvm: K.Config)
    requires kvm.maxThreads > 0 && kvm.maxKeys == 1
    ensures var s := K.Run(kvm, TWO_REASONS, 2);
            s.hists.Keys == {K.Key(0, 0)} && s.exitStart == map[] && s.matched == 1 && s.dropped == 0
  {
    K.LastStep(kvm, TWO_REASONS, 0);
    var one := K.Run(kvm, TWO_REASONS, 1);
    assert one == K.Maps(map[0 := K.ExitState(0, K.Key(0, 0))], map[], 0, 0);
    K.LastStep(kvm, TWO_REASONS, 1);
    assert Delete(one.exitStart, 0) == map[];
  }

  /** With room for one histogram the second reason's sample is dropped: the case does occur. */
  lemma SecondReasonDropped(kvm: K.Config)
    requires kvm.maxThreads > 0 && kvm.maxKeys == 1
    ensures var s := K.Run(kvm, TWO_REASONS, |TWO_REASONS|); 0 < s.dropped < s.matched
  {
    FirstReasonKept(kvm);
    var two := K.Run(kvm, TWO_REASONS, 2);
    K.LastStep(kvm, TWO_REASONS, 2);
    var three := K.Run(kvm, TWO_REASONS, 3);
    assert three == two.(exitStart := map[0 := K.ExitState(2, K.Key(0, 1))]);
    K.LastStep(kvm, TWO_REASONS, 3);
    assert |two.hists| == |two.hists.Keys| == 1;
  }
}
