/** What the gate's verdict means, over all groups of runs and configurations. */
module Verdicts {
  import opened Gate
  import opened Options
  import opened RealSums
  import opened Reduce
  import T = PermutationTest

  // ---- from details to ids --------------------------------------------------------------------

  ghost predicate Judged(oa: seq<Obs>, ob: seq<Obs>, id: string, cfg: Config, status: Status)
  {
    Comparable(oa, ob, id) && DetailOf(oa, ob, id, cfg).status == status
  }

  ghost predicate Finds(ids: seq<string>, comparable: string -> bool, judge: string -> Detail, status: Status)
  {
    exists id :: id in ids && comparable(id) && judge(id).status == status
  }

  lemma FindsOneMore(ids: seq<string>, id: string, comparable: string -> bool, judge: string -> Detail, status: Status)
    ensures Finds(ids + [id], comparable, judge, status)
       <==> Finds(ids, comparable, judge, status) || (comparable(id) && judge(id).status == status)
  {
    assert id in ids + [id];
    if x :| x in ids && comparable(x) && judge(x).status == status {
      assert x in ids + [id];
    }
  }

  lemma {:induction false} AnyJudged(ids: seq<string>, comparable: string -> bool, judge: string -> Detail,
                                     status: Status)
    ensures Any(Details(ids, comparable, judge), status) <==> Finds(ids, comparable, judge, status)
  {
    if ids != [] {
      var n := |ids| - 1;
      AnyJudged(ids[..n], comparable, judge, status);
      assert ids == ids[..n] + [ids[n]];
      FindsOneMore(ids[..n], ids[n], comparable, judge, status);
      if comparable(ids[n]) {
        AnyOneMore(Details(ids[..n], comparable, judge), judge(ids[n]), status);
      } else {
        assert Details(ids, comparable, judge) == Details(ids[..n], comparable, judge);
      }
    }
  }

  lemma {:induction false} NoneComparable(ids: seq<string>, comparable: string -> bool, judge: string -> Detail)
    ensures Details(ids, comparable, judge) == [] <==> forall id :: id in ids ==> !comparable(id)
  {
    if ids != [] {
      var n := |ids| - 1;
      NoneComparable(ids[..n], comparable, judge);
      assert forall id :: id in ids <==> id in ids[..n] || id == ids[n];
      assert ids[n] in ids;
    }
  }

  lemma ComparableIsListed(oa: seq<Obs>, ob: seq<Obs>, id: string)
    requires Comparable(oa, ob, id)
    ensures id in Ids(oa)
  {
    if !Seen(oa, id) {
      NothingUnseen(oa, id);
    }
  }

  lemma AnyVerdict(a: seq<Run>, b: seq<Run>, cfg: Config, status: Status)
    ensures Any(AllDetails(a, b, cfg), status)
       <==> exists id :: Judged(Observations(a), Observations(b), id, cfg, status)
    ensures AllDetails(a, b, cfg) == [] <==> forall id :: !Comparable(Observations(a), Observations(b), id)
  {
    var oa, ob := Observations(a), Observations(b);
    var comparable, judge := ComparableIn(oa, ob), JudgeIn(oa, ob, cfg);
    AnyJudged(Ids(oa), comparable, judge, status);
    NoneComparable(Ids(oa), comparable, judge);
    forall id ensures comparable(id) ==> id in Ids(oa) {
      if comparable(id) {
        ComparableIsListed(oa, ob, id);
      }
    }
    forall id ensures comparable(id) && judge(id).status == status <==> Judged(oa, ob, id, cfg, status) {
    }
    assert forall id :: comparable(id) <==> Comparable(oa, ob, id);
  }

  // ---- from observations to runs -----------------------------------------------------------------

  ghost predicate DirtyIn(runs: seq<Run>, id: string)
  {
    exists r :: 0 <= r < |runs| && HasDirty(runs[r], id)
  }

  ghost predicate TaintedIn(runs: seq<Run>, report: Run -> seq<Obs>, id: string)
  {
    exists r :: 0 <= r < |runs| && Tainted(report(runs[r]), id)
  }

  lemma {:induction false} TaintedByRun(runs: seq<Run>, report: Run -> seq<Obs>, id: string)
    ensures Tainted(Gather(runs, report), id) <==> TaintedIn(runs, report, id)
  {
    if runs != [] {
      var n := |runs| - 1;
      TaintedByRun(runs[..n], report, id);
      TaintedConcat(Gather(runs[..n], report), report(runs[n]), id);
      assert forall r :: 0 <= r < n ==> runs[..n][r] == runs[r];
      assert TaintedIn(runs, report, id) <==> TaintedIn(runs[..n], report, id) || Tainted(report(runs[n]), id);
    }
  }

  lemma RunTainted(run: Run, id: string)
    ensures Tainted(RunObs(run), id) <==> HasDirty(run, id)
  {
    TagTainted(run.cell, Metrics(run), id);
    ContaminatedExactly(run, id);
  }

  lemma TagTainted(cell: string, metrics: seq<Metric>, id: string)
    ensures Tainted(Tag(cell, metrics), id) <==> Reported(metrics, id)
  {
    var obs := Tag(cell, metrics);
    assert forall j :: 0 <= j < |obs| ==> obs[j].metric == metrics[j];
  }

  /** An id is tainted exactly when, in some run, a series of an over-budget source or an
      overflowed series or run yields it. */
  lemma TaintedExactly(runs: seq<Run>, id: string)
    ensures Tainted(Observations(runs), id) <==> DirtyIn(runs, id)
  {
    TaintedByRun(runs, RunObs, id);
    forall r | 0 <= r < |runs| ensures Tainted(RunObs(runs[r]), id) <==> HasDirty(runs[r], id) {
      RunTainted(runs[r], id);
    }
  }

  // ---- the verdict, exactly -------------------------------------------------------------------------

  /** `ab` refuses exactly the inadmissible groups and those with no id sampled at least twice
      on both sides. */
  lemma RefusedExactly(a: seq<Run>, b: seq<Run>, cfg: Config)
    ensures Decide(a, b, cfg).Err? <==>
            !Admissible(a, b, cfg) || forall id :: !Comparable(Observations(a), Observations(b), id)
  {
    AnyVerdict(a, b, cfg, Contaminated);
  }

  /** A comparable id that is not ignored and comes, in some run of either group, from an
      over-budget source or an overflow. */
  ghost predicate SpoiltBy(a: seq<Run>, b: seq<Run>, cfg: Config, id: string)
  {
    && Comparable(Observations(a), Observations(b), id)
    && !IsIgnored(id, cfg.ignore)
    && (DirtyIn(a, id) || DirtyIn(b, id))
  }

  lemma SpoiltMeansContaminated(a: seq<Run>, b: seq<Run>, cfg: Config, id: string)
    ensures Judged(Observations(a), Observations(b), id, cfg, Contaminated) <==> SpoiltBy(a, b, cfg, id)
  {
    TaintedExactly(a, id);
    TaintedExactly(b, id);
    ContaminatedStatus(Observations(a), Observations(b), id, cfg);
  }

  lemma ContaminatedStatus(oa: seq<Obs>, ob: seq<Obs>, id: string, cfg: Config)
    ensures DetailOf(oa, ob, id, cfg).status == Contaminated
       <==> !IsIgnored(id, cfg.ignore) && (Tainted(oa, id) || Tainted(ob, id))
  {
  }

  /** When `ab` succeeds, its verdict is contaminated exactly when some id spoils it. */
  lemma ContaminatedVerdictExactly(a: seq<Run>, b: seq<Run>, cfg: Config)
    requires Decide(a, b, cfg).Ok?
    ensures Decide(a, b, cfg).value.verdict == Dirtied <==> exists id :: SpoiltBy(a, b, cfg, id)
  {
    AnyVerdict(a, b, cfg, Contaminated);
    forall id ensures Judged(Observations(a), Observations(b), id, cfg, Contaminated) <==> SpoiltBy(a, b, cfg, id) {
      SpoiltMeansContaminated(a, b, cfg, id);
    }
  }

  // ---- the change of the mean ------------------------------------------------------------------

  /** What the relative change says of the two means. A negative mean reverses its sign. */
  lemma RelDeltaMeans(ma: real, mb: real)
    ensures ma != 0.0 ==> ma * (1.0 + RelDelta(ma, mb)) == mb
    ensures ma == 0.0 ==> RelDelta(ma, mb) == if mb == 0.0 then 0.0 else 1.0
    ensures ma > 0.0 ==> (RelDelta(ma, mb) > 0.0 <==> mb > ma) && (RelDelta(ma, mb) < 0.0 <==> mb < ma)
    ensures ma < 0.0 ==> (RelDelta(ma, mb) > 0.0 <==> mb < ma) && (RelDelta(ma, mb) < 0.0 <==> mb > ma)
  {
    if ma != 0.0 {
      var rel := RelDelta(ma, mb);
      RatioTimes(mb - ma, ma);
      Product(ma, rel);
      ProductSign(ma, rel);
    }
  }

  lemma RatioTimes(d: real, m: real)
    requires m != 0.0
    ensures m * (d / m) == d
  {}

  lemma Product(m: real, rel: real)
    ensures m * (1.0 + rel) == m + m * rel
  {}

  lemma ProductSign(m: real, rel: real)
    ensures m > 0.0 ==> (rel > 0.0 <==> m * rel > 0.0) && (rel < 0.0 <==> m * rel < 0.0)
    ensures m < 0.0 ==> (rel > 0.0 <==> m * rel < 0.0) && (rel < 0.0 <==> m * rel > 0.0)
  {}

  lemma ProductSize(m: real, rel: real, effect: real)
    requires m > 0.0
    ensures rel >= effect <==> m * rel >= m * effect
  {}

  /** The change is as large as the effect exactly when the means differ by that share of the
      first one's size. */
  lemma EffectInMeans(ma: real, mb: real, effect: real)
    requires ma != 0.0
    ensures Abs(RelDelta(ma, mb)) >= effect <==> Abs(mb - ma) >= Abs(ma) * effect
  {
    var rel := RelDelta(ma, mb);
    RatioTimes(mb - ma, ma);
    AbsOfProduct(ma, rel);
    ProductSize(Abs(ma), Abs(rel), effect);
  }

  lemma AbsOfProduct(x: real, y: real)
    ensures Abs(x * y) == Abs(x) * Abs(y)
  {}

  /** The mean moved the way the polarity calls worse, by at least `effect` of where it was: up
      if lower is better, down if higher is. From below zero the directions are reversed; from
      zero every move is up, and by the whole. */
  ghost predicate Worse(polarity: Polarity, ma: real, mb: real, effect: real)
  {
    if ma == 0.0 then polarity.LowerBetter? && mb != 0.0 && effect <= 1.0
    else
      && (if mb > ma then mb - ma else ma - mb) >= (if ma > 0.0 then ma else -ma) * effect
      && match polarity
         case LowerBetter => if ma > 0.0 then mb > ma else mb < ma
         case HigherBetter => if ma > 0.0 then mb < ma else mb > ma
         case Unknown => false
  }

  /** An id whose change is significant, not lost in the noise of either group, large enough, and
      for the worse. */
  ghost predicate GotWorse(oa: seq<Obs>, ob: seq<Obs>, cfg: Config, id: string)
  {
    var xs, ys := Values(oa, id), Values(ob, id);
    && !IsIgnored(id, cfg.ignore)
    && T.PValue(xs, ys, cfg.resamples, cfg.seed) < cfg.pThreshold
    && !Noisy(xs, ys, cfg.noiseThreshold)
    && Worse(FirstPolarity(oa, id), Mean(xs), Mean(ys), cfg.minEffect)
  }

  lemma WorseInMeans(polarity: Polarity, ma: real, mb: real, effect: real)
    ensures var rel := RelDelta(ma, mb);
            Worse(polarity, ma, mb, effect)
            <==> Abs(rel) >= effect && BadDirection(polarity, rel) == Some(true)
  {
    RelDeltaMeans(ma, mb);
    if ma != 0.0 {
      EffectInMeans(ma, mb, effect);
    }
  }

  lemma WorseMeansRegressed(oa: seq<Obs>, ob: seq<Obs>, cfg: Config, id: string)
    ensures DetailOf(oa, ob, id, cfg).status == Regressed
       <==> GotWorse(oa, ob, cfg, id) && !Tainted(oa, id) && !Tainted(ob, id)
  {
    WorseInMeans(FirstPolarity(oa, id), Mean(Values(oa, id)), Mean(Values(ob, id)), cfg.minEffect);
  }

  /** The means differ by at least `effect` of the first one's size; any difference from zero
      counts as the whole. */
  predicate Moved(ma: real, mb: real, effect: real)
  {
    if ma == 0.0 then (if mb == 0.0 then 0.0 else 1.0) >= effect
    else (if mb > ma then mb - ma else ma - mb) >= (if ma > 0.0 then ma else -ma) * effect
  }

  /** A clean id that changed significantly, out of the noise and by enough, and did not get worse
      has improved, if either direction is better, and has merely changed if neither is. */
  lemma ImprovedExactly(oa: seq<Obs>, ob: seq<Obs>, cfg: Config, id: string)
    ensures var xs, ys, polarity := Values(oa, id), Values(ob, id), FirstPolarity(oa, id);
            var counts :=
              && !IsIgnored(id, cfg.ignore) && !Tainted(oa, id) && !Tainted(ob, id)
              && T.PValue(xs, ys, cfg.resamples, cfg.seed) < cfg.pThreshold && !Noisy(xs, ys, cfg.noiseThreshold)
              && Moved(Mean(xs), Mean(ys), cfg.minEffect);
            var status := DetailOf(oa, ob, id, cfg).status;
            && (status == Improved
                <==> counts && polarity != Unknown && !Worse(polarity, Mean(xs), Mean(ys), cfg.minEffect))
            && (status == Changed <==> counts && polarity == Unknown)
  {
    hide Worse, Moved, RelDelta, Noisy;
    var polarity, ma, mb := FirstPolarity(oa, id), Mean(Values(oa, id)), Mean(Values(ob, id));
    WorseInMeans(polarity, ma, mb, cfg.minEffect);
    MovedInMeans(ma, mb, cfg.minEffect);
  }

  lemma MovedInMeans(ma: real, mb: real, effect: real)
    ensures Moved(ma, mb, effect) <==> Abs(RelDelta(ma, mb)) >= effect
  {
    if ma != 0.0 {
      EffectInMeans(ma, mb, effect);
    }
  }

  /** For a metric above zero, lower-better means that B's mean is above A's by at least the
      effect's share of it, higher-better that it is below. */
  lemma WorseAboveZero(polarity: Polarity, ma: real, mb: real, effect: real)
    requires ma > 0.0 && effect > 0.0
    ensures Worse(polarity, ma, mb, effect) <==>
            || (polarity.LowerBetter? && mb >= ma + ma * effect)
            || (polarity.HigherBetter? && mb <= ma - ma * effect)
  {
    assert ma * effect > 0.0;
  }

  /** For one below zero it is the other way round: a lower-better id gets worse by going down. */
  lemma WorseBelowZero(polarity: Polarity, ma: real, mb: real, effect: real)
    requires ma < 0.0 && effect > 0.0
    ensures Worse(polarity, ma, mb, effect) <==>
            || (polarity.LowerBetter? && mb <= ma + ma * effect)
            || (polarity.HigherBetter? && mb >= ma - ma * effect)
  {
    assert -ma * effect > 0.0;
  }

  /** When `ab` succeeds, it fails the candidate exactly when nothing spoils the comparison and
      some comparable id got worse. */
  lemma FailedVerdictExactly(a: seq<Run>, b: seq<Run>, cfg: Config)
    requires Decide(a, b, cfg).Ok?
    ensures Decide(a, b, cfg).value.verdict == Fail <==>
            && (forall id :: !SpoiltBy(a, b, cfg, id))
            && exists id :: Comparable(Observations(a), Observations(b), id)
                      && GotWorse(Observations(a), Observations(b), cfg, id)
  {
    var oa, ob := Observations(a), Observations(b);
    ContaminatedVerdictExactly(a, b, cfg);
    AnyVerdict(a, b, cfg, Regressed);
    forall id ensures Judged(oa, ob, id, cfg, Regressed)
                 <==> Comparable(oa, ob, id) && GotWorse(oa, ob, cfg, id) && !Tainted(oa, id) && !Tainted(ob, id) {
      WorseMeansRegressed(oa, ob, cfg, id);
    }
    forall id | Comparable(oa, ob, id) && GotWorse(oa, ob, cfg, id) && !SpoiltBy(a, b, cfg, id)
      ensures !Tainted(oa, id) && !Tainted(ob, id)
    {
      TaintedExactly(a, id);
      TaintedExactly(b, id);
    }
  }

  // ---- when the gate cannot fail ------------------------------------------------------------------

  /** A threshold no larger than the smallest p-value the resamples can give never fails. */
  lemma UnreachableThresholdNeverFails(a: seq<Run>, b: seq<Run>, cfg: Config)
    requires cfg.pThreshold <= 1.0 / (cfg.resamples as real + 1.0)
    requires Decide(a, b, cfg).Ok?
    ensures Decide(a, b, cfg).value.verdict != Fail
  {
    FailedVerdictExactly(a, b, cfg);
    var oa, ob := Observations(a), Observations(b);
    forall id ensures !GotWorse(oa, ob, cfg, id) {
      NeverSignificant(oa, ob, cfg, id);
    }
  }

  lemma NeverSignificant(oa: seq<Obs>, ob: seq<Obs>, cfg: Config, id: string)
    requires cfg.pThreshold <= 1.0 / (cfg.resamples as real + 1.0)
    ensures !GotWorse(oa, ob, cfg, id)
  {
    WorseIsSignificant(oa, ob, cfg, id);
    T.PValueBounds(Values(oa, id), Values(ob, id), cfg.resamples, cfg.seed);
  }

  lemma WorseIsSignificant(oa: seq<Obs>, ob: seq<Obs>, cfg: Config, id: string)
    ensures var xs, ys := Values(oa, id), Values(ob, id);
            GotWorse(oa, ob, cfg, id) ==>
              T.PValue(xs, ys, cfg.resamples, cfg.seed) < cfg.pThreshold && Mean(xs) != Mean(ys)
  {
  }

  lemma {:induction false} ValuesConcat(x: seq<Obs>, y: seq<Obs>, id: string)
    ensures Values(x + y, id) == Values(x, id) + Values(y, id)
  {
    if y == [] {
      assert x + y == x;
    } else {
      var n := |y| - 1;
      ValuesConcat(x, y[..n], id);
      assert (x + y)[..|x| + n] == x + y[..n];
    }
  }

  lemma {:induction false} GatherConcat(xs: seq<Run>, ys: seq<Run>, report: Run -> seq<Obs>)
    ensures Gather(xs + ys, report) == Gather(xs, report) + Gather(ys, report)
  {
    if ys == [] {
      assert xs + ys == xs;
    } else {
      var n := |ys| - 1;
      GatherConcat(xs, ys[..n], report);
      GatherSnoc(xs + ys[..n], ys[n], report);
      GatherSnoc(ys[..n], ys[n], report);
      assert xs + ys == xs + ys[..n] + [ys[n]] && ys == ys[..n] + [ys[n]];
    }
  }

  lemma GatherSnoc(xs: seq<Run>, run: Run, report: Run -> seq<Obs>)
    ensures Gather(xs + [run], report) == Gather(xs, report) + report(run)
  {
    assert (xs + [run])[..|xs|] == xs;
  }

  lemma GatherOne(run: Run, report: Run -> seq<Obs>)
    ensures Gather([run], report) == report(run)
  {
    assert [run][..0] == [];
  }

  /** Taking one run out takes its values out. */
  lemma TakeRunOut(runs: seq<Run>, report: Run -> seq<Obs>, r: nat, id: string)
    requires r < |runs|
    ensures multiset(Values(Gather(runs, report), id))
         == multiset(Values(Gather(runs[..r] + runs[r + 1..], report), id)) + multiset(Values(report(runs[r]), id))
  {
    var front, back, run := runs[..r], runs[r + 1..], runs[r];
    assert runs == front + [run] + back;
    GatherConcat(front + [run], back, report);
    GatherConcat(front, [run], report);
    GatherConcat(front, back, report);
    GatherOne(run, report);
    ValuesConcat(Gather(front + [run], report), Gather(back, report), id);
    ValuesConcat(Gather(front, report), report(run), id);
    ValuesConcat(Gather(front, report), Gather(back, report), id);
  }

  /** Reordering the runs reorders the samples of every id. */
  lemma {:induction false} SamplesReordered(xs: seq<Run>, ys: seq<Run>, report: Run -> seq<Obs>, id: string)
    requires multiset(xs) == multiset(ys)
    ensures multiset(Values(Gather(xs, report), id)) == multiset(Values(Gather(ys, report), id))
    decreases |xs|
  {
    if xs == [] {
      assert |multiset(ys)| == |ys|;
      assert |multiset(xs)| == 0;
    } else {
      var n := |xs| - 1;
      assert xs[n] in multiset(ys);
      var j :| 0 <= j < |ys| && ys[j] == xs[n];
      TakeOut(xs, n);
      TakeOut(ys, j);
      TakeRunOut(xs, report, n, id);
      TakeRunOut(ys, report, j, id);
      SamplesReordered(xs[..n] + xs[n + 1..], ys[..j] + ys[j + 1..], report, id);
    }
  }

  /** Comparing runs with a reordering of themselves never fails, under any configuration. */
  lemma ReorderingNeverFails(xs: seq<Run>, ys: seq<Run>, cfg: Config)
    requires multiset(xs) == multiset(ys)
    requires Decide(xs, ys, cfg).Ok?
    ensures Decide(xs, ys, cfg).value.verdict != Fail
  {
    FailedVerdictExactly(xs, ys, cfg);
    var oa, ob := Observations(xs), Observations(ys);
    forall id ensures !GotWorse(oa, ob, cfg, id) {
      WorseIsSignificant(oa, ob, cfg, id);
      SamplesReordered(xs, ys, RunObs, id);
      MeanReordered(Values(oa, id), Values(ob, id));
    }
  }
}
