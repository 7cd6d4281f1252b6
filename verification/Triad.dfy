/** The subsystem triad: the A/B verdict folded with the cost of group B's own probes. */
module Triad {
  import opened Gate
  import opened Options
  import opened Reduce

  /** The id a cost is reported under, empty for a probe without one. */
  function CostId(c: ProbeCost): (id: string)
    ensures c.probeId == Some(id) || (c.probeId.None? && id == "")
  {
    if c.probeId.Some? then c.probeId.value else ""
  }

  /** Every probe cost the runs report, in order. */
  function Costs(runs: seq<Run>): seq<ProbeCost>
  {
    if runs == [] then [] else Costs(runs[..|runs| - 1]) + runs[|runs| - 1].probes
  }

  /** The largest steady fraction seen per probe, never below zero. */
  function Worst(costs: seq<ProbeCost>): map<string, real>
  {
    if costs == [] then map[]
    else
      var before, c := Worst(costs[..|costs| - 1]), costs[|costs| - 1];
      var so := Get(before, CostId(c), 0.0);
      before[CostId(c) := if c.steadyFraction > so then c.steadyFraction else so]
  }

  /** The probes that overran, each once, in order of first report. */
  function OverIds(costs: seq<ProbeCost>): seq<string>
  {
    if costs == [] then []
    else
      var before, c := OverIds(costs[..|costs| - 1]), costs[|costs| - 1];
      if c.overBudget && CostId(c) !in before then before + [CostId(c)] else before
  }

  datatype Report = Report(verdict: Verdict, base: Outcome, worst: map<string, real>, overBudget: seq<string>,
                           notes: seq<Note>)

  /** The result of `triad`. */
  function Folded(base: Outcome, costs: seq<ProbeCost>): Report
  {
    if OverIds(costs) == [] then Report(base.verdict, base, Worst(costs), [], base.notes)
    else Report(if base.verdict == Dirtied then Dirtied else Fail, base, Worst(costs), OverIds(costs),
                base.notes + [OverheadOverBudget])
  }

  method TallyCosts(worst: map<string, real>, over: seq<string>, probes: seq<ProbeCost>, ghost costs: seq<ProbeCost>)
      returns (w: map<string, real>, o: seq<string>)
    requires worst == Worst(costs) && over == OverIds(costs)
    ensures w == Worst(costs + probes) && o == OverIds(costs + probes)
  {
    w, o := worst, over;
    NothingAppended(costs, probes);
    for i := 0 to |probes|
      invariant w == Worst(costs + probes[..i]) && o == OverIds(costs + probes[..i])
    {
      var c := probes[i];
      var id := CostId(c);
      AppendOneMore(costs, probes, i);
      TallyOneMore(costs + probes[..i], c);
      var e := Get(w, id, 0.0);
      w := w[id := if c.steadyFraction > e then c.steadyFraction else e];
      if c.overBudget && id !in o {
        o := o + [id];
      }
    }
    assert probes[..|probes|] == probes;
  }

  lemma TallyOneMore(costs: seq<ProbeCost>, c: ProbeCost)
    ensures var so := Get(Worst(costs), CostId(c), 0.0);
            Worst(costs + [c]) == Worst(costs)[CostId(c) := if c.steadyFraction > so then c.steadyFraction else so]
    ensures OverIds(costs + [c])
         == if c.overBudget && CostId(c) !in OverIds(costs) then OverIds(costs) + [CostId(c)] else OverIds(costs)
  {
    assert (costs + [c])[..|costs|] == costs;
  }

  /** Group B's costs: the worst fraction per probe, and the probes over budget. */
  method TallyGroup(runs: seq<Run>) returns (worst: map<string, real>, over: seq<string>)
    ensures worst == Worst(Costs(runs)) && over == OverIds(Costs(runs))
  {
    worst, over := map[], [];
    for i := 0 to |runs|
      invariant worst == Worst(Costs(runs[..i])) && over == OverIds(Costs(runs[..i]))
    {
      assert runs[..i + 1][..i] == runs[..i];
      worst, over := TallyCosts(worst, over, runs[i].probes, Costs(runs[..i]));
    }
    assert runs[..|runs|] == runs;
  }

  method Triad(a: seq<Run>, b: seq<Run>, cfg: Config) returns (r: Result<Report, Refusal>)
    ensures r == match Decide(a, b, cfg) case Ok(base) => Ok(Folded(base, Costs(b))) case Err(e) => Err(e)
  {
    var base := Ab(a, b, cfg);
    if base.Err? {
      return Err(base.error);
    }
    var worst, over := TallyGroup(b);
    var report := FoldCosts(base.value, worst, over, Costs(b));
    r := Ok(report);
  }

  /** Fold an overhead failure into the top-line verdict. */
  method FoldCosts(base: Outcome, worst: map<string, real>, over: seq<string>, ghost costs: seq<ProbeCost>)
      returns (report: Report)
    requires worst == Worst(costs) && over == OverIds(costs)
    ensures report == Folded(base, costs)
  {
    var verdict, notes := base.verdict, base.notes;
    if over != [] {
      if verdict != Dirtied {
        verdict := Fail;
      }
      notes := notes + [OverheadOverBudget];
    }
    report := Report(verdict, base, worst, over, notes);
  }

  // ---- what the report says -----------------------------------------------------------------

  /** A probe of some run of the group overran its budget. */
  ghost predicate SomeOverBudget(runs: seq<Run>)
  {
    exists r, i :: 0 <= r < |runs| && 0 <= i < |runs[r].probes| && runs[r].probes[i].overBudget
  }

  lemma {:induction false} OverIdsExactly(costs: seq<ProbeCost>, id: string)
    ensures id in OverIds(costs) <==> exists i :: 0 <= i < |costs| && costs[i].overBudget && CostId(costs[i]) == id
    ensures forall i, j :: 0 <= i < j < |OverIds(costs)| ==> OverIds(costs)[i] != OverIds(costs)[j]
  {
    if costs != [] {
      var n := |costs| - 1;
      OverIdsExactly(costs[..n], id);
      assert forall i :: 0 <= i < n ==> costs[..n][i] == costs[i];
      if exists i :: 0 <= i < |costs| && costs[i].overBudget && CostId(costs[i]) == id {
        var i :| 0 <= i < |costs| && costs[i].overBudget && CostId(costs[i]) == id;
        assert i < n ==> costs[..n][i].overBudget;
      }
    }
  }

  ghost predicate HasOver(costs: seq<ProbeCost>)
  {
    exists k :: 0 <= k < |costs| && costs[k].overBudget
  }

  lemma {:induction false} CostsReported(runs: seq<Run>)
    ensures HasOver(Costs(runs)) <==> SomeOverBudget(runs)
  {
    if runs != [] {
      var n := |runs| - 1;
      CostsReported(runs[..n]);
      OverInConcat(Costs(runs[..n]), runs[n].probes);
      OverInOneMore(runs[..n], runs[n]);
      assert runs == runs[..n] + [runs[n]];
    }
  }

  lemma OverInOneMore(runs: seq<Run>, run: Run)
    ensures SomeOverBudget(runs + [run]) <==> SomeOverBudget(runs) || HasOver(run.probes)
  {
    var all := runs + [run];
    if r, i :| 0 <= r < |runs| && 0 <= i < |runs[r].probes| && runs[r].probes[i].overBudget {
      assert all[r].probes[i].overBudget;
    }
    if k :| 0 <= k < |run.probes| && run.probes[k].overBudget {
      assert all[|runs|].probes[k].overBudget;
    }
  }

  lemma OverInConcat(x: seq<ProbeCost>, y: seq<ProbeCost>)
    ensures HasOver(x + y) <==> HasOver(x) || HasOver(y)
  {
    if k :| 0 <= k < |x| && x[k].overBudget {
      assert (x + y)[k] == x[k];
    }
    if k :| 0 <= k < |y| && y[k].overBudget {
      assert (x + y)[|x| + k] == y[k];
    }
  }

  lemma NoneOver(runs: seq<Run>)
    ensures OverIds(Costs(runs)) == [] <==> !SomeOverBudget(runs)
  {
    var costs := Costs(runs);
    CostsReported(runs);
    if k :| 0 <= k < |costs| && costs[k].overBudget {
      OverIdsExactly(costs, CostId(costs[k]));
    }
    if OverIds(costs) != [] {
      OverIdsExactly(costs, OverIds(costs)[0]);
    }
  }

  /** The triad is contaminated exactly when the A/B comparison is, and otherwise fails exactly
      when the comparison fails or some probe of group B is over budget. */
  lemma TriadVerdictExactly(a: seq<Run>, b: seq<Run>, cfg: Config)
    requires Decide(a, b, cfg).Ok?
    ensures var ab, report := Decide(a, b, cfg).value, Folded(Decide(a, b, cfg).value, Costs(b));
            && (report.verdict == Dirtied <==> ab.verdict == Dirtied)
            && (report.verdict == Fail <==> ab.verdict != Dirtied && (ab.verdict == Fail || SomeOverBudget(b)))
  {
    NoneOver(b);
  }

  /** `worst` bounds every cost of the probe `id`, and one of them attains it unless it is zero. */
  ghost predicate IsWorst(costs: seq<ProbeCost>, id: string, worst: real)
  {
    && 0.0 <= worst
    && (forall i :: 0 <= i < |costs| && CostId(costs[i]) == id ==> costs[i].steadyFraction <= worst)
    && (worst == 0.0 || exists i :: 0 <= i < |costs| && CostId(costs[i]) == id && costs[i].steadyFraction == worst)
  }

  /** A reported fraction bounds every cost of its probe and is attained, unless it is zero. */
  lemma {:induction false} WorstIsLargest(costs: seq<ProbeCost>, id: string)
    ensures id in Worst(costs) <==> exists i :: 0 <= i < |costs| && CostId(costs[i]) == id
    ensures id in Worst(costs) ==> IsWorst(costs, id, Worst(costs)[id])
  {
    if costs != [] {
      var n := |costs| - 1;
      WorstIsLargest(costs[..n], id);
      assert forall i :: 0 <= i < n ==> costs[..n][i] == costs[i];
      if i :| 0 <= i < |costs| && CostId(costs[i]) == id {
        assert i < n ==> CostId(costs[..n][i]) == id;
      }
      if id in Worst(costs[..n]) && Worst(costs[..n])[id] != 0.0 {
        var i :| 0 <= i < n && CostId(costs[..n][i]) == id && costs[..n][i].steadyFraction == Worst(costs[..n])[id];
        assert CostId(costs[i]) == id && costs[i].steadyFraction == Worst(costs[..n])[id];
      }
    }
  }

  /** A probe over budget that reports no id fails the triad, unless the comparison is
      contaminated, although it changes no metric of its run. */
  lemma UnnamedProbeOnlyFails(a: seq<Run>, b: seq<Run>, cfg: Config, r: nat, probe: ProbeCost)
    requires r < |b| && probe.probeId.None? && probe.overBudget
    requires Decide(a, b[r := b[r].(probes := b[r].probes + [probe])], cfg).Ok?
    ensures var more := b[r := b[r].(probes := b[r].probes + [probe])];
            var ab := Decide(a, more, cfg).value;
            && Metrics(more[r]) == Metrics(b[r])
            && Folded(ab, Costs(more)).verdict == if ab.verdict == Dirtied then Dirtied else Fail
  {
    var more := b[r := b[r].(probes := b[r].probes + [probe])];
    UnnamedProbeChangesNothing(b[r], probe);
    assert more[r].probes[|b[r].probes|] == probe;
    assert SomeOverBudget(more);
    NoneOver(more);
  }
}
