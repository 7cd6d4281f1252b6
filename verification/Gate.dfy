/** The decision gate: collecting samples, the A/B verdict and the subsystem triad. */
module Gate {
  import opened Options
  import opened RealSums
  import opened Reduce
  import S = Strings
  import T = PermutationTest

  datatype Config = Config(pThreshold: real, noiseThreshold: real, minEffect: real, resamples: nat, seed: nat,
                           ignore: seq<string>, allowUngraded: bool, strictSingleCell: bool)

  datatype Result<+T, +E> = Ok(value: T) | Err(error: E)

  // ---- collecting samples -------------------------------------------------------------------

  /** A metric with the parameter cell of the run it came from. */
  datatype Obs = Obs(cell: string, metric: Metric)

  function Tag(cell: string, metrics: seq<Metric>): (obs: seq<Obs>)
    ensures |obs| == |metrics| && forall i :: 0 <= i < |obs| ==> obs[i] == Obs(cell, metrics[i])
  {
    seq(|metrics|, i requires 0 <= i < |metrics| => Obs(cell, metrics[i]))
  }

  /** What one run reports. */
  function RunObs(run: Run): seq<Obs>
  {
    Tag(run.cell, Metrics(run))
  }

  function Gather(runs: seq<Run>, report: Run -> seq<Obs>): seq<Obs>
  {
    if runs == [] then [] else Gather(runs[..|runs| - 1], report) + report(runs[|runs| - 1])
  }

  /** Everything a group of runs reports, in order. */
  function Observations(runs: seq<Run>): seq<Obs>
  {
    Gather(runs, RunObs)
  }

  function Values(obs: seq<Obs>, id: string): seq<real>
  {
    if obs == [] then []
    else
      var last := obs[|obs| - 1].metric;
      Values(obs[..|obs| - 1], id) + if last.id == id then [last.value] else []
  }

  predicate Seen(obs: seq<Obs>, id: string)
  {
    exists j :: 0 <= j < |obs| && obs[j].metric.id == id
  }

  predicate Tainted(obs: seq<Obs>, id: string)
  {
    exists j :: 0 <= j < |obs| && obs[j].metric.id == id && obs[j].metric.contaminated
  }

  /** The polarity the first observation of an id carries. */
  function FirstPolarity(obs: seq<Obs>, id: string): Polarity
  {
    if obs == [] then Unknown
    else if Seen(obs[..|obs| - 1], id) then FirstPolarity(obs[..|obs| - 1], id)
    else if obs[|obs| - 1].metric.id == id then obs[|obs| - 1].metric.polarity
    else Unknown
  }

  /** The distinct cells an id was seen in, in order of first appearance. */
  function Cells(obs: seq<Obs>, id: string): seq<string>
  {
    if obs == [] then []
    else
      var before, last := Cells(obs[..|obs| - 1], id), obs[|obs| - 1];
      if last.metric.id == id && last.cell !in before then before + [last.cell] else before
  }

  /** The distinct ids, in sorted order. */
  function Ids(obs: seq<Obs>): (ids: seq<string>)
    ensures forall id :: id in ids <==> Seen(obs, id)
  {
    if obs == [] then []
    else
      var n := |obs| - 1;
      var before := Ids(obs[..n]);
      assert forall id :: Seen(obs, id) <==> Seen(obs[..n], id) || obs[n].metric.id == id by {
        SeenOneMore(obs[..n], obs[n]);
        assert obs == obs[..n] + [obs[n]];
      }
      if obs[n].metric.id in before then before else S.Insert(obs[n].metric.id, before)
  }

  lemma SeenOneMore(obs: seq<Obs>, o: Obs)
    ensures forall id :: Seen(obs + [o], id) <==> Seen(obs, id) || o.metric.id == id
  {
    var all := obs + [o];
    forall id ensures Seen(all, id) <==> Seen(obs, id) || o.metric.id == id {
      if Seen(obs, id) {
        var j :| 0 <= j < |obs| && obs[j].metric.id == id;
        assert all[j].metric.id == id;
      }
      if o.metric.id == id {
        assert all[|obs|].metric.id == id;
      }
    }
  }

  datatype Group = Group(ids: seq<string>, samples: map<string, seq<real>>, contaminated: map<string, bool>,
                         polarity: map<string, Polarity>, cells: map<string, seq<string>>)

  /** What a group's tables hold for one id. */
  ghost predicate SummaryAt(g: Group, obs: seq<Obs>, id: string)
  {
    && (id in g.samples <==> Seen(obs, id))
    && (id in g.contaminated <==> Seen(obs, id))
    && (id in g.polarity <==> Seen(obs, id))
    && (id in g.cells <==> Seen(obs, id))
    && (Seen(obs, id) ==>
          && g.samples[id] == Values(obs, id)
          && g.contaminated[id] == Tainted(obs, id)
          && g.polarity[id] == FirstPolarity(obs, id)
          && g.cells[id] == Cells(obs, id))
  }

  ghost predicate Summarises(g: Group, obs: seq<Obs>)
  {
    g.ids == Ids(obs) && forall id :: SummaryAt(g, obs, id)
  }

  function Get<V>(m: map<string, V>, id: string, fallback: V): V
  {
    if id in m then m[id] else fallback
  }

  /** One round of the collecting loop. */
  method Add(g: Group, o: Obs, ghost obs: seq<Obs>) returns (r: Group)
    requires Summarises(g, obs)
    ensures Summarises(r, obs + [o])
  {
    hide Seen, Values, Tainted, FirstPolarity, Cells, Ids;
    var id := o.metric.id;
    var samples := g.samples[id := Get(g.samples, id, []) + [o.metric.value]];
    var contaminated := g.contaminated[id := Get(g.contaminated, id, false) || o.metric.contaminated];
    var polarity := g.polarity[id := Get(g.polarity, id, o.metric.polarity)];
    var cells := Get(g.cells, id, []);
    if o.cell !in cells {
      cells := cells + [o.cell];
    }
    assert SummaryAt(g, obs, id);
    var ids := if id in g.samples then g.ids else S.Insert(id, g.ids);
    r := Group(ids, samples, contaminated, polarity, g.cells[id := cells]);
    FoldsOneMore(obs, o);
    forall x ensures SummaryAt(r, obs + [o], x) {
      assert SummaryAt(g, obs, x);
      AtOneMore(obs, o, x);
      if !Seen(obs, x) {
        NothingUnseen(obs, x);
      }
    }
  }

  lemma FoldsOneMore(obs: seq<Obs>, o: Obs)
    ensures Ids(obs + [o]) == if o.metric.id in Ids(obs) then Ids(obs) else S.Insert(o.metric.id, Ids(obs))
  {
    assert (obs + [o])[..|obs|] == obs;
  }

  lemma AtOneMore(obs: seq<Obs>, o: Obs, id: string)
    ensures Seen(obs + [o], id) <==> Seen(obs, id) || o.metric.id == id
    ensures Values(obs + [o], id) == Values(obs, id) + if o.metric.id == id then [o.metric.value] else []
    ensures Tainted(obs + [o], id) <==> Tainted(obs, id) || (o.metric.id == id && o.metric.contaminated)
    ensures FirstPolarity(obs + [o], id) ==
            if Seen(obs, id) then FirstPolarity(obs, id) else if o.metric.id == id then o.metric.polarity else Unknown
    ensures Cells(obs + [o], id) ==
            if o.metric.id == id && o.cell !in Cells(obs, id) then Cells(obs, id) + [o.cell] else Cells(obs, id)
  {
    assert (obs + [o])[..|obs|] == obs;
    SeenOneMore(obs, o);
    TaintedConcat(obs, [o], id);
    assert [o][0] == o;
  }

  lemma TaintedConcat(x: seq<Obs>, y: seq<Obs>, id: string)
    ensures Tainted(x + y, id) <==> Tainted(x, id) || Tainted(y, id)
  {
    if Tainted(x, id) {
      var j :| 0 <= j < |x| && x[j].metric.id == id && x[j].metric.contaminated;
      assert (x + y)[j] == x[j];
    }
    if Tainted(y, id) {
      var j :| 0 <= j < |y| && y[j].metric.id == id && y[j].metric.contaminated;
      assert (x + y)[|x| + j] == y[j];
    }
  }

  lemma {:induction false} NothingUnseen(obs: seq<Obs>, id: string)
    requires !Seen(obs, id)
    ensures Values(obs, id) == [] && Cells(obs, id) == [] && !Tainted(obs, id)
  {
    if obs != [] {
      var n := |obs| - 1;
      SeenOneMore(obs[..n], obs[n]);
      assert obs == obs[..n] + [obs[n]];
      NothingUnseen(obs[..n], id);
    }
  }

  /** `collect`: the samples, contamination, polarity and cells of every id a group reports. */
  method Collect(runs: seq<Run>) returns (g: Group)
    ensures Summarises(g, Observations(runs))
  {
    g := Group([], map[], map[], map[], map[]);
    for r := 0 to |runs|
      invariant Summarises(g, Observations(runs[..r]))
    {
      assert runs[..r + 1][..r] == runs[..r];
      var metrics := ReduceRun(runs[r]);
      g := CollectMetrics(g, runs[r].cell, metrics, Observations(runs[..r]));
    }
    assert runs[..|runs|] == runs;
  }

  method CollectMetrics(before: Group, cell: string, metrics: seq<Metric>, ghost obs: seq<Obs>) returns (g: Group)
    requires Summarises(before, obs)
    ensures Summarises(g, obs + Tag(cell, metrics))
  {
    ghost var more := Tag(cell, metrics);
    g := before;
    NothingAppended(obs, more);
    for m := 0 to |metrics|
      invariant Summarises(g, obs + more[..m])
    {
      g := Add(g, Obs(cell, metrics[m]), obs + more[..m]);
      AppendOneMore(obs, more, m);
    }
    assert more[..|metrics|] == more;
  }

  lemma NothingAppended<T>(a: seq<T>, b: seq<T>)
    ensures a + b[..0] == a
  {
  }

  lemma AppendOneMore<T>(a: seq<T>, b: seq<T>, i: nat)
    requires i < |b|
    ensures a + b[..i] + [b[i]] == a + b[..i + 1]
  {
  }

  // ---- admission ------------------------------------------------------------------------------

  datatype Side = A | B

  datatype Note = AdmittedAt(side: Side, grade: string) | SingleCellOnly(ids: seq<string>) | OverheadOverBudget

  datatype Refusal = BadGrade(side: Side, grade: string) | MixedTenancy(classes: set<string>) | NothingComparable

  const REPRODUCIBLE := "reproducible"

  /** The run's own grade; without one it is valid if its core fingerprint is known. */
  function GradeOf(run: Run): (g: string)
    ensures run.grade == Some(g) || (run.grade.None? && g != REPRODUCIBLE)
    ensures run.grade.None? ==> (g == "valid" <==> run.fingerprint.Some? && run.fingerprint.value.coreKnown)
  {
    if run.grade.Some? then run.grade.value
    else if run.fingerprint.Some? && run.fingerprint.value.coreKnown then "valid"
    else "invalid"
  }

  function TenancyOf(run: Run): Option<string>
  {
    if run.fingerprint.Some? then run.fingerprint.value.tenancy else None
  }

  /** No run of the group is refused for its grade. */
  predicate GradesPass(runs: seq<Run>, allow: bool)
  {
    allow || forall i :: 0 <= i < |runs| ==> GradeOf(runs[i]) == REPRODUCIBLE
  }

  function Tenancies(runs: seq<Run>): set<string>
  {
    set i | 0 <= i < |runs| && TenancyOf(runs[i]).Some? :: TenancyOf(runs[i]).value
  }

  function GradeNotes(side: Side, runs: seq<Run>): seq<Note>
  {
    if runs == [] then []
    else
      var g := GradeOf(runs[|runs| - 1]);
      GradeNotes(side, runs[..|runs| - 1]) + if g != REPRODUCIBLE then [AdmittedAt(side, g)] else []
  }

  /** The grade of the first run that is not reproducible. */
  function FirstBadGrade(runs: seq<Run>): (g: Option<string>)
    ensures g.None? <==> GradesPass(runs, false)
    ensures g.Some? ==> g.value != REPRODUCIBLE
  {
    if runs == [] then None
    else if GradeOf(runs[0]) != REPRODUCIBLE then Some(GradeOf(runs[0]))
    else
      assert forall i :: 1 <= i < |runs| ==> runs[i] == runs[1..][i - 1];
      FirstBadGrade(runs[1..])
  }

  /** The check of one group: the first refused grade, or the group's notes and tenancies. */
  method ValidateGroup(side: Side, runs: seq<Run>, allow: bool)
      returns (refused: Option<string>, notes: seq<Note>, tenancies: set<string>)
    ensures refused == if allow then None else FirstBadGrade(runs)
    ensures refused.None? ==> notes == GradeNotes(side, runs) && tenancies == Tenancies(runs)
  {
    notes, tenancies := [], {};
    for i := 0 to |runs|
      invariant allow || FirstBadGrade(runs) == FirstBadGrade(runs[i..])
      invariant notes == GradeNotes(side, runs[..i]) && tenancies == Tenancies(runs[..i])
    {
      var g := GradeOf(runs[i]);
      assert runs[i..][0] == runs[i] && runs[i..][1..] == runs[i + 1..];
      if g != REPRODUCIBLE && !allow {
        return Some(g), notes, tenancies;
      }
      notes, tenancies := AdmitRun(side, runs, i, notes, tenancies);
    }
    assert runs[..|runs|] == runs && runs[|runs|..] == [];
    refused := None;
  }

  method AdmitRun(side: Side, runs: seq<Run>, i: nat, before: seq<Note>, classes: set<string>)
      returns (notes: seq<Note>, tenancies: set<string>)
    requires i < |runs| && before == GradeNotes(side, runs[..i]) && classes == Tenancies(runs[..i])
    ensures notes == GradeNotes(side, runs[..i + 1]) && tenancies == Tenancies(runs[..i + 1])
  {
    assert runs[..i + 1][..i] == runs[..i];
    var g := GradeOf(runs[i]);
    notes := before + if g != REPRODUCIBLE then [AdmittedAt(side, g)] else [];
    TenanciesOneMore(runs, i);
    tenancies := classes + if TenancyOf(runs[i]).Some? then {TenancyOf(runs[i]).value} else {};
  }

  lemma TenanciesOneMore(runs: seq<Run>, i: nat)
    requires i < |runs|
    ensures Tenancies(runs[..i + 1])
         == Tenancies(runs[..i]) + if TenancyOf(runs[i]).Some? then {TenancyOf(runs[i]).value} else {}
  {
    var more, less := runs[..i + 1], runs[..i];
    forall t | t in Tenancies(less) ensures t in Tenancies(more) {
      var j :| 0 <= j < |less| && TenancyOf(less[j]) == Some(t);
      assert more[j] == less[j];
    }
    forall t | t in Tenancies(more) ensures t in Tenancies(less) || TenancyOf(runs[i]) == Some(t) {
      var j :| 0 <= j < |more| && TenancyOf(more[j]) == Some(t);
      assert j < i ==> less[j] == more[j];
    }
    if TenancyOf(runs[i]).Some? {
      assert more[i] == runs[i];
    }
  }

  /** Fit for a gated comparison: admissible grades, and at most one tenancy class. */
  predicate Admissible(a: seq<Run>, b: seq<Run>, cfg: Config)
  {
    GradesPass(a, cfg.allowUngraded) && GradesPass(b, cfg.allowUngraded) && |Tenancies(a) + Tenancies(b)| <= 1
  }

  /** The two runs do not state different tenancies. */
  predicate NoClash(r: Run, s: Run)
  {
    TenancyOf(r).Some? && TenancyOf(s).Some? ==> TenancyOf(r) == TenancyOf(s)
  }

  /** At most one tenancy class means that no two runs state different ones. */
  lemma OneTenancyClass(a: seq<Run>, b: seq<Run>)
    ensures |Tenancies(a) + Tenancies(b)| <= 1 <==>
            forall i, j :: 0 <= i < |a + b| && 0 <= j < |a + b| ==> NoClash((a + b)[i], (a + b)[j])
  {
    var all := Tenancies(a) + Tenancies(b);
    assert forall t :: t in all <==> exists i :: 0 <= i < |a + b| && TenancyOf((a + b)[i]) == Some(t) by {
      forall t ensures t in all <==> exists i :: 0 <= i < |a + b| && TenancyOf((a + b)[i]) == Some(t) {
        TenancyIn(a, b, t);
      }
    }
    AtMostOne(all);
  }

  lemma TenancyIn(a: seq<Run>, b: seq<Run>, t: string)
    ensures t in Tenancies(a) + Tenancies(b) <==> exists i :: 0 <= i < |a + b| && TenancyOf((a + b)[i]) == Some(t)
  {
    if t in Tenancies(a) {
      var i :| 0 <= i < |a| && TenancyOf(a[i]) == Some(t);
      assert (a + b)[i] == a[i];
    }
    if t in Tenancies(b) {
      var i :| 0 <= i < |b| && TenancyOf(b[i]) == Some(t);
      assert (a + b)[|a| + i] == b[i];
    }
  }

  lemma AtMostOne(s: set<string>)
    ensures |s| <= 1 <==> forall x, y :: x in s && y in s ==> x == y
  {
    if s != {} {
      var x :| x in s;
      assert |s| == 1 + |s - {x}|;
      if |s - {x}| > 0 {
        var y :| y in s - {x};
      }
    }
  }

  method Validate(a: seq<Run>, b: seq<Run>, cfg: Config) returns (r: Result<seq<Note>, Refusal>)
    ensures r == if Admissible(a, b, cfg) then Ok(GradeNotes(A, a) + GradeNotes(B, b)) else Err(Refused(a, b, cfg))
  {
    var refusedA, notesA, tenA := ValidateGroup(A, a, cfg.allowUngraded);
    if refusedA.Some? {
      return Err(BadGrade(A, refusedA.value));
    }
    var refusedB, notesB, tenB := ValidateGroup(B, b, cfg.allowUngraded);
    if refusedB.Some? {
      return Err(BadGrade(B, refusedB.value));
    }
    if |tenA + tenB| > 1 {
      return Err(MixedTenancy(tenA + tenB));
    }
    r := Ok(notesA + notesB);
  }

  function Refused(a: seq<Run>, b: seq<Run>, cfg: Config): Refusal
  {
    if !GradesPass(a, cfg.allowUngraded) then BadGrade(A, FirstBadGrade(a).value)
    else if !GradesPass(b, cfg.allowUngraded) then BadGrade(B, FirstBadGrade(b).value)
    else MixedTenancy(Tenancies(a) + Tenancies(b))
  }

  // ---- judging one metric ------------------------------------------------------------------------

  datatype Status = Ignored | Contaminated | Stable | Regressed | Improved | Changed

  datatype Detail = Detail(id: string, status: Status, meanA: real, meanB: real, rel: real, p: real, covSquared: real,
                           significant: bool, noisy: bool, nA: nat, nB: nat, cells: seq<string>)

  function BadDirection(polarity: Polarity, rel: real): Option<bool>
  {
    match polarity
    case LowerBetter => Some(rel > 0.0)
    case HigherBetter => Some(rel < 0.0)
    case Unknown => None
  }

  /** The relative change of the mean. */
  function RelDelta(ma: real, mb: real): real
  {
    if ma != 0.0 then (mb - ma) / ma else if mb == 0.0 then 0.0 else 1.0
  }

  function Square(x: real): real
  {
    x * x
  }

  /** The squared distances from `m`. */
  function Squares(xs: seq<real>, m: real): (out: seq<real>)
    ensures |out| == |xs| && forall i :: 0 <= i < |xs| ==> out[i] == Square(xs[i] - m)
  {
    seq(|xs|, i requires 0 <= i < |xs| => Square(xs[i] - m))
  }

  /** The sample variance, 0 for fewer than two values. */
  function Variance(xs: seq<real>): real
  {
    if |xs| < 2 then 0.0 else Sum(Squares(xs, Mean(xs))) / (|xs| as real - 1.0)
  }

  /** It is the sum of squares less n times the squared mean, over n - 1. */
  lemma VarianceClosed(xs: seq<real>)
    requires |xs| >= 2
    ensures Variance(xs) * (|xs| as real - 1.0) == Sum(Squares(xs, 0.0)) - (|xs| as real) * (Mean(xs) * Mean(xs))
  {
    var n, m := |xs| as real, Mean(xs);
    SquaresAbout(xs, m);
    TimesQuotient(Sum(Squares(xs, m)), n - 1.0);
    TimesQuotient(Sum(xs), n);
    MeanTimesSum(n, m, Sum(xs));
  }

  lemma TimesQuotient(x: real, n: real)
    requires n > 0.0
    ensures x / n * n == x
  {}

  lemma MeanTimesSum(n: real, m: real, sum: real)
    requires m * n == sum
    ensures -2.0 * (m * sum) + n * (m * m) == -(n * (m * m))
  {
    assert m * (m * n) == n * (m * m);
  }

  lemma {:induction false} SquaresAbout(xs: seq<real>, m: real)
    ensures Sum(Squares(xs, m)) == Expanded(Sum(Squares(xs, 0.0)), Sum(xs), |xs| as real, m)
  {
    if xs != [] {
      var n := |xs| - 1;
      SquaresAbout(xs[..n], m);
      assert Squares(xs, m)[..n] == Squares(xs[..n], m) && Squares(xs, 0.0)[..n] == Squares(xs[..n], 0.0);
      ExpandedOneMore(Sum(Squares(xs[..n], 0.0)), Sum(xs[..n]), n as real, m, xs[n]);
    }
  }

  /** The sum of `n` squared distances from `m`, out of the sums of squares and of values. */
  function Expanded(squares: real, sum: real, n: real, m: real): real
  {
    squares - 2.0 * (m * sum) + n * (m * m)
  }

  lemma ExpandedOneMore(squares: real, sum: real, n: real, m: real, x: real)
    ensures Expanded(squares + Square(x - 0.0), sum + x, n + 1.0, m) == Expanded(squares, sum, n, m) + Square(x - m)
  {
    assert m * (sum + x) == m * sum + m * x;
    assert (n + 1.0) * (m * m) == n * (m * m) + m * m;
    assert Square(x - m) == x * x - 2.0 * (m * x) + m * m;
  }

  /** The square of one group's coefficient of variation, 0 if the mean is. */
  function CovSquared(xs: seq<real>): real
  {
    var m := Square(Mean(xs));
    if Mean(xs) == 0.0 || m == 0.0 then 0.0 else Variance(xs) / m
  }

  /** The square of `within_cov`: the larger of the two groups' own. */
  function WithinCovSquared(xs: seq<real>, ys: seq<real>): real
  {
    if CovSquared(xs) >= CovSquared(ys) then CovSquared(xs) else CovSquared(ys)
  }

  /** The noise exceeds `t`, compared by squares. */
  predicate Noisy(xs: seq<real>, ys: seq<real>, t: real)
  {
    t < 0.0 || WithinCovSquared(xs, ys) > Square(t)
  }

  /** For a deviation that is the root of the variance, the ratio to the mean is the root of
      `CovSquared`. */
  lemma CovIsRatio(xs: seq<real>, deviation: real)
    requires Square(deviation) == Variance(xs) && Mean(xs) != 0.0
    ensures Square(deviation / Abs(Mean(xs))) == CovSquared(xs)
  {
    var m := Abs(Mean(xs));
    assert Square(m) == Square(Mean(xs));
    SquareOfRatio(deviation, m);
  }

  lemma SquareOfRatio(x: real, m: real)
    requires m > 0.0
    ensures Square(m) > 0.0 && Square(x / m) == Square(x) / Square(m)
  {
    var q := x / m;
    assert x == q * m;
    ProductSquared(q, m);
  }

  lemma ProductSquared(q: real, m: real)
    requires m > 0.0
    ensures Square(m) > 0.0 && Square(q * m) == Square(q) * Square(m)
  {
    var qm := q * m;
    assert qm * qm == q * (m * qm);
    assert m * qm == m * m * q;
    assert q * (m * m * q) == q * q * (m * m);
    SquareGrows(0.0, m);
  }

  /** The larger root is the root of the larger square, and comparing it with the threshold is
      comparing squares. */
  lemma NoisyByRoot(xs: seq<real>, ys: seq<real>, covX: real, covY: real, t: real)
    requires covX >= 0.0 && covY >= 0.0 && Square(covX) == CovSquared(xs) && Square(covY) == CovSquared(ys)
    ensures var cov := if covX >= covY then covX else covY;
            Square(cov) == WithinCovSquared(xs, ys) && (Noisy(xs, ys, t) <==> cov > t)
  {
    LargerRoot(covX, covY, t);
  }

  lemma LargerRoot(x: real, y: real, t: real)
    requires x >= 0.0 && y >= 0.0
    ensures var larger := if x >= y then x else y;
            && Square(larger) == (if Square(x) >= Square(y) then Square(x) else Square(y))
            && ((t < 0.0 || Square(larger) > Square(t)) <==> larger > t)
  {
    SquaresOrder(x, y);
    SquaresOrder(y, x);
    if t >= 0.0 {
      SquaresOrder(t, if x >= y then x else y);
    }
  }

  lemma SquaresOrder(x: real, y: real)
    requires x >= 0.0 && y >= 0.0
    ensures y > x <==> Square(y) > Square(x)
  {
    if y > x {
      SquareGrows(x, y);
    } else if y < x {
      SquareGrows(y, x);
    }
  }

  lemma SquareGrows(x: real, y: real)
    requires 0.0 <= x < y
    ensures Square(x) < Square(y)
  {
    var d := y - x;
    assert Square(y) == Square(x) + 2.0 * (x * d) + d * d;
    assert x * d >= 0.0 && d * d > 0.0;
  }

  predicate IsIgnored(id: string, patterns: seq<string>)
  {
    exists i :: 0 <= i < |patterns| && S.Contains(id, patterns[i])
  }

  /** An id is ignored exactly when some pattern occurs in it, somewhere and as it stands. */
  lemma IgnoredExactly(id: string, patterns: seq<string>)
    ensures IsIgnored(id, patterns) <==>
            exists i, k: nat :: 0 <= i < |patterns| && S.OccursAt(id, patterns[i], k)
  {
    forall i | 0 <= i < |patterns|
      ensures S.Contains(id, patterns[i]) <==> exists k: nat :: S.OccursAt(id, patterns[i], k)
    {
      S.ContainsExactly(id, patterns[i]);
    }
  }

  function StatusOf(ignored: bool, dirty: bool, significant: bool, strong: bool, noisy: bool,
                    bad: Option<bool>): Status
  {
    if ignored then Ignored
    else if dirty then Contaminated
    else if !significant || !strong || noisy then Stable
    else match bad
      case Some(worse) => if worse then Regressed else Improved
      case None => Changed
  }

  /** How one metric is judged from its samples. */
  function Judge(id: string, xs: seq<real>, ys: seq<real>, dirty: bool, polarity: Polarity, cells: seq<string>,
                 cfg: Config): Detail
  {
    var rel := RelDelta(Mean(xs), Mean(ys));
    var p := T.PValue(xs, ys, cfg.resamples, cfg.seed);
    var significant := p < cfg.pThreshold;
    var noisy := Noisy(xs, ys, cfg.noiseThreshold);
    var status := StatusOf(IsIgnored(id, cfg.ignore), dirty, significant, Abs(rel) >= cfg.minEffect, noisy,
                           BadDirection(polarity, rel));
    Detail(id, status, Mean(xs), Mean(ys), rel, p, WithinCovSquared(xs, ys), significant, noisy, |xs|, |ys|, cells)
  }

  method JudgeMetric(id: string, xs: seq<real>, ys: seq<real>, dirty: bool, polarity: Polarity, cells: seq<string>,
                     cfg: Config) returns (d: Detail)
    ensures d == Judge(id, xs, ys, dirty, polarity, cells, cfg)
  {
    var ignored := IsIgnored(id, cfg.ignore);
    var ma, mb := Mean(xs), Mean(ys);
    var rel := RelDelta(ma, mb);
    var p := T.PermutationP(xs, ys, cfg.resamples, cfg.seed);
    var noisy := Noisy(xs, ys, cfg.noiseThreshold);
    var significant := p < cfg.pThreshold;
    var status := StatusOf(ignored, dirty, significant, Abs(rel) >= cfg.minEffect, noisy, BadDirection(polarity, rel));
    d := Detail(id, status, ma, mb, rel, p, WithinCovSquared(xs, ys), significant, noisy, |xs|, |ys|, cells);
  }

  // ---- the A/B verdict ----------------------------------------------------------------------------

  /** At least two samples of the id in each group. */
  predicate Comparable(oa: seq<Obs>, ob: seq<Obs>, id: string)
  {
    |Values(oa, id)| >= 2 && |Values(ob, id)| >= 2
  }

  function DetailOf(oa: seq<Obs>, ob: seq<Obs>, id: string, cfg: Config): Detail
  {
    Judge(id, Values(oa, id), Values(ob, id), Tainted(oa, id) || Tainted(ob, id), FirstPolarity(oa, id),
          Cells(oa, id), cfg)
  }

  /** The details of the ids worth comparing, in order. */
  function Details(ids: seq<string>, comparable: string -> bool, judge: string -> Detail): seq<Detail>
  {
    if ids == [] then []
    else
      var id := ids[|ids| - 1];
      Details(ids[..|ids| - 1], comparable, judge) + if comparable(id) then [judge(id)] else []
  }

  function ComparableIn(oa: seq<Obs>, ob: seq<Obs>): string -> bool
  {
    id => Comparable(oa, ob, id)
  }

  function JudgeIn(oa: seq<Obs>, ob: seq<Obs>, cfg: Config): string -> Detail
  {
    id => DetailOf(oa, ob, id, cfg)
  }

  predicate Any(ds: seq<Detail>, status: Status)
  {
    exists k :: 0 <= k < |ds| && ds[k].status == status
  }

  function SingleCell(ds: seq<Detail>): seq<string>
  {
    if ds == [] then []
    else
      var d := ds[|ds| - 1];
      SingleCell(ds[..|ds| - 1]) + if d.status == Regressed && |d.cells| < 2 then [d.id] else []
  }

  datatype Entry = Entry(delta: real, p: real, significant: bool, noisy: bool)

  function PerMetric(ds: seq<Detail>): map<string, Entry>
  {
    if ds == [] then map[]
    else
      var d := ds[|ds| - 1];
      PerMetric(ds[..|ds| - 1])[d.id := Entry(d.rel, d.p, d.significant, d.noisy)]
  }

  datatype Verdict = Pass | Fail | Dirtied

  datatype Outcome = Outcome(verdict: Verdict, perMetric: map<string, Entry>, detail: seq<Detail>, notes: seq<Note>)

  function VerdictOf(ds: seq<Detail>): Verdict
  {
    if Any(ds, Contaminated) then Dirtied else if Any(ds, Regressed) then Fail else Pass
  }

  function ExtraNotes(ds: seq<Detail>, cfg: Config): seq<Note>
  {
    if VerdictOf(ds) == Fail && SingleCell(ds) != [] && !cfg.strictSingleCell then
      [SingleCellOnly(SingleCell(ds))]
    else []
  }

  function AllDetails(a: seq<Run>, b: seq<Run>, cfg: Config): seq<Detail>
  {
    var oa, ob := Observations(a), Observations(b);
    Details(Ids(oa), ComparableIn(oa, ob), JudgeIn(oa, ob, cfg))
  }

  function Conclusion(ds: seq<Detail>, notes: seq<Note>, cfg: Config): Result<Outcome, Refusal>
  {
    if ds == [] then Err(NothingComparable)
    else Ok(Outcome(VerdictOf(ds), PerMetric(ds), ds, notes + ExtraNotes(ds, cfg)))
  }

  /** The result of `ab`. */
  function Decide(a: seq<Run>, b: seq<Run>, cfg: Config): Result<Outcome, Refusal>
  {
    if !Admissible(a, b, cfg) then Err(Refused(a, b, cfg))
    else Conclusion(AllDetails(a, b, cfg), GradeNotes(A, a) + GradeNotes(B, b), cfg)
  }

  /** The state of the loop over A's ids. */
  datatype Tally = Tally(perMetric: map<string, Entry>, detail: seq<Detail>, anyContaminated: bool,
                         anyRegressed: bool, singleCell: seq<string>)

  ghost predicate Tallied(t: Tally, ds: seq<Detail>)
  {
    && t.detail == ds
    && t.perMetric == PerMetric(ds)
    && (t.anyContaminated <==> Any(ds, Contaminated))
    && (t.anyRegressed <==> Any(ds, Regressed))
    && t.singleCell == SingleCell(ds)
  }

  method TallyOne(t: Tally, d: Detail, ghost ds: seq<Detail>) returns (r: Tally)
    requires Tallied(t, ds)
    ensures Tallied(r, ds + [d])
  {
    var more := d.status == Regressed && |d.cells| < 2;
    r := Tally(t.perMetric[d.id := Entry(d.rel, d.p, d.significant, d.noisy)], t.detail + [d],
               t.anyContaminated || d.status == Contaminated, t.anyRegressed || d.status == Regressed,
               if more then t.singleCell + [d.id] else t.singleCell);
    AnyOneMore(ds, d, Contaminated);
    AnyOneMore(ds, d, Regressed);
    TablesOneMore(ds, d);
  }

  lemma TablesOneMore(ds: seq<Detail>, d: Detail)
    ensures PerMetric(ds + [d]) == PerMetric(ds)[d.id := Entry(d.rel, d.p, d.significant, d.noisy)]
    ensures SingleCell(ds + [d]) == SingleCell(ds) + if d.status == Regressed && |d.cells| < 2 then [d.id] else []
  {
    assert (ds + [d])[..|ds|] == ds;
  }

  lemma AnyOneMore(ds: seq<Detail>, d: Detail, status: Status)
    ensures Any(ds + [d], status) <==> Any(ds, status) || d.status == status
  {
    if Any(ds, status) {
      var k :| 0 <= k < |ds| && ds[k].status == status;
      assert (ds + [d])[k] == ds[k];
    }
    assert (ds + [d])[|ds|] == d;
  }

  /** One id of group A: its detail, if both groups have two samples of it. */
  method JudgeOne(ga: Group, gb: Group, id: string, ghost oa: seq<Obs>, ghost ob: seq<Obs>, cfg: Config)
      returns (d: Option<Detail>)
    requires Summarises(ga, oa) && Summarises(gb, ob) && Seen(oa, id)
    ensures d == if Comparable(oa, ob, id) then Some(DetailOf(oa, ob, id, cfg)) else None
  {
    assert SummaryAt(ga, oa, id) && SummaryAt(gb, ob, id);
    if id !in gb.samples {
      NothingUnseen(ob, id);
      return None;
    }
    if |ga.samples[id]| < 2 || |gb.samples[id]| < 2 {
      return None;
    }
    var detail := JudgeMetric(id, ga.samples[id], gb.samples[id], ga.contaminated[id] || gb.contaminated[id],
                              ga.polarity[id], ga.cells[id], cfg);
    return Some(detail);
  }

  lemma DetailsOneMore(ids: seq<string>, i: nat, comparable: string -> bool, judge: string -> Detail)
    requires i < |ids|
    ensures Details(ids[..i + 1], comparable, judge)
         == if comparable(ids[i]) then Details(ids[..i], comparable, judge) + [judge(ids[i])]
            else Details(ids[..i], comparable, judge)
  {
    assert ids[..i + 1][..i] == ids[..i];
  }

  /** The loop of `ab` over the ids of group A. */
  method JudgeAll(ga: Group, gb: Group, ghost oa: seq<Obs>, ghost ob: seq<Obs>, cfg: Config) returns (t: Tally)
    requires Summarises(ga, oa) && Summarises(gb, ob)
    ensures Tallied(t, Details(Ids(oa), ComparableIn(oa, ob), JudgeIn(oa, ob, cfg)))
  {
    t := Tally(map[], [], false, false, []);
    ghost var comparable, judge := ComparableIn(oa, ob), JudgeIn(oa, ob, cfg);
    for i := 0 to |ga.ids|
      invariant Tallied(t, Details(ga.ids[..i], comparable, judge))
    {
      assert ga.ids[i] in Ids(oa);
      var d := JudgeOne(ga, gb, ga.ids[i], oa, ob, cfg);
      DetailsOneMore(ga.ids, i, comparable, judge);
      if d.Some? {
        t := TallyOne(t, d.value, Details(ga.ids[..i], comparable, judge));
      }
    }
    assert ga.ids[..|ga.ids|] == ga.ids;
  }

  method Ab(a: seq<Run>, b: seq<Run>, cfg: Config) returns (r: Result<Outcome, Refusal>)
    ensures r == Decide(a, b, cfg)
  {
    var admitted := Validate(a, b, cfg);
    if admitted.Err? {
      return Err(admitted.error);
    }
    var ga := Collect(a);
    var gb := Collect(b);
    var t := JudgeAll(ga, gb, Observations(a), Observations(b), cfg);
    r := Conclude(t, admitted.value, cfg, AllDetails(a, b, cfg));
  }

  method Conclude(t: Tally, admitted: seq<Note>, cfg: Config, ghost ds: seq<Detail>)
      returns (r: Result<Outcome, Refusal>)
    requires Tallied(t, ds)
    ensures r == Conclusion(ds, admitted, cfg)
  {
    if |t.detail| == 0 {
      return Err(NothingComparable);
    }
    var notes := admitted;
    var verdict := if t.anyContaminated then Dirtied else if t.anyRegressed then Fail else Pass;
    if verdict == Fail && t.singleCell != [] && !cfg.strictSingleCell {
      notes := notes + [SingleCellOnly(t.singleCell)];
    }
    assert ExtraNotes(ds, cfg) == [] ==> admitted + ExtraNotes(ds, cfg) == admitted;
    r := Ok(Outcome(verdict, t.perMetric, t.detail, notes));
  }
}
