/** The drift trend: ordinary least squares over the index. */
module Trend {
  import opened RealSums

  function Square(x: real): real
  {
    x * x
  }

  // ---- vectors ------------------------------------------------------------------------

  function Dot(u: seq<real>, v: seq<real>): real
    requires |u| == |v|
  {
    if u == [] then 0.0 else Dot(u[..|u| - 1], v[..|v| - 1]) + u[|u| - 1] * v[|v| - 1]
  }

  /** The indices 0..n as reals. */
  function Indices(n: nat): (xs: seq<real>)
    ensures |xs| == n && forall i :: 0 <= i < n ==> xs[i] == i as real
  {
    seq(n, i requires 0 <= i < n => i as real)
  }

  function Shifted(xs: seq<real>, m: real): (ds: seq<real>)
    ensures |ds| == |xs| && forall i :: 0 <= i < |xs| ==> ds[i] == xs[i] - m
  {
    seq(|xs|, i requires 0 <= i < |xs| => xs[i] - m)
  }

  /** `w == u + c * v`, entry by entry. */
  ghost predicate Combines(w: seq<real>, u: seq<real>, c: real, v: seq<real>)
  {
    |w| == |u| == |v| && forall i :: 0 <= i < |w| ==> w[i] == u[i] + c * v[i]
  }

  function Scaled(c: real, v: seq<real>): (cv: seq<real>)
    ensures |cv| == |v| && forall i :: 0 <= i < |v| ==> cv[i] == c * v[i]
  {
    seq(|v|, i requires 0 <= i < |v| => c * v[i])
  }

  /** `w == u + v`, entry by entry. */
  ghost predicate Adds(w: seq<real>, u: seq<real>, v: seq<real>)
  {
    |w| == |u| == |v| && forall i :: 0 <= i < |w| ==> w[i] == u[i] + v[i]
  }

  lemma {:induction false} SumAdds(w: seq<real>, u: seq<real>, v: seq<real>)
    requires Adds(w, u, v)
    ensures Sum(w) == Sum(u) + Sum(v)
  {
    if w != [] {
      var n := |w| - 1;
      SumAdds(w[..n], u[..n], v[..n]);
    }
  }

  lemma ScaledFront(c: real, v: seq<real>, n: nat)
    requires n <= |v|
    ensures Scaled(c, v)[..n] == Scaled(c, v[..n])
  {
    forall i | 0 <= i < n ensures Scaled(c, v)[..n][i] == Scaled(c, v[..n])[i] {
    }
  }

  lemma {:induction false} SumScales(c: real, v: seq<real>)
    ensures Sum(Scaled(c, v)) == c * Sum(v)
  {
    if v != [] {
      var n := |v| - 1;
      SumScales(c, v[..n]);
      ScaledFront(c, v, n);
      Distributes(c, Sum(v[..n]), v[n]);
    }
  }

  lemma SumCombines(w: seq<real>, u: seq<real>, c: real, v: seq<real>)
    requires Combines(w, u, c, v)
    ensures Sum(w) == Sum(u) + c * Sum(v)
  {
    SumAdds(w, u, Scaled(c, v));
    SumScales(c, v);
  }

  lemma {:induction false} DotAdds(t: seq<real>, w: seq<real>, u: seq<real>, v: seq<real>)
    requires Adds(w, u, v) && |t| == |w|
    ensures Dot(t, w) == Dot(t, u) + Dot(t, v)
  {
    if w != [] {
      var n := |w| - 1;
      DotAdds(t[..n], w[..n], u[..n], v[..n]);
      Distributes(t[n], u[n], v[n]);
    }
  }

  lemma {:induction false} DotScales(t: seq<real>, c: real, v: seq<real>)
    requires |t| == |v|
    ensures Dot(t, Scaled(c, v)) == c * Dot(t, v)
  {
    if v != [] {
      var n := |v| - 1;
      DotScales(t[..n], c, v[..n]);
      ScaledFront(c, v, n);
      ScaledTerm(Dot(t[..n], v[..n]), c, t[n], v[n]);
    }
  }

  lemma ScaledTerm(d: real, c: real, x: real, y: real)
    ensures c * d + x * (c * y) == c * (d + x * y)
  {
    assert x * (c * y) == c * (x * y);
    Distributes(c, d, x * y);
  }

  lemma DotCombines(t: seq<real>, w: seq<real>, u: seq<real>, c: real, v: seq<real>)
    requires Combines(w, u, c, v) && |t| == |w|
    ensures Dot(t, w) == Dot(t, u) + c * Dot(t, v)
  {
    DotAdds(t, w, u, Scaled(c, v));
    DotScales(t, c, v);
  }

  lemma {:induction false} DotSymmetric(u: seq<real>, v: seq<real>)
    requires |u| == |v|
    ensures Dot(u, v) == Dot(v, u)
  {
    if u != [] {
      DotSymmetric(u[..|u| - 1], v[..|v| - 1]);
    }
  }

  lemma {:induction false} DotConstant(t: seq<real>, u: seq<real>, c: real)
    requires |t| == |u| && forall i :: 0 <= i < |u| ==> u[i] == c
    ensures Dot(t, u) == c * Sum(t)
  {
    if t != [] {
      var n := |t| - 1;
      DotConstant(t[..n], u[..n], c);
      Distributes(c, Sum(t[..n]), t[n]);
    }
  }

  lemma {:induction false} DotSelfZero(u: seq<real>)
    ensures Dot(u, u) >= 0.0
    ensures Dot(u, u) == 0.0 ==> forall i :: 0 <= i < |u| ==> u[i] == 0.0
  {
    if u != [] {
      DotSelfZero(u[..|u| - 1]);
      OnlyZeroSquare(u[|u| - 1], u[|u| - 1] * u[|u| - 1]);
    }
  }

  lemma PositiveProduct(x: real, y: real, p: real)
    requires x > 0.0 && y > 0.0 && p == x * y
    ensures p > 0.0
  {}

  lemma OnlyZeroSquare(x: real, p: real)
    requires p == x * x
    ensures p >= 0.0
    ensures p == 0.0 ==> x == 0.0
  {
    if x > 0.0 {
      PositiveProduct(x, x, p);
    } else if x < 0.0 {
      var y := 0.0 - x;
      var q, r := y * y, y * x;
      assert r == 0.0 - q && p == 0.0 - r;
      PositiveProduct(y, y, q);
    } else {
      assert p == 0.0 * x;
    }
  }

  lemma Distributes(c: real, s: real, t: real)
    ensures c * (s + t) == c * s + c * t
  {}

  lemma TimesQuotient(n: real, s: real)
    requires n != 0.0
    ensures n * (s / n) == s
  {}

  lemma {:induction false} ShiftedSum(xs: seq<real>, m: real)
    ensures Sum(Shifted(xs, m)) == Sum(xs) - |xs| as real * m
  {
    if xs != [] {
      var n := |xs| - 1;
      ShiftedSum(xs[..n], m);
      assert Shifted(xs, m)[..n] == Shifted(xs[..n], m);
      assert |xs| as real * m == n as real * m + m;
    }
  }

  /** Deviations from the mean sum to zero. */
  lemma DeviationsSumToZero(xs: seq<real>)
    ensures Sum(Shifted(xs, Mean(xs))) == 0.0
  {
    ShiftedSum(xs, Mean(xs));
    if xs != [] {
      TimesQuotient(|xs| as real, Sum(xs));
    }
  }

  // ---- the fit ------------------------------------------------------------------------

  /** The deviations of the indices 0..n from their mean. */
  function IndexDeviations(n: nat): (ds: seq<real>)
    ensures |ds| == n
  {
    Shifted(Indices(n), Mean(Indices(n)))
  }

  function Sxx(n: nat): real
  {
    Dot(IndexDeviations(n), IndexDeviations(n))
  }

  function Sxy(ys: seq<real>): real
  {
    Dot(IndexDeviations(|ys|), Shifted(ys, Mean(ys)))
  }

  function Slope(ys: seq<real>): real
    requires |ys| >= 3
  {
    DeviationsNotAllZero(|ys|);
    Sxy(ys) / Sxx(|ys|)
  }

  function Intercept(ys: seq<real>): real
    requires |ys| >= 3
  {
    Mean(ys) - Slope(ys) * Mean(Indices(|ys|))
  }

  /** What the line a + b*x leaves of each value. */
  function Residuals(ys: seq<real>, a: real, b: real): (rs: seq<real>)
    ensures |rs| == |ys| && forall i :: 0 <= i < |ys| ==> rs[i] == ys[i] - (a + b * (i as real))
  {
    seq(|ys|, i requires 0 <= i < |ys| => ys[i] - (a + b * (i as real)))
  }

  function SquaredError(ys: seq<real>, a: real, b: real): real
  {
    Dot(Residuals(ys, a, b), Residuals(ys, a, b))
  }

  lemma {:induction false} SumIndices(n: nat)
    ensures 2.0 * Sum(Indices(n)) == n as real * (n as real - 1.0)
  {
    if n > 0 {
      SumIndices(n - 1);
      assert Indices(n)[..n - 1] == Indices(n - 1);
      var x := (n - 1) as real;
      assert n as real == x + 1.0;
      assert x * (x - 1.0) + 2.0 * x == (x + 1.0) * x;
    }
  }

  lemma MeanIndices(n: nat)
    requires n > 0
    ensures Mean(Indices(n)) == (n as real - 1.0) / 2.0
  {
    SumIndices(n);
    var nr := n as real;
    HalfQuotient(Sum(Indices(n)), nr, nr - 1.0);
  }

  lemma HalfQuotient(s: real, n: real, m: real)
    requires n > 0.0 && 2.0 * s == n * m
    ensures s / n == m / 2.0
  {
    assert s == n * (m / 2.0);
  }

  /** The squared deviations of the first `k` indices from any centre, in closed form. */
  lemma {:induction false} SquaresClosed(k: nat, m: real)
    ensures 6.0 * Dot(Shifted(Indices(k), m), Shifted(Indices(k), m)) == ClosedForm(k as real, m)
  {
    if k > 0 {
      SquaresClosed(k - 1, m);
      OneMoreIndex(k, m);
      SquaresStep((k - 1) as real, m);
    }
  }

  lemma OneMoreIndex(k: nat, m: real)
    requires k > 0
    ensures Dot(Shifted(Indices(k), m), Shifted(Indices(k), m))
         == Dot(Shifted(Indices(k - 1), m), Shifted(Indices(k - 1), m)) + Square((k - 1) as real - m)
  {
    assert Shifted(Indices(k), m)[..k - 1] == Shifted(Indices(k - 1), m);
  }

  /** Six times the squared deviations of `x` indices from `m`. */
  function ClosedForm(x: real, m: real): real
  {
    x * (x - 1.0) * (2.0 * x - 1.0) - 6.0 * m * (x * (x - 1.0)) + 6.0 * (m * m) * x
  }

  lemma SquaresStep(x: real, m: real)
    ensures ClosedForm(x + 1.0, m) == ClosedForm(x, m) + 6.0 * Square(x - m)
  {
    var y := x + 1.0;
    assert y * (y - 1.0) == x * x + x;
    assert x * (x - 1.0) == x * x - x;
    assert (x * x + x) * (2.0 * x + 1.0) - (x * x - x) * (2.0 * x - 1.0) == 6.0 * (x * x);
    assert m * (x * x + x) - m * (x * x - x) == 2.0 * (m * x);
    assert Square(x - m) == x * x - 2.0 * (m * x) + m * m;
  }

  /** Sxx is n(n^2-1)/12: positive from two points up, so a fit always exists. */
  lemma SxxClosed(n: nat)
    ensures n > 0 ==> 12.0 * Sxx(n) == n as real * (Square(n as real) - 1.0)
    ensures n >= 2 ==> Sxx(n) > 0.0
  {
    if n > 0 {
      var x := n as real;
      MeanIndices(n);
      SquaresClosed(n, (x - 1.0) / 2.0);
      SxxPolynomial(x);
      if n >= 2 {
        DeviationsNotAllZero(n);
      }
    }
  }

  /** Two indices cannot both sit on the mean. */
  lemma DeviationsNotAllZero(n: nat)
    requires n >= 2
    ensures Sxx(n) > 0.0
  {
    DotSelfZero(IndexDeviations(n));
    var m := Mean(Indices(n));
    assert IndexDeviations(n)[0] == 0.0 - m && IndexDeviations(n)[1] == 1.0 - m;
  }

  lemma SxxPolynomial(x: real)
    ensures 2.0 * ClosedForm(x, (x - 1.0) / 2.0) == x * (Square(x) - 1.0)
  {
    var m := (x - 1.0) / 2.0;
    assert 2.0 * m == x - 1.0;
    assert 4.0 * (m * m) == (x - 1.0) * (x - 1.0);
  }

  // ---- what makes it the best line -----------------------------------------------------

  /** The normal equations: the fitted line's residuals sum to zero and are orthogonal to
      the index. */
  lemma ResidualsVanish(ys: seq<real>)
    requires |ys| >= 3
    ensures Sum(Residuals(ys, Intercept(ys), Slope(ys))) == 0.0
    ensures Dot(Indices(|ys|), Residuals(ys, Intercept(ys), Slope(ys))) == 0.0
  {
    ResidualsFitDeviations(ys);
    DotShifted(Residuals(ys, Intercept(ys), Slope(ys)), Indices(|ys|), Mean(Indices(|ys|)));
  }

  /** The same against the deviations of the index from its mean. */
  lemma ResidualsFitDeviations(ys: seq<real>)
    requires |ys| >= 3
    ensures Sum(Residuals(ys, Intercept(ys), Slope(ys))) == 0.0
    ensures Dot(IndexDeviations(|ys|), Residuals(ys, Intercept(ys), Slope(ys))) == 0.0
  {
    CentredSums(ys);
    ProjectionVanishes(ys);
    FitCombines(ys);
    ResidualsOrthogonal(Residuals(ys, Intercept(ys), Slope(ys)), Shifted(ys, Mean(ys)), IndexDeviations(|ys|),
                        -Slope(ys));
  }

  lemma CentredSums(ys: seq<real>)
    requires ys != []
    ensures Sum(Shifted(ys, Mean(ys))) == 0.0 == Sum(IndexDeviations(|ys|))
  {
    DeviationsSumToZero(ys);
    DeviationsSumToZero(Indices(|ys|));
  }

  lemma ProjectionVanishes(ys: seq<real>)
    requires |ys| >= 3
    ensures Dot(IndexDeviations(|ys|), Shifted(ys, Mean(ys)))
            + -Slope(ys) * Dot(IndexDeviations(|ys|), IndexDeviations(|ys|)) == 0.0
  {
    SlopeTimesSxx(ys);
  }

  lemma FitCombines(ys: seq<real>)
    requires |ys| >= 3
    ensures Combines(Residuals(ys, Intercept(ys), Slope(ys)), Shifted(ys, Mean(ys)), -Slope(ys), IndexDeviations(|ys|))
  {
    CenteredResiduals(ys, Mean(ys), Mean(Indices(|ys|)), Intercept(ys), Slope(ys));
  }

  lemma CenteredResiduals(ys: seq<real>, my: real, mx: real, a: real, b: real)
    requires a == my - b * mx
    ensures Combines(Residuals(ys, a, b), Shifted(ys, my), -b, Shifted(Indices(|ys|), mx))
  {
    ResidualsAreDeviations(ys, my, mx, b);
  }

  /** Subtracting the projection onto `dx` leaves something orthogonal to it. */
  lemma ResidualsOrthogonal(rs: seq<real>, dy: seq<real>, dx: seq<real>, c: real)
    requires Combines(rs, dy, c, dx) && Sum(dx) == 0.0 == Sum(dy)
    requires Dot(dx, dy) + c * Dot(dx, dx) == 0.0
    ensures Sum(rs) == 0.0 == Dot(dx, rs)
  {
    SumCombines(rs, dy, c, dx);
    assert c * 0.0 == 0.0;
    DotCombines(dx, rs, dy, c, dx);
  }

  lemma ResidualsAreDeviations(ys: seq<real>, my: real, mx: real, b: real)
    ensures Combines(Residuals(ys, my - b * mx, b), Shifted(ys, my), -b, Shifted(Indices(|ys|), mx))
  {
    forall i | 0 <= i < |ys|
      ensures Residuals(ys, my - b * mx, b)[i] == Shifted(ys, my)[i] + -b * Shifted(Indices(|ys|), mx)[i]
    {
      Deviation(ys[i], i as real, my, mx, b);
    }
  }

  lemma Deviation(y: real, x: real, my: real, mx: real, b: real)
    ensures y - ((my - b * mx) + b * x) == (y - my) + -b * (x - mx)
  {}

  lemma SlopeTimesSxx(ys: seq<real>)
    requires |ys| >= 3
    ensures Sxy(ys) + -Slope(ys) * Sxx(|ys|) == 0.0
  {
    SxxClosed(|ys|);
    TimesQuotient(Sxx(|ys|), Sxy(ys));
  }

  /** A vector that sums to zero does not see where the other is centred. */
  lemma DotShifted(rs: seq<real>, xs: seq<real>, m: real)
    requires |rs| == |xs| && Sum(rs) == 0.0
    ensures Dot(Shifted(xs, m), rs) == Dot(xs, rs)
  {
    var ones := seq(|xs|, i requires 0 <= i < |xs| => 1.0);
    DotCombines(rs, Shifted(xs, m), xs, -m, ones);
    DotConstant(rs, ones, 1.0);
    assert -m * (1.0 * 0.0) == 0.0;
    DotSymmetric(rs, Shifted(xs, m));
    DotSymmetric(rs, xs);
  }

  /** The values of the line a + b*x. */
  function Line(n: nat, a: real, b: real): (ls: seq<real>)
    ensures |ls| == n && forall i :: 0 <= i < n ==> ls[i] == a + b * (i as real)
  {
    seq(n, i requires 0 <= i < n => a + b * (i as real))
  }

  lemma DotOfSum(t: seq<real>, w: seq<real>, u: seq<real>, v: seq<real>)
    requires Combines(w, u, 1.0, v) && |t| == |w|
    ensures Dot(t, w) == Dot(t, u) + Dot(t, v)
  {
    forall i | 0 <= i < |w| ensures w[i] == u[i] + v[i] {
      Once(v[i]);
    }
    DotAdds(t, w, u, v);
  }

  lemma Once(x: real)
    ensures 1.0 * x == x
  {}

  /** Pythagoras: when the residuals are orthogonal to every line, moving to another line
      adds exactly the squared gap between the lines. */
  lemma Pythagoras(rs: seq<real>, gaps: seq<real>, ss: seq<real>)
    requires Combines(ss, rs, 1.0, gaps) && Dot(rs, gaps) == 0.0
    ensures Dot(ss, ss) == Dot(rs, rs) + Dot(gaps, gaps)
  {
    DotOfSum(ss, ss, rs, gaps);
    DotOfSum(rs, ss, rs, gaps);
    DotOfSum(gaps, ss, rs, gaps);
    DotSymmetric(ss, rs);
    DotSymmetric(ss, gaps);
    DotSymmetric(gaps, rs);
  }

  lemma OrthogonalToLines(rs: seq<real>, da: real, db: real)
    requires Sum(rs) == 0.0 && Dot(Indices(|rs|), rs) == 0.0
    ensures Dot(rs, Line(|rs|, da, db)) == 0.0
  {
    var n := |rs|;
    var level := seq(n, i requires 0 <= i < n => da);
    DotCombines(rs, Line(n, da, db), level, db, Indices(n));
    DotConstant(rs, level, da);
    DotSymmetric(rs, Indices(n));
    assert da * 0.0 == 0.0 == db * 0.0;
  }

  /** No line has a smaller squared error than the fitted one, and no other line matches it. */
  lemma FitIsOptimal(ys: seq<real>, c: real, d: real)
    requires |ys| >= 3
    ensures var a, b := Intercept(ys), Slope(ys);
            && SquaredError(ys, a, b) <= SquaredError(ys, c, d)
            && (SquaredError(ys, a, b) == SquaredError(ys, c, d) ==> c == a && d == b)
  {
    var a, b, n := Intercept(ys), Slope(ys), |ys|;
    var gaps := Line(n, a - c, b - d);
    ResidualsVanish(ys);
    OrthogonalToLines(Residuals(ys, a, b), a - c, b - d);
    ResidualGap(ys, a, b, c, d);
    Pythagoras(Residuals(ys, a, b), gaps, Residuals(ys, c, d));
    DotSelfZero(gaps);
    if SquaredError(ys, a, b) == SquaredError(ys, c, d) {
      assert gaps[0] == 0.0 && gaps[1] == 0.0;
      LineThroughZeros(a - c, b - d);
    }
  }

  lemma ResidualGap(ys: seq<real>, a: real, b: real, c: real, d: real)
    ensures Combines(Residuals(ys, c, d), Residuals(ys, a, b), 1.0, Line(|ys|, a - c, b - d))
  {
    forall i | 0 <= i < |ys|
      ensures Residuals(ys, c, d)[i] == Residuals(ys, a, b)[i] + 1.0 * Line(|ys|, a - c, b - d)[i]
    {
      GapAt(ys[i], i as real, a, b, c, d);
    }
  }

  lemma GapAt(y: real, x: real, a: real, b: real, c: real, d: real)
    ensures y - (c + d * x) == (y - (a + b * x)) + 1.0 * ((a - c) + (b - d) * x)
  {}

  lemma LineThroughZeros(da: real, db: real)
    requires da + db * (0 as real) == 0.0 == da + db * (1 as real)
    ensures da == 0.0 == db
  {}

  // ---- the code --------------------------------------------------------------------------

  /** Residual variance over Sxx. */
  function ErrorOfSlope(sse: real, n: nat, sxx: real): real
    requires n >= 3 && sxx > 0.0
  {
    sse / (n as real - 2.0) / sxx
  }

  /** The square of the slope's standard error. */
  function StderrSquared(ys: seq<real>): real
    requires |ys| >= 3
  {
    DeviationsNotAllZero(|ys|);
    ErrorOfSlope(SquaredError(ys, Intercept(ys), Slope(ys)), |ys|, Sxx(|ys|))
  }

  /** Squared standard error, n - 2 and n(n^2 - 1)/12 multiply to the least squared error. */
  lemma StderrClosed(ys: seq<real>)
    requires |ys| >= 3
    ensures var n := |ys| as real;
            StderrSquared(ys) * (n - 2.0) * (n * (n * n - 1.0) / 12.0) == SquaredError(ys, Intercept(ys), Slope(ys))
  {
    SxxClosed(|ys|);
    QuotientsBack(SquaredError(ys, Intercept(ys), Slope(ys)), |ys| as real - 2.0, Sxx(|ys|));
  }

  lemma QuotientsBack(x: real, a: real, b: real)
    requires a > 0.0 && b > 0.0
    ensures x / a / b * a * b == x
  {
    var q := x / a;
    assert q / b * b == q;
    assert q / b * a * b == q / b * b * a;
  }

  /** Slope and the square of its standard error; the early exit for `sxx == 0` is never taken. */
  method LinregSlopeStderr(ys: seq<real>) returns (slope: real, stderrSquared: real)
    ensures |ys| < 3 ==> slope == 0.0 == stderrSquared
    ensures |ys| >= 3 ==> slope == Slope(ys) && stderrSquared == StderrSquared(ys)
  {
    if |ys| < 3 {
      return 0.0, 0.0;
    }
    var xs := Indices(|ys|);
    var sxx, fitted, intercept := FitLine(xs, ys);
    var sse := SumOfSquaredErrors(ys, xs, intercept, fitted);
    slope := fitted;
    stderrSquared := ErrorOfSlope(sse, |ys|, sxx);
  }

  method FitLine(xs: seq<real>, ys: seq<real>) returns (sxx: real, slope: real, intercept: real)
    requires |ys| >= 3 && xs == Indices(|ys|)
    ensures sxx == Sxx(|ys|) > 0.0 && slope == Slope(ys) && intercept == Intercept(ys)
  {
    var mx, my := Mean(xs), Mean(ys);
    sxx, slope := FitSlope(xs, ys, mx, my);
    intercept := my - slope * mx;
  }

  method FitSlope(xs: seq<real>, ys: seq<real>, mx: real, my: real) returns (sxx: real, slope: real)
    requires |ys| >= 3 && xs == Indices(|ys|) && mx == Mean(xs) && my == Mean(ys)
    ensures sxx == Sxx(|ys|) > 0.0 && slope == Slope(ys)
  {
    var sxy;
    sxx, sxy := SumsOfDeviations(xs, ys, mx, my);
    DeviationsNotAllZero(|ys|);
    assert sxx == Sxx(|ys|) && sxy == Sxy(ys);
    if sxx == 0.0 {
      assert false;
    }
    slope := sxy / sxx;
  }

  method SumsOfDeviations(xs: seq<real>, ys: seq<real>, mx: real, my: real) returns (sxx: real, sxy: real)
    requires |xs| == |ys|
    ensures sxx == Dot(Shifted(xs, mx), Shifted(xs, mx)) && sxy == Dot(Shifted(xs, mx), Shifted(ys, my))
  {
    ghost var dx, dy := Shifted(xs, mx), Shifted(ys, my);
    sxx, sxy := 0.0, 0.0;
    for i := 0 to |xs|
      invariant sxx == Dot(dx[..i], dx[..i]) && sxy == Dot(dx[..i], dy[..i])
    {
      assert dx[..i + 1][..i] == dx[..i] && dy[..i + 1][..i] == dy[..i];
      sxx := sxx + (xs[i] - mx) * (xs[i] - mx);
      sxy := sxy + (xs[i] - mx) * (ys[i] - my);
    }
    assert dx[..|xs|] == dx && dy[..|xs|] == dy;
  }

  method SumOfSquaredErrors(ys: seq<real>, xs: seq<real>, intercept: real, slope: real) returns (sse: real)
    requires xs == Indices(|ys|)
    ensures sse == SquaredError(ys, intercept, slope)
  {
    sse := 0.0;
    ghost var rs := Residuals(ys, intercept, slope);
    for i := 0 to |ys|
      invariant sse == Dot(rs[..i], rs[..i])
    {
      assert rs[..i + 1][..i] == rs[..i];
      var pred := intercept + slope * xs[i];
      sse := sse + (ys[i] - pred) * (ys[i] - pred);
    }
    assert rs[..|ys|] == rs;
  }
}
