/** Sums and means of sequences of reals. */
module RealSums {

  function Sum(xs: seq<real>): real
  {
    if xs == [] then 0.0 else Sum(xs[..|xs| - 1]) + xs[|xs| - 1]
  }

  /** The mean, 0 for no values. */
  function Mean(xs: seq<real>): real
  {
    if xs == [] then 0.0 else Sum(xs) / (|xs| as real)
  }

  function Abs(x: real): real
  {
    if x < 0.0 then -x else x
  }

  lemma {:induction false} SumConcat(xs: seq<real>, ys: seq<real>)
    ensures Sum(xs + ys) == Sum(xs) + Sum(ys)
  {
    if ys == [] {
      assert xs + ys == xs;
    } else {
      SumConcat(xs, ys[..|ys| - 1]);
      assert (xs + ys)[..|xs| + |ys| - 1] == xs + ys[..|ys| - 1];
    }
  }

  lemma SumRemove(xs: seq<real>, j: nat)
    requires j < |xs|
    ensures Sum(xs) == xs[j] + Sum(xs[..j] + xs[j + 1..])
  {
    assert xs == xs[..j] + ([xs[j]] + xs[j + 1..]);
    SumConcat(xs[..j], [xs[j]] + xs[j + 1..]);
    SumConcat([xs[j]], xs[j + 1..]);
    assert Sum([xs[j]]) == xs[j];
    SumConcat(xs[..j], xs[j + 1..]);
  }

  lemma TakeOut<T>(ys: seq<T>, j: nat)
    requires j < |ys|
    ensures multiset(ys[..j] + ys[j + 1..]) == multiset(ys) - multiset{ys[j]}
  {
    assert ys == ys[..j] + [ys[j]] + ys[j + 1..];
  }

  /** The order of the values does not matter. */
  lemma {:induction false} SumReordered(xs: seq<real>, ys: seq<real>)
    requires multiset(xs) == multiset(ys)
    ensures Sum(xs) == Sum(ys) && |xs| == |ys|
    decreases |xs|
  {
    SameSize(xs, ys);
    if xs != [] {
      var n := |xs| - 1;
      assert xs[n] in multiset(ys);
      var j :| 0 <= j < |ys| && ys[j] == xs[n];
      TakeOut(ys, j);
      TakeOut(xs, n);
      assert xs[..n] + xs[n + 1..] == xs[..n];
      SumReordered(xs[..n], ys[..j] + ys[j + 1..]);
      SumRemove(ys, j);
    }
  }

  lemma SameSize(xs: seq<real>, ys: seq<real>)
    requires multiset(xs) == multiset(ys)
    ensures |xs| == |ys|
  {
    assert |multiset(xs)| == |xs| && |multiset(ys)| == |ys|;
  }

  lemma MeanReordered(xs: seq<real>, ys: seq<real>)
    requires multiset(xs) == multiset(ys)
    ensures Mean(xs) == Mean(ys)
  {
    SumReordered(xs, ys);
  }
}
