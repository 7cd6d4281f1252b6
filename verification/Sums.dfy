/** Sums over finite sets and over sequences of reals. */
module Sums {

  /** The sum of `f` over the elements of `s`. */
  ghost function SumOver<T>(s: set<T>, f: T -> nat): nat
  {
    if s == {} then 0
    else
      var x :| x in s;
      f(x) + SumOver(s - {x}, f)
  }

  /** The element taken out first does not matter. */
  lemma {:induction false} SumOverTake<T>(s: set<T>, f: T -> nat, y: T)
    requires y in s
    ensures SumOver(s, f) == f(y) + SumOver(s - {y}, f)
    decreases |s|
  {
    var x :| x in s && SumOver(s, f) == f(x) + SumOver(s - {x}, f);
    if x != y {
      SumOverTake(s - {x}, f, y);
      SumOverTake(s - {y}, f, x);
      assert s - {x} - {y} == s - {y} - {x};
    }
  }

  lemma {:induction false} SumOverSame<T>(s: set<T>, f: T -> nat, g: T -> nat)
    requires forall x :: x in s ==> f(x) == g(x)
    ensures SumOver(s, f) == SumOver(s, g)
    decreases |s|
  {
    if s != {} {
      var x :| x in s;
      SumOverTake(s, f, x);
      SumOverTake(s, g, x);
      SumOverSame(s - {x}, f, g);
    }
  }

  /** Changing one term changes the sum by as much. */
  lemma SumOverBump<T>(s: set<T>, f: T -> nat, g: T -> nat, y: T)
    requires y in s && forall x :: x in s && x != y ==> f(x) == g(x)
    ensures SumOver(s, g) - g(y) == SumOver(s, f) - f(y)
  {
    SumOverTake(s, f, y);
    SumOverTake(s, g, y);
    SumOverSame(s - {y}, f, g);
  }

  lemma {:induction false} SumOverZero<T>(s: set<T>, f: T -> nat)
    requires forall x :: x in s ==> f(x) == 0
    ensures SumOver(s, f) == 0
    decreases |s|
  {
    if s != {} {
      var x :| x in s;
      SumOverTake(s, f, x);
      SumOverZero(s - {x}, f);
    }
  }

  /** A larger set adds nothing when the extra terms are zero. */
  lemma {:induction false} SumOverGrow<T>(s: set<T>, t: set<T>, f: T -> nat)
    requires s <= t && forall x :: x in t && x !in s ==> f(x) == 0
    ensures SumOver(t, f) == SumOver(s, f)
    decreases |t|
  {
    if x :| x in t && x !in s {
      SumOverTake(t, f, x);
      SumOverGrow(s, t - {x}, f);
    } else {
      assert s == t;
    }
  }

  /** The first `n` numbers. */
  ghost function Below(n: nat): (s: set<nat>)
    ensures |s| == n && forall i: nat :: i in s <==> i < n
  {
    if n == 0 then {} else Below(n - 1) + {n - 1}
  }

  /** A subset is no larger. */
  lemma {:induction false} SubsetSize<T>(s: set<T>, t: set<T>)
    requires s <= t
    ensures |s| <= |t|
    decreases |s|
  {
    if x :| x in s {
      SubsetSize(s - {x}, t - {x});
    }
  }
}
