/** The Fisher-Yates shuffle as a map from choice vectors to orderings. */
module Shuffles {

  function Swap<T>(s: seq<T>, i: nat, j: nat): (r: seq<T>)
    requires i < |s| && j < |s|
    ensures |r| == |s|
  {
    s[i := s[j]][j := s[i]]
  }

  lemma SwapKeepsMembers<T>(s: seq<T>, i: nat, j: nat)
    requires i < |s| && j < |s|
    ensures forall k :: 0 <= k < |s| ==> s[k] in Swap(s, i, j)
  {
    var r := Swap(s, i, j);
    assert forall k :: 0 <= k < |s| ==> s[k] == r[if k == i then j else if k == j then i else k];
  }

  /** `c[i]` is the position drawn for step `i`. */
  ghost predicate Choices(c: seq<nat>)
  {
    forall i :: 0 <= i < |c| ==> c[i] <= i
  }

  /** Steps |c|-1 down to 1 of the shuffle; step i swaps positions i and c[i]. */
  function Shuffle<T>(s: seq<T>, c: seq<nat>): (r: seq<T>)
    requires |c| <= |s| && forall i :: 0 <= i < |c| ==> c[i] <= i
    ensures |r| == |s|
    decreases |c|
  {
    if |c| <= 1 then s
    else Shuffle(Swap(s, |c| - 1, c[|c| - 1]), c[..|c| - 1])
  }

  ghost predicate Distinct<T>(s: seq<T>)
  {
    forall i, j :: 0 <= i < j < |s| ==> s[i] != s[j]
  }

  /** `p` is an ordering of the distinct entries of `s`. */
  ghost predicate Ordering<T>(p: seq<T>, s: seq<T>)
  {
    |p| == |s| && Distinct(p) && forall i :: 0 <= i < |p| ==> p[i] in s
  }

  lemma {:induction false} ShuffleKeepsTail<T>(s: seq<T>, c: seq<nat>)
    requires |c| <= |s| && Choices(c)
    decreases |c|
    ensures forall k :: |c| <= k < |s| ==> Shuffle(s, c)[k] == s[k]
  {
    if |c| > 1 {
      ShuffleKeepsTail(Swap(s, |c| - 1, c[|c| - 1]), c[..|c| - 1]);
    }
  }

  /** The pool stays a permutation of what it was. */
  lemma {:induction false} ShufflePermutes<T>(s: seq<T>, c: seq<nat>)
    requires |c| <= |s| && Choices(c)
    decreases |c|
    ensures multiset(Shuffle(s, c)) == multiset(s)
  {
    if |c| > 1 {
      ShufflePermutes(Swap(s, |c| - 1, c[|c| - 1]), c[..|c| - 1]);
    }
  }

  function IndexOf<T(==)>(s: seq<T>, x: T): (j: nat)
    requires x in s
    ensures j < |s| && s[j] == x
  {
    if s[0] == x then 0 else 1 + IndexOf(s[1..], x)
  }

  /** The choices that turn `s` into `p`, which agree from position `n` on. */
  function Unshuffle<T(==)>(s: seq<T>, p: seq<T>, n: nat): (c: seq<nat>)
    requires n <= |s| == |p| && forall i :: 0 <= i < n ==> p[i] in s
    ensures |c| == n
    decreases n
  {
    if n == 0 then []
    else if n == 1 then [0]
    else
      var j := IndexOf(s, p[n - 1]);
      SwapKeepsMembers(s, n - 1, j);
      Unshuffle(Swap(s, n - 1, j), p, n - 1) + [j]
  }

  lemma {:induction false} UnshuffleProduces<T>(s: seq<T>, p: seq<T>, n: nat)
    requires n <= |s| && Distinct(s) && Ordering(p, s)
    requires forall k :: n <= k < |s| ==> s[k] == p[k]
    ensures Choices(Unshuffle(s, p, n)) && Shuffle(s, Unshuffle(s, p, n)) == p
    decreases n
  {
    if n == 1 {
      var j := IndexOf(s, p[0]);
      assert j < n;
    } else if n > 1 {
      var j := IndexOf(s, p[n - 1]);
      assert j < n;
      var t := Swap(s, n - 1, j);
      SwapKeepsElements(s, n - 1, j, p);
      UnshuffleProduces(t, p, n - 1);
      var c := Unshuffle(s, p, n);
      assert c[..n - 1] == Unshuffle(t, p, n - 1);
    }
  }

  lemma SwapDistinct<T>(s: seq<T>, i: nat, j: nat)
    requires i < |s| && j < |s| && Distinct(s)
    ensures Distinct(Swap(s, i, j))
  {}

  lemma SwapKeepsElements<T>(s: seq<T>, i: nat, j: nat, p: seq<T>)
    requires i < |s| && j < |s| && Distinct(s) && Ordering(p, s)
    ensures Distinct(Swap(s, i, j)) && Ordering(p, Swap(s, i, j))
  {
    var t := Swap(s, i, j);
    SwapKeepsMembers(s, i, j);
    forall k | 0 <= k < |p| ensures p[k] in t {
      assert s[IndexOf(s, p[k])] in t;
    }
  }

  lemma {:induction false} ShuffleInjective<T>(s: seq<T>, c: seq<nat>, d: seq<nat>)
    requires |c| == |d| <= |s| && Choices(c) && Choices(d) && Distinct(s)
    requires Shuffle(s, c) == Shuffle(s, d)
    ensures c == d
    decreases |c|
  {
    if |c| > 1 {
      var i := |c| - 1;
      LastChoice(s, c);
      LastChoice(s, d);
      assert c[i] == d[i];
      SwapDistinct(s, i, c[i]);
      ShuffleInjective(Swap(s, i, c[i]), c[..i], d[..i]);
      assert c == c[..i] + [c[i]] && d == d[..i] + [d[i]];
    }
  }

  /** The first step decides what ends up in the last position it covers. */
  lemma LastChoice<T>(s: seq<T>, c: seq<nat>)
    requires 1 < |c| <= |s| && Choices(c)
    ensures Shuffle(s, c)[|c| - 1] == s[c[|c| - 1]]
  {
    var i := |c| - 1;
    ShuffleKeepsTail(Swap(s, i, c[i]), c[..i]);
  }

  /** Every ordering of distinct entries comes from exactly one choice vector, so uniform
      draws give uniform orderings. */
  lemma ShuffleIsBijection<T>(s: seq<T>, p: seq<T>)
    requires Distinct(s) && Ordering(p, s)
    ensures exists c: seq<nat> ::
      && |c| == |s| && Choices(c) && Shuffle(s, c) == p
      && forall d: seq<nat> :: |d| == |s| && Choices(d) && Shuffle(s, d) == p ==> d == c
  {
    var c := Unshuffle(s, p, |s|);
    UnshuffleProduces(s, p, |s|);
    forall d: seq<nat> | |d| == |s| && Choices(d) && Shuffle(s, d) == p
      ensures d == c
    {
      ShuffleInjective(s, d, c);
    }
  }

  predicate Within(positions: seq<nat>, n: nat)
  {
    forall k :: 0 <= k < |positions| ==> positions[k] < n
  }

  /** Reading `values` at the given positions. */
  function At<T>(values: seq<T>, positions: seq<nat>): (r: seq<T>)
    requires Within(positions, |values|)
    ensures |r| == |positions| && forall k :: 0 <= k < |r| ==> r[k] == values[positions[k]]
  {
    seq(|positions|, k requires 0 <= k < |positions| => values[positions[k]])
  }

  /** The shuffle moves positions and never looks at the values: equal values share the
      bijection of their positions. */
  lemma {:induction false} ShuffleMovesPositions<T>(values: seq<T>, positions: seq<nat>, c: seq<nat>)
    requires |c| <= |positions| && Choices(c) && Within(positions, |values|)
    decreases |c|
    ensures Within(Shuffle(positions, c), |values|)
    ensures Shuffle(At(values, positions), c) == At(values, Shuffle(positions, c))
  {
    if |c| > 1 {
      var moved := Swap(positions, |c| - 1, c[|c| - 1]);
      assert At(values, moved) == Swap(At(values, positions), |c| - 1, c[|c| - 1]);
      ShuffleMovesPositions(values, moved, c[..|c| - 1]);
    }
  }
}
