/** The seeded two-sided permutation test on the difference of means. */
module PermutationTest {
  import opened Powers
  import opened RealSums
  import opened Shuffles
  import opened Sums

  // ---- SplitMix64 ---------------------------------------------------------------------

  /** Bitwise exclusive or of two unsigned words. */
  function Xor(a: nat, b: nat): nat
    decreases a + b
  {
    if a == 0 && b == 0 then 0 else (a % 2 + b % 2) % 2 + 2 * Xor(a / 2, b / 2)
  }

  /** Wrapping 64-bit multiplication. */
  function Mul64(a: nat, b: nat): nat
  {
    a * b % U64
  }

  /** `z ^ (z >> k)`, where `p == 1 << k`. */
  function Fold(z: nat, p: nat): nat
    requires p > 0
  {
    Xor(z, z / p)
  }

  const GAMMA: nat := 0x9E37_79B9_7F4A_7C15

  function Advance(state: nat): nat
  {
    (state + GAMMA) % U64
  }

  function Mix(state: nat): nat
  {
    var y := Mul64(Fold(state, 0x4000_0000), 0xBF58_476D_1CE4_E5B9);
    var z := Mul64(Fold(y, 0x800_0000), 0x94D0_49BB_1331_11EB);
    Fold(z, 0x8000_0000)
  }

  /** The draw in 0..n that advancing from `state` yields. */
  function Draw(state: nat, n: nat): (j: nat)
    requires n > 0
    ensures j < n
  {
    Mix(Advance(state)) % n
  }

  class SplitMix64 {
    var state: nat

    constructor (seed: nat)
      ensures state == seed
    {
      state := seed;
    }

    method NextU64() returns (z: nat)
      modifies this
      ensures state == Advance(old(state)) && z == Mix(state)
    {
      state := (state + GAMMA) % U64;
      z := state;
      z := Mul64(Fold(z, 0x4000_0000), 0xBF58_476D_1CE4_E5B9);
      z := Mul64(Fold(z, 0x800_0000), 0x94D0_49BB_1331_11EB);
      z := Fold(z, 0x8000_0000);
    }

    method Below(n: nat) returns (j: nat)
      requires n > 0
      modifies this
      ensures state == Advance(old(state)) && j == Draw(old(state), n)
    {
      var z := NextU64();
      j := z % n;
    }
  }

  /** The choices the generator makes for one shuffle of `n` entries, from the last step down. */
  function DrawChoices(state: nat, n: nat): (c: seq<nat>)
    ensures |c| == n && forall i :: 0 <= i < n ==> c[i] <= i
    decreases n
  {
    if n == 0 then []
    else if n == 1 then [0]
    else DrawChoices(Advance(state), n - 1) + [Draw(state, n)]
  }

  function StateAfter(state: nat, n: nat): nat
    decreases n
  {
    if n <= 1 then state else StateAfter(Advance(state), n - 1)
  }

  // ---- the test ---------------------------------------------------------------------------

  const EPS: real := 0.000000000001

  function Gap(pool: seq<real>, na: nat): real
    requires na <= |pool|
  {
    Abs(Mean(pool[na..]) - Mean(pool[..na]))
  }

  /** One resample's pool. */
  function Resampled(pool: seq<real>, state: nat): (r: seq<real>)
    ensures |r| == |pool|
  {
    Shuffle(pool, DrawChoices(state, |pool|))
  }

  /** How many of `r` consecutive resamples show at least the observed gap; the pool is
      carried over from one to the next. */
  function ExtremeCount(pool: seq<real>, state: nat, na: nat, observed: real, r: nat): (count: nat)
    requires na <= |pool|
    ensures count <= r
    decreases r
  {
    if r == 0 then 0
    else
      var next := Resampled(pool, state);
      (if Gap(next, na) + EPS >= observed then 1 else 0)
      + ExtremeCount(next, StateAfter(state, |pool|), na, observed, r - 1)
  }

  function Smoothed(count: nat, resamples: nat): real
  {
    (count as real + 1.0) / (resamples as real + 1.0)
  }

  function PValue(a: seq<real>, b: seq<real>, resamples: nat, seed: nat): real
  {
    if a == [] || b == [] then 1.0
    else Smoothed(ExtremeCount(a + b, seed, |a|, Abs(Mean(b) - Mean(a)), resamples), resamples)
  }

  method PermutationP(a: seq<real>, b: seq<real>, resamples: nat, seed: nat) returns (p: real)
    ensures p == PValue(a, b, resamples, seed)
  {
    if |a| == 0 || |b| == 0 {
      return 1.0;
    }
    var pool := Pool(a, b);
    var observed := Abs(Mean(b) - Mean(a));
    var rng := new SplitMix64(seed);
    var count := CountExtreme(pool, rng, |a|, observed, resamples);
    p := Smoothed(count, resamples);
  }

  method Pool(a: seq<real>, b: seq<real>) returns (pool: array<real>)
    ensures fresh(pool) && pool[..] == a + b
  {
    var both := a + b;
    pool := new real[|both|](i requires 0 <= i < |both| => both[i]);
  }

  /** The resampling loop: the pool is shuffled in place, resample after resample, and stays
      a permutation of what it was throughout. */
  method CountExtreme(pool: array<real>, rng: SplitMix64, na: nat, observed: real, resamples: nat) returns (count: nat)
    requires na <= pool.Length
    modifies pool, rng
    ensures count == ExtremeCount(old(pool[..]), old(rng.state), na, observed, resamples)
    ensures multiset(pool[..]) == multiset(old(pool[..]))
  {
    count := 0;
    ghost var total := ExtremeCount(pool[..], rng.state, na, observed, resamples);
    for k := 0 to resamples
      invariant multiset(pool[..]) == multiset(old(pool[..]))
      invariant count + ExtremeCount(pool[..], rng.state, na, observed, resamples - k) == total
    {
      ExtremeStep(pool[..], rng.state, na, observed, resamples - k);
      var extreme := Resample(pool, rng, na, observed);
      if extreme {
        count := count + 1;
      }
    }
  }

  lemma ExtremeStep(pool: seq<real>, state: nat, na: nat, observed: real, r: nat)
    requires na <= |pool| && r > 0
    ensures var next := Resampled(pool, state);
            ExtremeCount(pool, state, na, observed, r)
            == (if Gap(next, na) + EPS >= observed then 1 else 0)
               + ExtremeCount(next, StateAfter(state, |pool|), na, observed, r - 1)
  {
  }

  /** Shuffle the pool and compare the gap between its two parts with the observed one. */
  method Resample(pool: array<real>, rng: SplitMix64, na: nat, observed: real) returns (extreme: bool)
    requires na <= pool.Length
    modifies pool, rng
    ensures pool[..] == Resampled(old(pool[..]), old(rng.state))
    ensures rng.state == StateAfter(old(rng.state), pool.Length)
    ensures multiset(pool[..]) == multiset(old(pool[..]))
    ensures extreme <==> Gap(pool[..], na) + EPS >= observed
  {
    ShufflePermutes(pool[..], DrawChoices(rng.state, pool.Length));
    ShuffleInPlace(pool, rng);
    var ma, mb := Mean(pool[..na]), Mean(pool[na..]);
    assert pool[..][..na] == pool[..na] && pool[..][na..] == pool[na..];
    extreme := Abs(mb - ma) + EPS >= observed;
  }

  /** One step of the shuffle: swap the last position with the drawn one. */
  lemma ShuffleStep(s: seq<real>, state: nat, i: nat)
    requires 1 < i <= |s|
    ensures Shuffle(s, DrawChoices(state, i))
              == Shuffle(Swap(s, i - 1, Draw(state, i)), DrawChoices(Advance(state), i - 1))
  {
    var c := DrawChoices(state, i);
    assert c[..i - 1] == DrawChoices(Advance(state), i - 1);
  }

  method ShuffleInPlace(pool: array<real>, rng: SplitMix64)
    modifies pool, rng
    ensures pool[..] == Resampled(old(pool[..]), old(rng.state))
    ensures rng.state == StateAfter(old(rng.state), pool.Length)
  {
    var i: nat := pool.Length;
    ghost var target := Resampled(pool[..], rng.state);
    while i > 1
      invariant i <= pool.Length
      invariant Shuffle(pool[..], DrawChoices(rng.state, i)) == target
      invariant StateAfter(rng.state, i) == StateAfter(old(rng.state), pool.Length)
    {
      ShuffleStep(pool[..], rng.state, i);
      i := i - 1;
      ghost var before := pool[..];
      var j := rng.Below(i + 1);
      pool[i], pool[j] := pool[j], pool[i];
      assert pool[..] == Swap(before, i, j);
    }
  }

  // ---- what the p-value is ----------------------------------------------------------------

  /** The pool after `k` resamples. */
  function PoolAfter(pool: seq<real>, state: nat, k: nat): (after: seq<real>)
    ensures |after| == |pool|
    decreases k
  {
    if k == 0 then pool else PoolAfter(Resampled(pool, state), StateAfter(state, |pool|), k - 1)
  }

  /** The two parts of the pool, as large as `a` and `b`, have means as far apart as theirs. */
  ghost predicate AsExtreme(pool: seq<real>, a: seq<real>, b: seq<real>)
    requires |pool| == |a| + |b| && a != [] && b != []
  {
    var apart := Sum(pool[|a|..]) / (|b| as real) - Sum(pool[..|a|]) / (|a| as real);
    var observed := Sum(b) / (|b| as real) - Sum(a) / (|a| as real);
    Abs(apart) + 0.000000000001 >= Abs(observed)
  }

  /** Which of the first `r` resamples are as extreme as the groups themselves. */
  ghost function Extremes(pool: seq<real>, a: seq<real>, b: seq<real>, state: nat, r: nat): set<nat>
    requires |pool| == |a| + |b| && a != [] && b != []
  {
    set k: nat | 1 <= k <= r && AsExtreme(PoolAfter(pool, state, k), a, b)
  }

  /** p is one more than the number of resamples as extreme as the groups, over one more than
      the number of resamples. */
  lemma PValueCounts(a: seq<real>, b: seq<real>, resamples: nat, seed: nat)
    requires a != [] && b != []
    ensures PValue(a, b, resamples, seed)
         == (1.0 + |Extremes(a + b, a, b, seed, resamples)| as real) / (resamples as real + 1.0)
  {
    CountsExtremes(a + b, a, b, seed, resamples);
  }

  lemma {:induction false} CountsExtremes(pool: seq<real>, a: seq<real>, b: seq<real>, state: nat, r: nat)
    requires |pool| == |a| + |b| && a != [] && b != []
    ensures ExtremeCount(pool, state, |a|, Abs(Mean(b) - Mean(a)), r) == |Extremes(pool, a, b, state, r)|
    decreases r
  {
    if r > 0 {
      var next, after := Resampled(pool, state), StateAfter(state, |pool|);
      CountsExtremes(next, a, b, after, r - 1);
      ExtremeStep(pool, state, |a|, Abs(Mean(b) - Mean(a)), r);
      GapIsExtreme(next, a, b);
      ExtremesShift(pool, a, b, state, r);
    }
  }

  lemma GapIsExtreme(pool: seq<real>, a: seq<real>, b: seq<real>)
    requires |pool| == |a| + |b| && a != [] && b != []
    ensures Gap(pool, |a|) + EPS >= Abs(Mean(b) - Mean(a)) <==> AsExtreme(pool, a, b)
  {
  }

  lemma ExtremesShift(pool: seq<real>, a: seq<real>, b: seq<real>, state: nat, r: nat)
    requires |pool| == |a| + |b| && a != [] && b != [] && r > 0
    ensures var next := Resampled(pool, state);
            |Extremes(pool, a, b, state, r)|
            == (if AsExtreme(next, a, b) then 1 else 0)
               + |Extremes(next, a, b, StateAfter(state, |pool|), r - 1)|
  {
    hide AsExtreme, Resampled, StateAfter;
    var next, after := Resampled(pool, state), StateAfter(state, |pool|);
    var later, all := Extremes(next, a, b, after, r - 1), Extremes(pool, a, b, state, r);
    assert PoolAfter(pool, state, 1) == PoolAfter(next, after, 0);
    forall k: nat | k >= 2 ensures k in all <==> k - 1 in later {
      assert PoolAfter(pool, state, k) == PoolAfter(next, after, k - 1);
    }
    ShiftedSize(later, all, AsExtreme(next, a, b));
  }

  ghost function Up(s: set<nat>): set<nat>
  {
    set k | k in s :: k + 1
  }

  lemma {:induction false} UpSize(s: set<nat>)
    ensures |Up(s)| == |s|
    decreases |s|
  {
    if k :| k in s {
      UpSize(s - {k});
      assert s == (s - {k}) + {k};
      assert forall j :: j in Up(s) <==> j in Up(s - {k}) || j == k + 1;
      assert Up(s) == Up(s - {k}) + {k + 1};
    }
  }

  lemma ShiftedSize(later: set<nat>, all: set<nat>, first: bool)
    requires 0 !in later && 0 !in all && (1 in all <==> first)
    requires forall k: nat :: k >= 2 ==> (k in all <==> k - 1 in later)
    ensures |all| == (if first then 1 else 0) + |later|
  {
    UpSize(later);
    forall k: nat ensures k in all <==> k in Up(later) || (k == 1 && first) {
      assert k >= 2 && k in Up(later) ==> k - 1 in later;
      assert k >= 2 && k - 1 in later ==> k - 1 + 1 in Up(later);
    }
    assert all == Up(later) + if first then {1} else {};
  }

  /** A resample that deals the groups their own values again is as extreme as they are. */
  lemma OwnSplitIsExtreme(pool: seq<real>, a: seq<real>, b: seq<real>)
    requires multiset(pool) == multiset(a + b) && |pool| == |a| + |b| && a != [] && b != []
    requires multiset(pool[..|a|]) == multiset(a)
    ensures AsExtreme(pool, a, b)
  {
    assert pool == pool[..|a|] + pool[|a|..];
    assert multiset(pool[|a|..]) == multiset(pool) - multiset(pool[..|a|]);
    assert multiset(b) == multiset(a + b) - multiset(a);
    SumReordered(pool[..|a|], a);
    SumReordered(pool[|a|..], b);
  }

  lemma {:induction false} PoolPermutes(pool: seq<real>, state: nat, k: nat)
    ensures multiset(PoolAfter(pool, state, k)) == multiset(pool)
    decreases k
  {
    if k > 0 {
      ShufflePermutes(pool, DrawChoices(state, |pool|));
      PoolPermutes(Resampled(pool, state), StateAfter(state, |pool|), k - 1);
    }
  }

  /** The resamples that deal the groups their own values again. */
  ghost function OwnSplits(a: seq<real>, b: seq<real>, seed: nat, r: nat): set<nat>
  {
    set k: nat | 1 <= k <= r && multiset(PoolAfter(a + b, seed, k)[..|a|]) == multiset(a)
  }

  /** So p is at least their share, and one. */
  lemma OwnSplitsCount(a: seq<real>, b: seq<real>, resamples: nat, seed: nat)
    requires a != [] && b != []
    ensures PValue(a, b, resamples, seed)
         >= (1.0 + |OwnSplits(a, b, seed, resamples)| as real) / (resamples as real + 1.0)
  {
    var own, all := OwnSplits(a, b, seed, resamples), Extremes(a + b, a, b, seed, resamples);
    forall k | k in own ensures k in all {
      PoolPermutes(a + b, seed, k);
      OwnSplitIsExtreme(PoolAfter(a + b, seed, k), a, b);
    }
    SubsetSize(own, all);
    PValueCounts(a, b, resamples, seed);
    QuotientGrows(1.0 + |own| as real, 1.0 + |all| as real, resamples as real + 1.0);
  }

  lemma QuotientGrows(x: real, y: real, r: real)
    requires x <= y && r > 0.0
    ensures x / r <= y / r
  {}

  // ---- what the p-value can be ------------------------------------------------------------

  /** The smoothed p-value is never zero: it lies between 1/(R+1) and 1. */
  lemma PValueBounds(a: seq<real>, b: seq<real>, resamples: nat, seed: nat)
    ensures 1.0 / (resamples as real + 1.0) <= PValue(a, b, resamples, seed) <= 1.0
  {
    hide ExtremeCount, Mean, Abs;
    var r := resamples as real + 1.0;
    if a == [] || b == [] {
      QuotientBounds(1.0, r);
      QuotientBounds(r, r);
    } else {
      var count := ExtremeCount(a + b, seed, |a|, Abs(Mean(b) - Mean(a)), resamples);
      QuotientBounds(count as real + 1.0, r);
    }
  }

  lemma QuotientBounds(c: real, r: real)
    requires 1.0 <= c <= r
    ensures 1.0 / r <= c / r <= 1.0
  {}

  /** With no observed gap every resample is as extreme, and p is 1. */
  lemma EqualMeansGiveOne(a: seq<real>, b: seq<real>, resamples: nat, seed: nat)
    requires Mean(a) == Mean(b)
    ensures PValue(a, b, resamples, seed) == 1.0
  {
    if a != [] && b != [] {
      assert Abs(Mean(b) - Mean(a)) == 0.0;
      AllExtreme(a + b, seed, |a|, resamples);
      SmoothedAll(resamples);
    }
  }

  lemma SmoothedAll(resamples: nat)
    ensures Smoothed(resamples, resamples) == 1.0
  {
    SelfQuotient(resamples as real + 1.0);
  }

  lemma SelfQuotient(x: real)
    requires x > 0.0
    ensures x / x == 1.0
  {}

  lemma {:induction false} AllExtreme(pool: seq<real>, state: nat, na: nat, r: nat)
    requires na <= |pool|
    ensures ExtremeCount(pool, state, na, 0.0, r) == r
    decreases r
  {
    if r > 0 {
      AllExtreme(Resampled(pool, state), StateAfter(state, |pool|), na, r - 1);
    }
  }
}
