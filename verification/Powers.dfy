/** Powers of two and the floor of the base-two logarithm. */
module Powers {

  const U32: nat := 0x1_0000_0000
  const U64: nat := 0x1_0000_0000_0000_0000

  function Pow2(n: nat): (p: nat)
    ensures p > 0
  {
    if n == 0 then 1 else 2 * Pow2(n - 1)
  }

  lemma {:induction false} Pow2Adds(a: nat, b: nat)
    ensures Pow2(a + b) == Pow2(a) * Pow2(b)
  {
    if a > 0 {
      Pow2Adds(a - 1, b);
      assert a + b - 1 == a - 1 + b;
      Doubled(Pow2(a - 1), Pow2(b));
    }
  }

  lemma Doubled(x: nat, y: nat)
    ensures 2 * (x * y) == (2 * x) * y
  {
  }

  lemma {:induction false} Pow2Grows(a: nat, b: nat)
    requires a <= b
    ensures Pow2(a) <= Pow2(b)
    ensures a < b ==> 2 * Pow2(a) <= Pow2(b)
  {
    if a < b {
      Pow2Grows(a, b - 1);
    }
  }

  lemma Pow2Doubles(n: nat, p: nat)
    requires Pow2(n) == p
    ensures Pow2(n + n) == p * p
  {
    Pow2Adds(n, n);
  }

  lemma Pow2Values()
    ensures Pow2(0) == 1 && Pow2(1) == 2 && Pow2(2) == 4 && Pow2(4) == 16 && Pow2(8) == 0x100
    ensures Pow2(16) == 0x1_0000 && Pow2(32) == U32 && Pow2(64) == U64
    ensures Pow2(39) == 0x80_0000_0000 && Pow2(40) == 0x100_0000_0000
  {
    Pow2Doubles(4, 16);
    Pow2Doubles(8, 0x100);
    Pow2Doubles(16, 0x1_0000);
    Pow2Doubles(32, U32);
    assert Pow2(40) == 0x100 * Pow2(32);
  }

  /** The exponent of the highest set bit; 0 for 0, as the kernel code has it. */
  function FloorLog2(v: nat): (r: nat)
  {
    if v < 2 then 0 else 1 + FloorLog2(v / 2)
  }

  lemma {:induction false} FloorLog2Brackets(v: nat)
    requires v > 0
    ensures Pow2(FloorLog2(v)) <= v < Pow2(FloorLog2(v) + 1)
  {
    if v >= 2 {
      FloorLog2Brackets(v / 2);
    } else {
      Pow2Values();
    }
  }

  /** The bracketing determines the exponent. */
  lemma FloorLog2Unique(v: nat, r: nat)
    requires Pow2(r) <= v < Pow2(r + 1)
    ensures r == FloorLog2(v)
  {
    FloorLog2Brackets(v);
    var f := FloorLog2(v);
    if f < r {
      Pow2Grows(f + 1, r);
    } else if r < f {
      Pow2Grows(r + 1, f);
    }
  }

  lemma FloorLog2Monotone(v: nat, w: nat)
    requires v <= w
    ensures FloorLog2(v) <= FloorLog2(w)
  {
    if v > 0 {
      FloorLog2Brackets(v);
      FloorLog2Brackets(w);
      if FloorLog2(w) < FloorLog2(v) {
        Pow2Grows(FloorLog2(w) + 1, FloorLog2(v));
      }
    }
  }

  lemma FloorLog2Below(v: nat, n: nat)
    requires n > 0
    ensures v < Pow2(n) <==> FloorLog2(v) < n
  {
    if v > 0 {
      FloorLog2Brackets(v);
      if FloorLog2(v) < n {
        Pow2Grows(FloorLog2(v) + 1, n);
      } else {
        Pow2Grows(n, FloorLog2(v));
      }
    }
  }
}
