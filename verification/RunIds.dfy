/** The ids a run gives its VMs: 32 hexadecimal digits, led by a millisecond timestamp. */
module RunIds {
  import opened Decimal
  import opened Powers

  /** The low `width` hexadecimal digits of `n`, zeros included. */
  function Hex(n: nat, width: nat): (s: string)
    ensures |s| == width
  {
    if width == 0 then "" else Hex(n / 16, width - 1) + [HexDigit(n % 16)]
  }

  const TIMESTAMPS: nat := 0x1_0000_0000_0000
  const ENTROPIES: nat := 0x1_0000_0000_0000_0000_0000

  /** `new_run_id`: 48 bits of timestamp above 80 bits of entropy. */
  function RunId(ms: nat, entropy: nat): string
  {
    Hex(ms * ENTROPIES + entropy, 32)
  }

  /** An id issued at any time but the epoch itself. */
  ghost predicate Issued(id: string)
  {
    exists ms: nat, entropy: nat :: 0 < ms < TIMESTAMPS && entropy < ENTROPIES && id == RunId(ms, entropy)
  }

  /** `x` with `k` decimal zeros behind it. */
  function Tens(k: nat, x: nat): nat
  {
    if k == 0 then x else 10 * Tens(k - 1, x)
  }

  lemma {:induction false} TensGrow(k: nat, x: nat, y: nat)
    requires x <= y
    ensures Tens(k, x) <= Tens(k, y)
  {
    if k > 0 {
      TensGrow(k - 1, x, y);
    }
  }

  function Sixteen(k: nat): (p: nat)
    ensures p > 0
  {
    if k == 0 then 1 else 16 * Sixteen(k - 1)
  }

  lemma SixteenValues()
    ensures Sixteen(12) == TIMESTAMPS && Sixteen(20) == ENTROPIES
  {
    assert Sixteen(6) == 0x100_0000;
    assert Sixteen(16) == 0x1_0000 * Sixteen(12);
  }

  /** `n` without its low `k` hexadecimal digits. */
  function Shift(n: nat, k: nat): nat
  {
    if k == 0 then n else Shift(n / 16, k - 1)
  }

  lemma {:induction false} ShiftsOut(a: nat, e: nat, k: nat)
    requires e < Sixteen(k)
    ensures Shift(a * Sixteen(k) + e, k) == a
  {
    if k > 0 {
      var p := Sixteen(k - 1);
      DropDigit(a, e, p);
      ShiftsOut(a, e / 16, k - 1);
    }
  }

  lemma DropDigit(a: nat, e: nat, p: nat)
    requires e < 16 * p
    ensures (a * (16 * p) + e) / 16 == a * p + e / 16 && e / 16 < p
  {
    var b := a * p;
    assert a * (16 * p) == 16 * b;
  }

  /** A positive number that fits its digits, all of them decimal, does not read as zero. */
  lemma {:induction false} DigitsNotZero(n: nat, width: nat)
    requires 0 < n < Sixteen(width) && AllDigits(Hex(n, width))
    ensures Decimal.Value(Hex(n, width)) > 0
  {
    if width > 0 {
      var s := Hex(n, width);
      assert s[width - 1] == HexDigit(n % 16);
      if n / 16 > 0 {
        assert s[..width - 1] == Hex(n / 16, width - 1);
        DropDigit(0, n, Sixteen(width - 1));
        DigitsNotZero(n / 16, width - 1);
      }
    }
  }

  lemma {:induction false} FrontDigits(n: nat, width: nat, k: nat)
    requires k <= width
    ensures Hex(n, width)[..width - k] == Hex(Shift(n, k), width - k)
  {
    if k > 0 {
      FrontDigits(n / 16, width - 1, k - 1);
      assert Hex(n, width)[..width - k] == Hex(n / 16, width - 1)[..width - k];
    } else {
      assert Hex(n, width)[..width] == Hex(n, width);
    }
  }

  /** Read as decimal, the front of a number is worth a power of ten for each digit behind it. */
  lemma {:induction false} FrontWeighs(s: string, k: nat)
    requires k <= |s| && AllDigits(s)
    ensures Decimal.Value(s) >= Tens(k, Decimal.Value(s[..|s| - k]))
  {
    if k > 0 {
      var front := s[..|s| - 1];
      FrontWeighs(front, k - 1);
      assert front[..|front| - (k - 1)] == s[..|s| - k];
    } else {
      assert s[..|s|] == s;
    }
  }

  lemma TwentyZeros()
    ensures Tens(20, 1) >= U64
  {
    assert Tens(10, 1) == 10000000000;
    assert Tens(20, 1) == 10000000000 * Tens(10, 1);
  }

  /** An issued id never reads as a handle: even spelt in decimal digits alone it is too large
      for 64 bits. */
  lemma IssuedIsNoHandle(id: string)
    requires Issued(id)
    ensures Parse(id, U64).None?
  {
    var ms: nat, entropy: nat :| 0 < ms < TIMESTAMPS && entropy < ENTROPIES && id == RunId(ms, entropy);
    var n := ms * ENTROPIES + entropy;
    FirstDigit(n, 32);
    if AllDigits(id) {
      SixteenValues();
      ShiftsOut(ms, entropy, 20);
      TooLarge(n, ms);
    }
  }

  lemma TooLarge(n: nat, ms: nat)
    requires Shift(n, 20) == ms && 0 < ms < Sixteen(12) && AllDigits(Hex(n, 32))
    ensures Decimal.Value(Hex(n, 32)) >= U64
  {
    FrontDigits(n, 32, 20);
    FrontWeighs(Hex(n, 32), 20);
    DigitsNotZero(ms, 12);
    TwentyZeros();
    TensGrow(20, 1, Decimal.Value(Hex(ms, 12)));
  }

  lemma {:induction false} FirstDigit(n: nat, width: nat)
    requires width > 0
    ensures Hex(n, width)[0] != '+'
  {
    if width > 1 {
      FirstDigit(n / 16, width - 1);
    }
  }
}
