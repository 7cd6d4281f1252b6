/** The bucket arithmetic of the in-kernel histograms: `log2_u64`, the capped
    log2 slot, and the log-linear slot of the block gadget. */
module Slots {
  import opened Powers

  const SUBSLOTS: nat := 4
  const MAX_OCTAVES: nat := 40
  const LINEAR_SLOTS: nat := 160
  const LAST_LINEAR_SLOT: nat := 159

  // ---- log2_u64 -------------------------------------------------------------

  /** Bitwise or of two unsigned words. */
  function BitOr(a: nat, b: nat): nat
    decreases a + b
  {
    if a == 0 && b == 0 then 0
    else (if a % 2 == 1 || b % 2 == 1 then 1 else 0) + 2 * BitOr(a / 2, b / 2)
  }

  lemma {:induction false} BitOrZero(a: nat)
    ensures BitOr(a, 0) == a
  {
    if a > 0 {
      BitOrZero(a / 2);
    }
  }

  /** Or is addition when the low operand fits below the low set bit of the other. */
  lemma {:induction false} BitOrDisjoint(c: nat, b: nat, k: nat)
    requires b < Pow2(k)
    ensures BitOr(c * Pow2(k), b) == c * Pow2(k) + b
  {
    if k == 0 {
      BitOrZero(c);
    } else {
      var high := c * Pow2(k - 1);
      assert c * Pow2(k) == 2 * high;
      BitOrDisjoint(c, b / 2, k - 1);
    }
  }

  lemma MulMonotone(c: nat, x: nat, y: nat)
    requires x <= y
    ensures c * x <= c * y
  {}

  lemma MulAssoc(a: nat, b: nat, c: nat)
    ensures a * (b * c) == (a * b) * c
  {}

  lemma Quotient(v: nat, p: nat)
    requires p > 0
    ensures p * (v / p) <= v < p * (v / p + 1)
  {}

  /** Shifting more low bits out of a window of `value` leaves a window of `value`. */
  lemma ScaleWindow(value: nat, base: nat, v: nat, p: nat, w: nat)
    requires p * w <= v < p * (w + 1)
    requires base * v <= value < base * (v + 1)
    ensures (base * p) * w <= value < (base * p) * (w + 1)
  {
    MulMonotone(base, p * w, v);
    MulMonotone(base, v + 1, p * (w + 1));
    MulAssoc(base, p, w);
    MulAssoc(base, p, w + 1);
  }

  /** `v >> r` of `value`: the window that `r` low bits have been shifted out of. */
  ghost predicate Window(value: nat, r: nat, v: nat)
  {
    Pow2(r) * v <= value < Pow2(r) * (v + 1)
  }

  /** The effect of one `shift = (v > 2^s - 1) << k; v >>= shift; r |= shift`, where
      `s == 1 << k`, when the comparison holds. */
  lemma NarrowTaken(value: nat, v: nat, r: nat, s: nat, k: nat, q: nat)
    requires s == Pow2(k) && Pow2(s) <= v < Pow2(s) * Pow2(s)
    requires r == q * Pow2(k + 1) && Window(value, r, v)
    ensures 0 < v / Pow2(s) < Pow2(s)
    ensures BitOr(r, s) == r + s == (2 * q + 1) * s
    ensures Window(value, r + s, v / Pow2(s))
  {
    assert BitOr(r, s) == r + s by { BitOrDisjoint(q, s, k + 1); }
    assert r + s == (2 * q + 1) * s by { OddMultiple(q, s); }
    assert 0 < v / Pow2(s) < Pow2(s) by { QuotientBelow(v, Pow2(s)); }
    assert Window(value, r + s, v / Pow2(s)) by {
      Pow2Adds(r, s);
      Quotient(v, Pow2(s));
      ScaleWindow(value, Pow2(r), v, Pow2(s), v / Pow2(s));
    }
  }

  lemma OddMultiple(q: nat, s: nat)
    ensures q * (2 * s) == (2 * q) * s
    ensures q * (2 * s) + s == (2 * q + 1) * s
  {}

  lemma NarrowSkipped(r: nat, s: nat, k: nat, q: nat)
    requires s == Pow2(k) && r == q * Pow2(k + 1)
    ensures BitOr(r, 0) == r == (2 * q) * s
  {
    BitOrZero(r);
    assert q * (2 * s) == (2 * q) * s;
  }

  method NarrowBy(value: nat, v: nat, r: nat, s: nat, k: nat, ghost q: nat) returns (v': nat, r': nat, ghost q': nat)
    requires s == Pow2(k) && v < Pow2(s) * Pow2(s)
    requires r == q * Pow2(k + 1) && Window(value, r, v)
    ensures v' < Pow2(s) && r' == q' * s && Window(value, r', v')
    ensures if v == 0 then v' == 0 && r' == r else v' > 0
  {
    var shift := if v > Pow2(s) - 1 then s else 0;
    v' := v / Pow2(shift);
    r' := BitOr(r, shift);
    if shift == 0 {
      NarrowSkipped(r, s, k, q);
      q' := 2 * q;
    } else {
      NarrowTaken(value, v, r, s, k, q);
      q' := 2 * q + 1;
    }
  }

  lemma QuotientBelow(v: nat, p: nat)
    requires p > 0 && v < p * p
    ensures v / p < p
    ensures v >= p ==> v / p >= 1
  {
    var w := v / p;
    assert p * w <= v;
    assert w >= p ==> p * w >= p * p;
  }

  /** The last line, `r |= v >> 1`, with two bits left in the window. */
  lemma NarrowLast(value: nat, v: nat, r: nat, q: nat)
    requires 0 < v < 4 && r == q * 2 && Window(value, r, v)
    ensures BitOr(r, v / 2) == FloorLog2(value)
  {
    assert r == q * Pow2(1);
    BitOrDisjoint(q, v / 2, 1);
    if v >= 2 {
      Pow2Adds(r, 1);
      ScaleWindow(value, Pow2(r), v, 2, 1);
    }
    FloorLog2Unique(value, r + v / 2);
  }

  /** The kernel's branch-free integer log2 is the exact floor of log2 for every
      nonzero 64-bit word, and 0 for 0. */
  method Log2U64(value: nat) returns (r: nat)
    requires value < U64
    ensures r == FloorLog2(value) < 64
    ensures value > 0 ==> Pow2(r) <= value < Pow2(r + 1)
  {
    Pow2Values();
    var v := value;
    ghost var q := 0;
    r := 0;
    v, r, q := NarrowBy(value, v, r, 32, 5, q);
    v, r, q := NarrowBy(value, v, r, 16, 4, q);
    v, r, q := NarrowBy(value, v, r, 8, 3, q);
    v, r, q := NarrowBy(value, v, r, 4, 2, q);
    v, r, q := NarrowBy(value, v, r, 2, 1, q);
    if value > 0 {
      NarrowLast(value, v, r, q);
      FloorLog2Brackets(value);
    }
    FloorLog2Below(value, 64);
    r := BitOr(r, v / 2);
  }

  // ---- capped log2 slot -------------------------------------------------------

  /** The plain log2 slot: the octave, with everything from 2^39 up in the last slot. */
  function Log2Slot(delta: nat): (slot: nat)
    ensures slot < MAX_OCTAVES
  {
    var octave := FloorLog2(delta);
    if octave >= MAX_OCTAVES then MAX_OCTAVES - 1 else octave
  }

  /** `slot = log2_u64(delta); if (slot >= MAX_SLOTS) slot = MAX_SLOTS - 1`. */
  method CappedLog2(delta: nat) returns (slot: nat)
    requires delta < U64
    ensures slot == Log2Slot(delta)
  {
    slot := Log2U64(delta);
    if slot >= MAX_OCTAVES {
      slot := MAX_OCTAVES - 1;
    }
  }

  lemma Log2SlotMonotone(x: nat, y: nat)
    requires x <= y
    ensures Log2Slot(x) <= Log2Slot(y)
  {
    FloorLog2Monotone(x, y);
  }

  lemma Log2SlotBrackets(delta: nat)
    requires 1 <= delta < Pow2(40)
    ensures Pow2(Log2Slot(delta)) <= delta < 2 * Pow2(Log2Slot(delta))
  {
    FloorLog2Below(delta, 40);
    FloorLog2Brackets(delta);
  }

  // ---- log-linear slot ----------------------------------------------------------

  /** The linear sub-bucket within an octave; the product is taken in 64 bits. */
  function SubSlot(delta: nat, base: nat): (sub: nat)
    requires base > 0
    ensures sub < SUBSLOTS
  {
    var rem := if delta > base then delta - base else 0;
    var sub := Divided((rem * SUBSLOTS) % U64, base);
    if sub >= SUBSLOTS then SUBSLOTS - 1 else sub
  }

  function Divided(a: nat, b: nat): nat
    requires b > 0
  {
    a / b
  }

  /** The sub-bucket of a duration within its (capped) octave. */
  function SubOf(delta: nat): (sub: nat)
    ensures sub < SUBSLOTS
  {
    SubSlot(delta, Pow2(Log2Slot(delta)))
  }

  function LinearSlot(delta: nat): nat
  {
    Log2Slot(delta) * SUBSLOTS + SubOf(delta)
  }

  /** The slot as `handle_complete` computes it. */
  method LogLinearSlot(delta: nat) returns (slot: nat)
    requires delta < U64
    ensures slot == LinearSlot(delta) < LINEAR_SLOTS
  {
    var octave := CappedLog2(delta);
    var base := Pow2(octave);
    var rem := if delta > base then delta - base else 0;
    var sub := ((rem * SUBSLOTS) % U64) / base;
    if sub >= SUBSLOTS {
      sub := SUBSLOTS - 1;
    }
    assert sub == SubOf(delta);
    slot := octave * SUBSLOTS + sub;
    if slot >= LINEAR_SLOTS {
      slot := LAST_LINEAR_SLOT;
    }
  }

  /** Every sub-bucket lies in its own octave, even for a duration whose product wraps. */
  lemma LinearSlotRefinesLog2(delta: nat)
    ensures LinearSlot(delta) < LINEAR_SLOTS
    ensures LinearSlot(delta) / SUBSLOTS == Log2Slot(delta)
  {}

  /** Four times the lower edge of sub-bucket `sub` of an octave starting at `p`, a whole number. */
  function QuarterEdge(p: nat, sub: nat): nat
  {
    4 * p + p * sub
  }

  /** The first duration whose sub-bucket product wraps past 64 bits. */
  const FIRST_WRAP: nat := 0x4000_0080_0000_0000

  lemma FirstWrapIs()
    ensures FIRST_WRAP == Pow2(62) + Pow2(39)
  {
    Pow2Values();
    Pow2Adds(62, 2);
  }

  /** A duration below 2^40 lies between the edges of its sub-bucket. */
  lemma LinearSlotBrackets(delta: nat)
    requires 1 <= delta < Pow2(40)
    ensures var p := Pow2(Log2Slot(delta));
            QuarterEdge(p, SubOf(delta)) <= 4 * delta < QuarterEdge(p, SubOf(delta) + 1)
  {
    Log2SlotBrackets(delta);
    Pow2Grows(Log2Slot(delta), 39);
    Pow2Values();
    SubSlotBrackets(delta, Pow2(Log2Slot(delta)));
  }

  lemma SubSlotBrackets(delta: nat, base: nat)
    requires 0 < base <= delta < 2 * base <= U64 / 4
    ensures QuarterEdge(base, SubSlot(delta, base)) <= 4 * delta < QuarterEdge(base, SubSlot(delta, base) + 1)
  {
    var product := (delta - base) * SUBSLOTS;
    var sub := product / base;
    assert product % U64 == product;
    Quotient(product, base);
    assert sub < SUBSLOTS by { QuotientAtMost(product, base, SUBSLOTS); }
  }

  lemma QuotientAtMost(v: nat, p: nat, bound: nat)
    requires p > 0 && v < p * bound
    ensures v / p < bound
  {
    Quotient(v, p);
    if v / p >= bound {
      MulMonotone(p, bound, v / p);
    }
  }

  lemma DivMonotone(x: nat, y: nat, d: nat)
    requires x <= y && d > 0
    ensures x / d <= y / d
  {
    Quotient(x, d);
    Quotient(y, d);
    if y / d < x / d {
      MulMonotone(d, y / d + 1, x / d);
    }
  }

  lemma LinearSlotMonotone(x: nat, y: nat)
    requires x <= y < FIRST_WRAP
    ensures LinearSlot(x) <= LinearSlot(y)
  {
    Log2SlotMonotone(x, y);
    if Log2Slot(x) == Log2Slot(y) {
      NoWrap(x);
      NoWrap(y);
      SubSlotMonotone(x, y, Pow2(Log2Slot(y)));
    }
  }

  lemma SubSlotMonotone(x: nat, y: nat, base: nat)
    requires x <= y && base > 0
    requires x > base ==> (x - base) * SUBSLOTS < U64
    requires y > base ==> (y - base) * SUBSLOTS < U64
    ensures SubSlot(x, base) <= SubSlot(y, base)
  {
    var rx := if x > base then x - base else 0;
    var ry := if y > base then y - base else 0;
    assert (rx * SUBSLOTS) % U64 == rx * SUBSLOTS;
    assert (ry * SUBSLOTS) % U64 == ry * SUBSLOTS;
    DivMonotone(rx * SUBSLOTS, ry * SUBSLOTS, base);
  }

  lemma NoWrap(delta: nat)
    requires delta < FIRST_WRAP
    ensures var base := Pow2(Log2Slot(delta)); delta > base ==> (delta - base) * SUBSLOTS < U64
  {
    Pow2Values();
    if FloorLog2(delta) < 39 {
      FloorLog2Below(delta, 39);
    }
  }

  /** Longer durations never land in a lower slot, for exactly the ranges that end at or
      below the first wrap. */
  lemma LinearSlotMonotoneExactly(bound: nat)
    ensures (forall x: nat, y: nat :: x <= y < bound ==> LinearSlot(x) <= LinearSlot(y)) <==> bound <= FIRST_WRAP
  {
    if bound <= FIRST_WRAP {
      forall x: nat, y: nat | x <= y < bound
        ensures LinearSlot(x) <= LinearSlot(y)
      {
        LinearSlotMonotone(x, y);
      }
    } else {
      WrapLandsLow();
      assert FIRST_WRAP - 1 <= FIRST_WRAP < bound;
    }
  }

  lemma WrapLandsLow()
    ensures LinearSlot(FIRST_WRAP - 1) == 159 && LinearSlot(FIRST_WRAP) == 156
  {
    Pow2Values();
    FloorLog2Below(FIRST_WRAP - 1, 40);
    FloorLog2Below(FIRST_WRAP, 40);
    assert Log2Slot(FIRST_WRAP) == 39 == Log2Slot(FIRST_WRAP - 1);
    assert ((FIRST_WRAP - 0x80_0000_0000) * SUBSLOTS) % U64 == 0;
    assert (FIRST_WRAP - 1 - 0x80_0000_0000) * SUBSLOTS == U64 - 4;
    assert (U64 - 4) / 0x80_0000_0000 >= 4;
  }
}
