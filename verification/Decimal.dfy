/** Integers as text. */
module Decimal {
  import opened Options

  predicate IsDigit(c: char)
  {
    '0' <= c <= '9'
  }

  function DigitOf(d: nat): (c: char)
    requires d < 10
    ensures IsDigit(c) && DigitValue(c) == d
  {
    '0' + d as char
  }

  /** A lower-case hexadecimal digit. */
  function HexDigit(d: nat): (c: char)
    requires d < 16
    ensures IsDigit(c) ==> d == DigitValue(c)
  {
    if d < 10 then DigitOf(d) else 'a' + (d - 10) as char
  }

  function DigitValue(c: char): nat
    requires IsDigit(c)
  {
    (c as int) - ('0' as int)
  }

  predicate AllDigits(s: string)
  {
    forall i :: 0 <= i < |s| ==> IsDigit(s[i])
  }

  /** The number as `Display` writes it: no sign, no leading zeros. */
  function Render(n: nat): (s: string)
    ensures s != [] && AllDigits(s)
  {
    if n < 10 then [DigitOf(n)] else Render(n / 10) + [DigitOf(n % 10)]
  }

  /** A signed integer as `to_string` writes it. */
  function IntText(n: int): (s: string)
    ensures s != [] && (IsDigit(s[0]) || s[0] == '-')
  {
    if n < 0 then "-" + Render(-n) else Render(n)
  }

  function Value(s: string): nat
    requires AllDigits(s)
  {
    if s == [] then 0 else 10 * Value(s[..|s| - 1]) + DigitValue(s[|s| - 1])
  }

  /** An unsigned `parse` with an exclusive upper limit: an optional plus sign, then at
      least one digit and nothing else. */
  function Parse(s: string, limit: nat): (r: Option<nat>)
  {
    var digits := if s != [] && s[0] == '+' then s[1..] else s;
    if digits == [] || !AllDigits(digits) || Value(digits) >= limit then None else Some(Value(digits))
  }

  lemma {:induction false} ValueOfRender(n: nat)
    ensures Value(Render(n)) == n
  {
    if n >= 10 {
      ValueOfRender(n / 10);
      assert Render(n)[..|Render(n)| - 1] == Render(n / 10);
    }
  }

  /** Every number below the limit survives rendering and parsing; a larger one is refused. */
  lemma RenderParses(n: nat, limit: nat)
    ensures Parse(Render(n), limit) == if n < limit then Some(n) else None
  {
    ValueOfRender(n);
    assert Render(n)[0] != '+' by { assert IsDigit(Render(n)[0]); }
  }

  lemma RenderInjective(m: nat, n: nat)
    requires Render(m) == Render(n)
    ensures m == n
  {
    ValueOfRender(m);
    ValueOfRender(n);
  }
}
