/**
 * Exact rational arithmetic as the library uses it: Ruby `Rational` values are
 * Dafny `real`s (both are exact fractions), and `Rational#round` rounds to the
 * nearest integer with halves going away from zero.
 */
module Numbers {

  /** Rational#round with no arguments. */
  function Round(x: real): (n: int)
    ensures x >= 0.0 ==> n as real - 0.5 <= x < n as real + 0.5
    ensures x < 0.0 ==> n as real - 0.5 < x <= n as real + 0.5
  {
    if x >= 0.0 then (x + 0.5).Floor else -((-x + 0.5).Floor)
  }

  /** An integer rounds to itself. */
  lemma RoundOfInteger(k: int)
    ensures Round(k as real) == k
  {
    var n := Round(k as real);
    assert n as real - 0.5 <= k as real <= n as real + 0.5;
  }

  /** Rounding halves away from zero makes Round odd: Round(-x) == -Round(x). */
  lemma RoundNegate(x: real)
    ensures Round(-x) == -Round(x)
  {
    if x > 0.0 {
      assert -x < 0.0;
    } else if x < 0.0 {
      assert -(-x) == x;
    }
  }

  lemma FloorMonotone(a: real, b: real)
    requires a <= b
    ensures a.Floor <= b.Floor
  {
    assert a.Floor as real <= a <= b < b.Floor as real + 1.0;
  }

  lemma RoundMonotone(x: real, y: real)
    requires x <= y
    ensures Round(x) <= Round(y)
  {
    if 0.0 <= x {
      FloorMonotone(x + 0.5, y + 0.5);
    } else if y < 0.0 {
      FloorMonotone(-y + 0.5, -x + 0.5);
    } else {
      assert Round(x) <= 0 <= Round(y);
    }
  }

  /** A value between two integer bounds rounds to an integer between them. */
  lemma RoundBetween(x: real, lo: int, hi: int)
    requires lo as real <= x <= hi as real
    ensures lo <= Round(x) <= hi
  {
    RoundMonotone(lo as real, x);
    RoundMonotone(x, hi as real);
    RoundOfInteger(lo);
    RoundOfInteger(hi);
  }

  /** 10 to a natural power. */
  function Pow10(d: nat): (p: nat)
    ensures p >= 1
  {
    if d == 0 then 1 else 10 * Pow10(d - 1)
  }

  function Min(a: int, b: int): int {
    if a <= b then a else b
  }
}
