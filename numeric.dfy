/** JavaScript's `Math.round`, `Math.min` and `Math.max` over exact reals and integers. */
module Numeric {
  /** `Math.round(x)`: the nearest integer, halves rounded up. */
  function Round(x: real): (n: int)
    ensures n as real - 0.5 <= x < n as real + 0.5
  {
    (x + 0.5).Floor
  }

  function MinReal(x: real, y: real): real {
    if x <= y then x else y
  }

  function MaxInt(x: int, y: int): int {
    if x >= y then x else y
  }

  /** Rounding never reverses an order. */
  lemma RoundMonotone(x: real, y: real)
    requires x <= y
    ensures Round(x) <= Round(y)
  {
  }

  /** A value between two integers rounds to a value between them. */
  lemma RoundBetween(x: real, lo: int, hi: int)
    requires lo as real <= x <= hi as real
    ensures lo <= Round(x) <= hi
  {
  }

  /** An integer rounds to itself. */
  lemma RoundInt(n: int)
    ensures Round(n as real) == n
  {
  }

  /** A fraction whose numerator is at most its positive denominator lies in [0, 1]. */
  lemma Fraction(x: real, y: real)
    requires 0.0 <= x <= y && y > 0.0
    ensures 0.0 <= x / y <= 1.0
  {
    assert x / y * y == x;
  }

  /** Dividing by a larger positive denominator never gives a larger quotient. */
  lemma SmallerDenominator(a: real, b: real, c: real)
    requires 0.0 <= a && 0.0 < b <= c
    ensures a / c <= a / b
  {
    var x := a / b;
    var y := a / c;
    assert x * b == a && y * c == a;
    assert x >= 0.0;
    assert x * b <= x * c;
  }

  /** A quotient exceeds `c` exactly when the numerator exceeds `c` times the positive denominator. */
  lemma AboveRatio(a: real, b: real, c: real)
    requires b > 0.0
    ensures a / b > c <==> a > c * b
  {
    var x := a / b;
    assert x * b == a;
    if x > c {
      assert (x - c) * b > 0.0;
    } else {
      assert (c - x) * b >= 0.0;
    }
  }
}
