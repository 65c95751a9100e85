/**
 * Swift's numeric conversions and integer division, written out over Dafny's
 * unbounded `int` and exact `real`: `Int(x)` truncates toward zero, `ceil`
 * rounds up, and `/` and `%` on `Int` truncate toward zero (the remainder takes
 * the sign of the dividend), unlike Dafny's Euclidean operators.
 */
module SwiftNumbers {

  /** `Int(x)`: the integer part of `x`, rounding toward zero. */
  function Trunc(x: real): (i: int)
    ensures x >= 0.0 ==> 0 <= i && i as real <= x < i as real + 1.0
    ensures x < 0.0 ==> i <= 0 && i as real - 1.0 < x <= i as real
  {
    if x >= 0.0 then x.Floor else -((-x).Floor)
  }

  /** `ceil(x)`: the least integer not below `x`. */
  function Ceil(x: real): (i: int)
    ensures x <= i as real < x + 1.0
  {
    -((-x).Floor)
  }

  /** `a / b` on `Int` for a positive divisor. */
  function Quot(a: int, b: int): (q: int)
    requires b > 0
  {
    if a >= 0 then a / b else -((-a) / b)
  }

  /** `a % b` on `Int` for a positive divisor. */
  function Rem(a: int, b: int): (r: int)
    requires b > 0
  {
    if a >= 0 then a % b else -((-a) % b)
  }

  /** Dafny's division of a non-negative number by a positive one. */
  lemma EuclidNatural(a: int, b: int)
    requires a >= 0 && b > 0
    ensures a / b * b + a % b == a && 0 <= a % b < b && a / b >= 0
  {
  }

  /** Quotient and remainder recombine to the dividend; the remainder is smaller than the divisor and keeps the dividend's sign. */
  lemma QuotRem(a: int, b: int)
    requires b > 0
    ensures Quot(a, b) * b + Rem(a, b) == a
    ensures a >= 0 ==> 0 <= Rem(a, b) < b && Quot(a, b) >= 0
    ensures a < 0 ==> -b < Rem(a, b) <= 0 && Quot(a, b) <= 0
  {
    if a >= 0 {
      EuclidNatural(a, b);
    } else {
      EuclidNatural(-a, b);
      var q := (-a) / b;
      assert (-q) * b == -(q * b);
    }
  }

  /** On non-negative operands Swift's operators agree with Dafny's. */
  lemma QuotRemNatural(a: int, b: int)
    requires a >= 0 && b > 0
    ensures Quot(a, b) == a / b && Rem(a, b) == a % b
  {
  }

  /** A number `k * 60 + s` with `0 <= s < 60` leaves remainder `s` and quotient `k`. */
  lemma DivisionBy60(k: int, s: int)
    requires 0 <= s < 60
    ensures (k * 60 + s) / 60 == k && (k * 60 + s) % 60 == s
  {
    var x := k * 60 + s;
    var q, r := x / 60, x % 60;
    assert (q - k) * 60 == s - r;
  }
}
