/**
 * `Math.floor(a / b)` and `Math.ceil(a / b)` for integers, where JavaScript
 * divides exactly and then rounds. Dafny's own `/` rounds so that the
 * remainder is never negative, which is the floor only for a positive divisor.
 */
module Arith {

  /** `Math.floor(a / b)`: the greatest `r` with `r <= a / b`. */
  function FloorDiv(a: int, b: int): (r: int)
    requires b != 0
    ensures b > 0 ==> r * b <= a < (r + 1) * b
    ensures b < 0 ==> r * b >= a > (r + 1) * b
  {
    if b > 0 then a / b else (-a) / (-b)
  }

  /** `Math.ceil(a / b)`: the least `r` with `r >= a / b`. */
  function CeilDiv(a: int, b: int): (r: int)
    requires b != 0
    ensures b > 0 ==> (r - 1) * b < a <= r * b
    ensures b < 0 ==> (r - 1) * b > a >= r * b
  {
    -FloorDiv(-a, b)
  }

  function Min(a: int, b: int): int { if a <= b then a else b }

  function Max(a: int, b: int): int { if a >= b then a else b }

  lemma MulNonNegative(a: int, b: int)
    requires a >= 0 && b >= 0
    ensures a * b >= 0
  {
  }

  /** Multiplying by a non-negative factor keeps an inequality. */
  lemma MulMonotone(a: int, b: int, c: int)
    requires a <= b && c >= 0
    ensures a * c <= b * c
  {
    assert b * c - a * c == (b - a) * c;
    MulNonNegative(b - a, c);
  }

  /** One more factor adds `b` once more. */
  lemma MulSucc(a: int, b: int)
    ensures (a + 1) * b == a * b + b
  {
  }
}
