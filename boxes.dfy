/** Axis-aligned boxes as the engines report them, and the integer truncations the core applies
    to rescaled coordinates. */
module Boxes {

  /** A `position` dictionary with all four keys: `x`, `y`, `width`, `height`. */
  datatype Box = Box(x: int, y: int, width: int, height: int)

  /** Python's `int(n / d)` for a positive divisor: the exact quotient truncated toward zero. */
  function TruncDiv(n: int, d: int): (q: int)
    requires d > 0
    ensures n >= 0 ==> 0 <= q && q * d <= n < (q + 1) * d
    ensures n < 0 ==> q <= 0 && (q - 1) * d < n <= q * d
  {
    if n >= 0 then DivBounds(n, d); n / d else DivBounds(-n, d); -((-n) / d)
  }

  /** Floor division of a non-negative number brackets it between consecutive multiples, and
      the negated quotient brackets the negated number. */
  lemma DivBounds(n: int, d: int)
    requires 0 <= n && 0 < d
    ensures 0 <= n / d && (n / d) * d <= n < (n / d + 1) * d
    ensures (-(n / d) - 1) * d < -n <= -(n / d) * d
  {
    var k := n / d;
    assert n == k * d + n % d;
    assert (k + 1) * d == k * d + d;
    assert (-k - 1) * d == -(k * d) - d;
    assert -k * d == -(k * d);
  }

  /** Python's `int(r)` for a float `r`: truncation toward zero. */
  function Trunc(r: real): (q: int)
    ensures r >= 0.0 ==> 0 <= q && q as real <= r < q as real + 1.0
    ensures r < 0.0 ==> q <= 0 && q as real - 1.0 < r <= q as real
  {
    if r >= 0.0 then r.Floor else -((-r).Floor)
  }

  function Max(a: int, b: int): (m: int)
    ensures m >= a && m >= b && (m == a || m == b)
  {
    if a >= b then a else b
  }

  function Min(a: int, b: int): (m: int)
    ensures m <= a && m <= b && (m == a || m == b)
  {
    if a <= b then a else b
  }
}
