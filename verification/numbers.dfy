/** Small arithmetic helpers shared by the solver and analysis modules. */
module Numbers {

  function Min(a: real, b: real): (m: real)
    ensures m <= a && m <= b && (m == a || m == b)
  {
    if a <= b then a else b
  }

  function Max(a: real, b: real): (m: real)
    ensures m >= a && m >= b && (m == a || m == b)
  {
    if a >= b then a else b
  }

  function Abs(x: real): (r: real)
    ensures r >= 0.0 && (r == x || r == -x)
  {
    if x >= 0.0 then x else -x
  }

  /** A product p = x y of non-zero factors is non-zero, so it may divide. */
  lemma NonZeroProduct(x: real, y: real, p: real)
    requires x != 0.0 && y != 0.0 && p == x * y
    ensures p != 0.0
  {
  }

  /** A vanishing numerator over a non-zero denominator gives zero. */
  lemma ZeroOver(n: real, d: real)
    requires n == 0.0 && d != 0.0
    ensures n / d == 0.0
  {
  }

  /** The quotient n / d over a non-zero d: multiplied back by d it gives n. */
  function Ratio(n: real, d: real): (q: real)
    requires d != 0.0
    ensures q * d == n
  {
    n / d
  }

  /** x raised to a natural power. */
  function Pow(x: real, n: nat): real
  {
    if n == 0 then 1.0 else x * Pow(x, n - 1)
  }
}
