/**
 * The few JavaScript `Math` operations the calculator uses, over exact reals.
 * IEEE-754 rounding is not modelled: every number is an exact rational.
 */
module JsMath {

  /** `Math.pow(x, n)` for a whole exponent `n`, as repeated multiplication. */
  function Pow(x: real, n: nat): real {
    if n == 0 then 1.0 else x * Pow(x, n - 1)
  }

  lemma {:induction false} PowOfOne(n: nat)
    ensures Pow(1.0, n) == 1.0
  {
    if n > 0 {
      PowOfOne(n - 1);
    }
  }

  lemma {:induction false} PowPositive(x: real, n: nat)
    requires x > 0.0
    ensures Pow(x, n) > 0.0
  {
    if n > 0 {
      PowPositive(x, n - 1);
    }
  }

  /** A base above one grows strictly with the exponent. */
  lemma {:induction false} PowStrictlyIncreasing(x: real, i: nat, j: nat)
    requires x > 1.0 && i < j
    ensures Pow(x, i) < Pow(x, j)
  {
    PowPositive(x, j - 1);
    if i < j - 1 {
      PowStrictlyIncreasing(x, i, j - 1);
    }
    var p := Pow(x, j - 1);
    ScaleAboveOne(x, p);
    calc {
      Pow(x, i);
    <= p;
    < x * p;
    == Pow(x, j);
    }
  }

  /** Multiplying a positive number by a factor above one makes it larger. */
  lemma ScaleAboveOne(x: real, p: real)
    requires x > 1.0 && p > 0.0
    ensures x * p > p
  {
    assert x * p - p == (x - 1.0) * p;
    ProductPositive(x - 1.0, p);
  }

  lemma ProductPositive(a: real, b: real)
    requires a > 0.0 && b > 0.0
    ensures a * b > 0.0
  {
  }

  lemma ProductNonNegative(a: real, b: real)
    requires a >= 0.0 && b >= 0.0
    ensures a * b >= 0.0
  {
  }

  lemma PowAboveOne(x: real, n: nat)
    requires x > 1.0 && n >= 1
    ensures Pow(x, n) > 1.0
  {
    PowStrictlyIncreasing(x, 0, n);
  }

  /** `Math.round(x)`: the nearest integer, with halves rounded towards +infinity. */
  function Round(x: real): (r: int)
    ensures r as real - 0.5 <= x < r as real + 0.5
  {
    (x + 0.5).Floor
  }

  /** `Math.floor(x)`. */
  function Floor(x: real): (r: int)
    ensures r as real <= x < r as real + 1.0
  {
    x.Floor
  }

  /** `Math.max(a, b)` on reals. */
  function Max(a: real, b: real): (r: real)
    ensures r >= a && r >= b && (r == a || r == b)
  {
    if a >= b then a else b
  }

  /** `Math.max(a, b)` on whole numbers: the integer instance of `Max`, as the chart applies it to rounded balances. */
  function MaxInt(a: int, b: int): (r: int)
    ensures r >= a && r >= b && (r == a || r == b)
  {
    if a >= b then a else b
  }

  /**
   * JavaScript's `a % b` on whole numbers with `b > 0`: the remainder of division
   * truncated towards zero, which takes the sign of `a` (Dafny's `%` never does).
   */
  function TruncRem(a: int, b: int): (r: int)
    requires b > 0
    ensures a >= 0 ==> 0 <= r < b
    ensures a < 0 ==> -b < r <= 0
    ensures a == b * (if a >= 0 then a / b else -((-a) / b)) + r
  {
    if a >= 0 then a % b else -((-a) % b)
  }
}
