/** Rounding over the reals: half-to-even to an integer, to decimal places, and onto a grid. */
module Rounding {

  /** Nearest integer, halves to the even one. */
  function RoundHalfEven(x: real): int {
    var f := x.Floor;
    var d := x - f as real;
    if d < 0.5 then f else if d > 0.5 then f + 1 else if f % 2 == 0 then f else f + 1
  }

  function Pow10(d: nat): (p: int)
    ensures p >= 1
  {
    if d == 0 then 1 else 10 * Pow10(d - 1)
  }

  /** Division, with the fact that defines it. */
  function Div(x: real, y: real): (q: real)
    requires y != 0.0
    ensures q * y == x
  {
    x / y
  }

  /** Rounding to the decimals of which `scale` is the power of ten: `round(x, d)` at `scale == 10^d`. */
  function RoundTo(x: real, scale: real): (r: real)
    requires scale > 0.0
    ensures r * scale == RoundHalfEven(x * scale) as real
  {
    Div(RoundHalfEven(x * scale) as real, scale)
  }

  function Abs(x: real): real { if x < 0.0 then -x else x }

  function Min(x: real, y: real): real { if y < x then y else x }

  function Max(x: real, y: real): real { if y > x then y else x }

  lemma RoundHalfEvenNear(x: real)
    ensures -0.5 <= RoundHalfEven(x) as real - x <= 0.5
  {
  }

  /** It is the one integer within a half, and of the two at exactly a half the even one. */
  lemma RoundHalfEvenIff(x: real, n: int)
    ensures RoundHalfEven(x) == n <==>
      -0.5 <= n as real - x <= 0.5 && (n as real - x == 0.5 || n as real - x == -0.5 ==> n % 2 == 0)
  {
    RoundHalfEvenNear(x);
    var f := x.Floor;
    if -0.5 <= n as real - x <= 0.5 { assert n == f || n == f + 1 || (n == f - 1 && x == f as real - 0.5); }
  }

  lemma RoundHalfEvenMonotone(x: real, y: real)
    requires x <= y
    ensures RoundHalfEven(x) <= RoundHalfEven(y)
  {
    if x.Floor < y.Floor {
      assert RoundHalfEven(x) <= x.Floor + 1 <= y.Floor <= RoundHalfEven(y);
    }
  }

  lemma RoundHalfEvenFixes(n: int)
    ensures RoundHalfEven(n as real) == n
  {
  }

  lemma MulMonotone(x: real, y: real, k: real)
    requires x <= y && k >= 0.0
    ensures x * k <= y * k
  {
  }

  /** Cancelling a positive factor. */
  lemma Cancel(x: real, y: real, k: real)
    requires k > 0.0
    ensures x * k <= y * k <==> x <= y
    ensures x * k < y * k <==> x < y
    ensures x * k == y * k <==> x == y
  {
  }

  lemma Distribute(x: real, y: real, k: real)
    ensures (x - y) * k == x * k - y * k && (x + y) * k == x * k + y * k
  {
  }

  // The lemmas below name every product they speak of, so that their conclusions are linear.

  /** Comparing two numbers by their multiples. */
  lemma Compare(x: real, y: real, k: real, a: real, b: real)
    requires k > 0.0 && a == x * k && b == y * k
    ensures (x <= y <==> a <= b) && (x < y <==> a < b) && (x == y <==> a == b)
  {
  }

  lemma SumTimes(x: real, y: real, k: real, a: real, b: real)
    requires a == x * k && b == y * k
    ensures (x + y) * k == a + b && (x - y) * k == a - b
  {
  }

  /** Numbers at most `d` apart have multiples at most `d` multiples apart. */
  lemma Near(n: real, x: real, d: real, k: real, a: real, b: real, e: real)
    requires x - d <= n <= x + d && k >= 0.0
    requires a == x * k && b == n * k && e == d * k
    ensures a - e <= b <= a + e
  {
    SumTimes(x, d, k, a, e);
    MulMonotone(n, x + d, k);
    MulMonotone(x - d, n, k);
  }

  /** Regrouping a product of three. */
  lemma Regroup(x: real, y: real, z: real, a: real, b: real)
    requires a == x * y && b == y * z
    ensures a * z == x * b
  {
  }

  lemma IntProduct(k: int, n: int)
    ensures k as real * n as real == (k * n) as real
  {
  }

  /** Rounding moves a number by at most half of the last decimal. */
  lemma RoundToNear(x: real, scale: real)
    requires scale > 0.0
    ensures -0.5 <= RoundTo(x, scale) * scale - x * scale <= 0.5
  {
    RoundHalfEvenNear(x * scale);
  }

  lemma RoundToMonotone(x: real, y: real, scale: real)
    requires x <= y && scale > 0.0
    ensures RoundTo(x, scale) <= RoundTo(y, scale)
  {
    MulMonotone(x, y, scale);
    RoundHalfEvenMonotone(x * scale, y * scale);
    Compare(RoundTo(x, scale), RoundTo(y, scale), scale, RoundHalfEven(x * scale) as real, RoundHalfEven(y * scale) as real);
  }

  /** `x` is a whole number of units of one over `scale`. */
  ghost predicate OnGrid(x: real, scale: real) { exists n: int :: Scaled(x, scale, n) }

  predicate Scaled(x: real, scale: real, n: int) { x * scale == n as real }

  lemma RoundToFixes(x: real, scale: real)
    requires scale > 0.0 && OnGrid(x, scale)
    ensures RoundTo(x, scale) == x
  {
    var n :| Scaled(x, scale, n);
    RoundHalfEvenFixes(n);
    Cancel(RoundTo(x, scale), x, scale);
  }

  function Steps(k: int, step: real): real { k as real * step }

  /** Whole multiples of a grid number are on the grid. */
  lemma MultipleOnGrid(k: int, step: real, scale: real)
    requires OnGrid(step, scale)
    ensures OnGrid(Steps(k, step), scale)
  {
    var n :| Scaled(step, scale, n);
    Regroup(k as real, step, scale, Steps(k, step), n as real);
    IntProduct(k, n);
    assert Scaled(Steps(k, step), scale, k * n);
  }
}
