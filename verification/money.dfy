/** Monetary amounts. The source stores money as floating-point numbers;
    here amounts are exact reals, so every property below is stated for
    exact arithmetic. */
module Money {

  /** Zero tolerance of the settlement minimiser (1e-9). */
  const Eps: real := 0.000000001

  /** One cent: the tolerance used when shares are checked against the
      expense amount and when a balance is described to the user. */
  const Cent: real := 0.01

  function Min(a: real, b: real): (r: real)
    ensures r <= a && r <= b
    ensures r == a || r == b
  {
    if a <= b then a else b
  }

  function Abs(x: real): (r: real)
    ensures r >= 0.0
    ensures r == x || r == -x
  {
    if x < 0.0 then -x else x
  }

  /** A whole number of cents. */
  predicate IsCents(x: real)
  {
    (x * 100.0).Floor as real == x * 100.0
  }

  /** Round half to even: the integer nearest to `y`, a tie going to the
      even neighbour. */
  function RoundHalfEven(y: real): (n: int)
    ensures y - 0.5 <= n as real <= y + 0.5
  {
    var c := y.Floor;
    var frac := y - c as real;
    if frac < 0.5 then c
    else if frac > 0.5 then c + 1
    else if c % 2 == 0 then c else c + 1
  }

  /** Python's `round(x, 2)` on the exact value of `x`: nearest cent,
      a tie going to the even number of cents. */
  function Round2(x: real): (r: real)
    ensures IsCents(r)
    ensures -0.005 <= r - x <= 0.005
  {
    var n := RoundHalfEven(x * 100.0);
    CentsOf(n);
    CentsNear(x, n);
    n as real / 100.0
  }

  lemma CentsOf(n: int)
    ensures IsCents(n as real / 100.0)
  {
    assert (n as real / 100.0) * 100.0 == n as real;
  }

  lemma CentsNear(x: real, n: int)
    requires x * 100.0 - 0.5 <= n as real <= x * 100.0 + 0.5
    ensures -0.005 <= n as real / 100.0 - x <= 0.005
  {
  }

  /** Rounding leaves a whole number of cents as it is. */
  lemma RoundCents(x: real)
    requires IsCents(x)
    ensures Round2(x) == x
  {
    var scaled := x * 100.0;
    assert scaled - scaled.Floor as real == 0.0;
  }

  /** The sum of two whole numbers of cents is a whole number of cents. */
  lemma CentsAdd(x: real, y: real)
    requires IsCents(x) && IsCents(y)
    ensures IsCents(x + y)
  {
    var a, b := (x * 100.0).Floor, (y * 100.0).Floor;
    assert (x + y) * 100.0 == (a + b) as real;
  }
}
