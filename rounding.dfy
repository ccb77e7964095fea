/** Python 3 `round(x)` with no digits argument, on exact reals: the nearest integer,
    ties going to the even neighbour. */
module Rounding {

  /** Distance between an integer and a real. */
  function Dist(n: int, x: real): (d: real)
    ensures d >= 0.0
    ensures d == 0.0 <==> n as real == x
  {
    if n as real >= x then n as real - x else x - n as real
  }

  /** `n` is what round-half-to-even gives for `x`: strictly nearest, or an even tie. */
  ghost predicate IsRoundHalfEven(x: real, n: int)
  {
    Dist(n, x) < 0.5 || (Dist(n, x) == 0.5 && n % 2 == 0)
  }

  function Round(x: real): (r: int)
    ensures IsRoundHalfEven(x, r)
  {
    var f := x.Floor;
    var frac := x - f as real;
    if frac < 0.5 then f
    else if frac > 0.5 then f + 1
    else if f % 2 == 0 then f
    else f + 1
  }

  /** No integer is nearer to `x` than `Round(x)`. */
  lemma RoundIsNearest(x: real, n: int)
    ensures Dist(Round(x), x) <= Dist(n, x)
  {
    var r := Round(x);
    assert Dist(r, x) <= 0.5;
    if n > r {
      assert n as real >= r as real + 1.0;
    } else if n < r {
      assert n as real <= r as real - 1.0;
    }
  }

  /** The half-to-even rule picks exactly one integer for every real. */
  lemma RoundUnique(x: real, n: int)
    requires IsRoundHalfEven(x, n)
    ensures n == Round(x)
  {
  }

  /** An integer rounds to itself. */
  lemma RoundOfInteger(n: int)
    ensures Round(n as real) == n
  {
    RoundUnique(n as real, n);
  }

  /** Rounding never reverses the order of two reals. */
  lemma RoundMonotonic(x: real, y: real)
    requires x <= y
    ensures Round(x) <= Round(y)
  {
  }
}
