/** The integer conversions the paint loop applies to centroids and radii. */
module Numeric {

  /** Python's `int(x)` on a float: truncation toward zero. */
  function Trunc(x: real): (r: int)
    ensures 0.0 <= x ==> r as real <= x < r as real + 1.0
    ensures x < 0.0 ==> r as real - 1.0 < x <= r as real
  {
    if 0.0 <= x then x.Floor else -((-x).Floor)
  }

  /** Python's `round(x)`: the nearest integer, a tie going to the even neighbour. */
  function Round(x: real): (r: int)
    ensures -0.5 <= r as real - x <= 0.5
    ensures (r as real - x == 0.5 || x - r as real == 0.5) ==> r % 2 == 0
  {
    var f := x.Floor;
    var d := x - f as real;
    if d < 0.5 then f
    else if d > 0.5 then f + 1
    else if f % 2 == 0 then f
    else f + 1
  }

  /** The two properties in `Round`'s contract single out one integer. */
  lemma RoundUnique(x: real, n: int)
    requires -0.5 <= n as real - x <= 0.5
    requires (n as real - x == 0.5 || x - n as real == 0.5) ==> n % 2 == 0
    ensures n == Round(x)
  {
  }

  /** Rounding and truncating the same value land at most one apart. */
  lemma RoundNearTrunc(x: real)
    ensures -1 <= Round(x) - Trunc(x) <= 1
  {
  }

  /** ... and they do differ: 2.75 rounds to 3 but truncates to 2. */
  lemma RoundAndTruncDiffer()
    ensures Round(2.75) == 3 && Trunc(2.75) == 2
  {
  }

  /** `int(n ** (1 / 2))` for a non-negative integer `n`: the integer square root, rounded down. */
  function ISqrt(n: nat): (r: nat)
    ensures r * r <= n < (r + 1) * (r + 1)
  {
    if n == 0 then 0
    else
      var s := ISqrt(n - 1);
      if (s + 1) * (s + 1) <= n then
        assert n == (s + 1) * (s + 1);
        assert (s + 2) * (s + 2) == (s + 1) * (s + 1) + 2 * s + 3;
        s + 1
      else s
  }

  /** The integer square root is the only `r` with `r * r <= n < (r + 1) * (r + 1)`. */
  lemma ISqrtUnique(n: nat, r: nat)
    requires r * r <= n < (r + 1) * (r + 1)
    ensures r == ISqrt(n)
  {
    var s := ISqrt(n);
    if r < s || s < r {
      assert false;
    }
  }
}
