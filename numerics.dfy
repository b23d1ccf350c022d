/**
 * Python's numeric conversions used by the scripts, over Dafny's exact `real`
 * (an idealisation of IEEE doubles): `int(x)` truncates toward zero,
 * `round(x, n)` rounds half to even, `np.mean` is the sum over the length.
 */
module Numerics {

  /** Python `int(x)` for a float: truncation toward zero. */
  function Trunc(x: real): (r: int)
    ensures 0.0 <= x ==> 0 <= r && r as real <= x < r as real + 1.0
    ensures x < 0.0 ==> r <= 0 && r as real - 1.0 < x <= r as real
  {
    if x >= 0.0 then x.Floor else -((-x).Floor)
  }

  /** Rounds to the nearest integer, ties to the even neighbour (the rule of Python's `round`). */
  function RoundHalfEven(y: real): (r: int)
    ensures y - 0.5 <= r as real <= y + 0.5
    ensures r as real == y - 0.5 || r as real == y + 0.5 ==> r % 2 == 0
  {
    var f := y.Floor;
    var frac := y - f as real;
    if frac < 0.5 then f
    else if frac > 0.5 then f + 1
    else if f % 2 == 0 then f
    else f + 1
  }

  function Pow10(n: nat): (p: nat)
    ensures p >= 1
  {
    if n == 0 then 1 else 10 * Pow10(n - 1)
  }

  /** 10^digits as a real: the number of grid steps per unit when rounding to `digits` places. */
  function Scale(digits: nat): (s: real)
    ensures s >= 1.0
  {
    Pow10(digits) as real
  }

  /**
   * Python `round(x, digits)`: a whole number of steps of 10^-digits within
   * half a step of x, so the nearest one, and on a tie between two neighbouring
   * multiples the one with an even step count.
   */
  function RoundTo(x: real, digits: nat): (r: real)
    ensures x - 0.5 / Scale(digits) <= r <= x + 0.5 / Scale(digits)
    ensures r * Scale(digits) == RoundHalfEven(x * Scale(digits)) as real
    ensures (r * Scale(digits)).Floor as real == r * Scale(digits)
    ensures r * Scale(digits) == x * Scale(digits) - 0.5 || r * Scale(digits) == x * Scale(digits) + 0.5
      ==> (r * Scale(digits)).Floor % 2 == 0
  {
    var k := RoundHalfEven(x * Scale(digits));
    DivideBounds(x, k as real, Scale(digits));
    WholeFloor(k);
    k as real / Scale(digits)
  }

  lemma WholeFloor(k: int)
    ensures (k as real).Floor == k
  {
  }

  lemma DivideBounds(x: real, k: real, scale: real)
    requires scale >= 1.0
    requires x * scale - 0.5 <= k <= x * scale + 0.5
    ensures x - 0.5 / scale <= k / scale <= x + 0.5 / scale
  {
    assert k / scale - x == (k - x * scale) / scale;
  }

  function Sum(s: seq<real>): real
  {
    if s == [] then 0.0 else s[0] + Sum(s[1..])
  }

  /** `np.mean` of a non-empty list. */
  function Mean(s: seq<real>): real
    requires |s| > 0
  {
    Sum(s) / |s| as real
  }

  lemma {:induction false} SumAbove(s: seq<real>, bound: real)
    requires forall i :: 0 <= i < |s| ==> s[i] > bound
    ensures |s| > 0 ==> Sum(s) > |s| as real * bound
    ensures Sum(s) >= |s| as real * bound
  {
    if s != [] {
      SumAbove(s[1..], bound);
    }
  }

  /** The mean of values that all exceed `bound` exceeds it too. */
  lemma MeanAbove(s: seq<real>, bound: real)
    requires |s| > 0
    requires forall i :: 0 <= i < |s| ==> s[i] > bound
    ensures Mean(s) > bound
  {
    SumAbove(s, bound);
    var n := |s| as real;
    assert Sum(s) / n > (n * bound) / n;
  }

  lemma {:induction false} SumAtMost(s: seq<real>, bound: real)
    requires forall i :: 0 <= i < |s| ==> s[i] <= bound
    ensures Sum(s) <= |s| as real * bound
  {
    if s != [] {
      SumAtMost(s[1..], bound);
    }
  }

  /** The mean of values none of which exceeds `bound` does not exceed it. */
  lemma MeanAtMost(s: seq<real>, bound: real)
    requires |s| > 0
    requires forall i :: 0 <= i < |s| ==> s[i] <= bound
    ensures Mean(s) <= bound
  {
    SumAtMost(s, bound);
    var n := |s| as real;
    assert Sum(s) / n <= (n * bound) / n;
  }
}
