/** The quarter-hour rounder of the timesheet generator.

    `quarter_round(num)` computes `round(num * 4) / 4`. Python's built-in
    `round` with one argument returns the nearest integer and breaks ties
    towards the even neighbour ("banker's rounding"); the model does the same
    over exact reals and returns the result as a count of quarters scaled
    back to hours.
 */
module QuarterRounding {

  /** The distance between two reals. */
  function Dist(x: real, y: real): (d: real)
    ensures d >= 0.0
    ensures d == x - y || d == y - x
  {
    if x >= y then x - y else y - x
  }

  /** The fractional part of `x`, always in [0, 1). */
  function Frac(x: real): (f: real)
    ensures 0.0 <= f < 1.0
  {
    x - x.Floor as real
  }

  /** A tie: `x` lies exactly halfway between two integers. */
  predicate IsTie(x: real) {
    Frac(x) == 0.5
  }

  /** Python's `round(x)`: the nearest integer, ties to the even one. */
  function RoundHalfEven(x: real): (n: int)
    ensures -0.5 <= x - n as real <= 0.5
    ensures (x - n as real == 0.5 || x - n as real == -0.5) ==> n % 2 == 0
  {
    var f := x.Floor;
    if Frac(x) < 0.5 then f
    else if Frac(x) > 0.5 then f + 1
    else if f % 2 == 0 then f
    else f + 1
  }

  /** `x` is a whole number of quarter hours. */
  predicate IsQuarter(q: real) {
    (4.0 * q).Floor as real == 4.0 * q
  }

  /** `quarter_round`: the multiple of 0.25 nearest to `x`. */
  function QuarterRound(x: real): (r: real)
    ensures IsQuarter(r)
    ensures Dist(r, x) <= 0.125
    ensures x >= 0.0 ==> r >= 0.0
  {
    var n := RoundHalfEven(4.0 * x);
    assert (4.0 * (n as real / 4.0)).Floor == n;
    n as real / 4.0
  }

  /** No integer is nearer to `x` than `RoundHalfEven(x)`. */
  lemma {:induction false} RoundHalfEvenIsNearest(x: real, m: int)
    ensures Dist(x, RoundHalfEven(x) as real) <= Dist(x, m as real)
  {
    var n := RoundHalfEven(x);
    if m < n {
      assert m as real <= n as real - 1.0;
    } else if m > n {
      assert m as real >= n as real + 1.0;
    }
  }

  /** The two clauses of `RoundHalfEven`'s contract determine its result:
      any integer within 0.5 of `x` that is even on a tie is that result. */
  lemma {:induction false} RoundHalfEvenUnique(x: real, m: int)
    requires -0.5 <= x - m as real <= 0.5
    requires (x - m as real == 0.5 || x - m as real == -0.5) ==> m % 2 == 0
    ensures m == RoundHalfEven(x)
  {
  }

  /** Rounding an integer gives the integer back. */
  lemma RoundHalfEvenOfInteger(n: int)
    ensures RoundHalfEven(n as real) == n
  {
  }

  /** Rounding is monotone. */
  lemma RoundHalfEvenMonotone(x: real, y: real)
    requires x <= y
    ensures RoundHalfEven(x) <= RoundHalfEven(y)
  {
  }

  /** Rounding twice is rounding once. */
  lemma {:induction false} QuarterRoundIdempotent(x: real)
    ensures QuarterRound(QuarterRound(x)) == QuarterRound(x)
  {
    var n := RoundHalfEven(4.0 * x);
    assert 4.0 * QuarterRound(x) == n as real;
    RoundHalfEvenOfInteger(n);
  }

  /** A quarter multiple is left as it is. */
  lemma {:induction false} QuarterRoundOfQuarter(q: real)
    requires IsQuarter(q)
    ensures QuarterRound(q) == q
  {
    var n := (4.0 * q).Floor;
    RoundHalfEvenOfInteger(n);
  }

  /** No multiple of 0.25 is nearer to `x` than `QuarterRound(x)`. */
  lemma {:induction false} QuarterRoundIsNearest(x: real, q: real)
    requires IsQuarter(q)
    ensures Dist(x, QuarterRound(x)) <= Dist(x, q)
  {
    var m := (4.0 * q).Floor;
    RoundHalfEvenIsNearest(4.0 * x, m);
  }

  /** Quarter rounding is monotone. */
  lemma {:induction false} QuarterRoundMonotone(x: real, y: real)
    requires x <= y
    ensures QuarterRound(x) <= QuarterRound(y)
  {
    RoundHalfEvenMonotone(4.0 * x, 4.0 * y);
  }

  /** Rounding is antisymmetric around a whole number away from ties: the
      rounded parts of `z` and `n - z` add up to `n` again. */
  lemma {:induction false} RoundComplement(n: int, z: real)
    requires !IsTie(z)
    ensures RoundHalfEven(z) + RoundHalfEven(n as real - z) == n
  {
    var f := z.Floor;
    var w := n as real - z;
    if Frac(z) == 0.0 {
      assert w == (n - f) as real;
      RoundHalfEvenOfInteger(n - f);
    } else {
      assert w.Floor == n - f - 1;
      assert Frac(w) == 1.0 - Frac(z);
    }
  }
}
