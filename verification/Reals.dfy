/** The few facts about products, quotients and floors that the sizing code rests on. */
module Reals {

  function Max(a: real, b: real): real { if a < b then b else a }

  function Min(a: real, b: real): real { if b < a then b else a }

  function MinInt(a: int, b: int): int { if b < a then b else a }

  lemma MulLe(a: real, b: real, c: real)
    requires a <= b && 0.0 <= c
    ensures a * c <= b * c
  {
  }

  lemma MulLt(a: real, b: real, c: real)
    requires a < b && 0.0 < c
    ensures a * c < b * c
  {
  }

  lemma MulNonNegative(a: real, b: real)
    requires 0.0 <= a && 0.0 <= b
    ensures 0.0 <= a * b
  {
  }

  lemma MulPositive(a: real, b: real)
    requires 0.0 < a && 0.0 < b
    ensures 0.0 < a * b
  {
  }

  lemma Distribute(a: real, b: real, c: real)
    ensures a * (b + c) == a * b + a * c
  {
  }

  lemma DivTimes(x: real, y: real)
    requires y != 0.0
    ensures x / y * y == x
  {
  }

  lemma DivLe(a: real, b: real, y: real)
    requires a <= b && 0.0 < y
    ensures a / y <= b / y
  {
  }

  /** A part of a positive whole is a proper fraction. */
  lemma DivProper(a: real, y: real)
    requires 0.0 <= a <= y && 0.0 < y
    ensures 0.0 <= a / y <= 1.0
  {
  }

  /** How many whole units an amount pays for. */
  function WholeUnits(amount: real, unit: real): int
    requires unit != 0.0
  {
    (amount / unit).Floor
  }

  /** The largest whole number of units that fits. */
  lemma WholeUnitsFit(amount: real, unit: real)
    requires 0.0 < unit
    ensures WholeUnits(amount, unit) as real * unit <= amount
    ensures amount < WholeUnits(amount, unit) as real * unit + unit
  {
    var z := amount / unit;
    DivTimes(amount, unit);
    var q := z.Floor as real;
    MulLe(q, z, unit);
    MulLt(z - q, 1.0, unit);
    assert (z - q) * unit == z * unit - q * unit;
  }

  /** `n` units fit exactly when `n` is at most the floor. */
  lemma FitsIffWithinFloor(amount: real, unit: real, n: int)
    requires 0.0 < unit
    ensures n as real * unit <= amount <==> n <= WholeUnits(amount, unit)
  {
    WholeUnitsFit(amount, unit);
    var q := WholeUnits(amount, unit) as real;
    if n <= WholeUnits(amount, unit) {
      MulLe(n as real, q, unit);
    } else {
      OneMoreUnit(q, unit);
      MulLe(q + 1.0, n as real, unit);
    }
  }

  lemma OneMoreUnit(q: real, unit: real)
    ensures (q + 1.0) * unit == q * unit + unit
  {
  }

  /** Python's `int(x)`: drop the fraction, toward zero. */
  function Trunc(x: real): int {
    if x >= 0.0 then x.Floor else -((-x).Floor)
  }

  /** Nothing but a fraction is dropped, and never across zero. */
  lemma TruncDropsFraction(x: real)
    ensures 0.0 <= x ==> 0.0 <= Trunc(x) as real <= x < Trunc(x) as real + 1.0
    ensures x <= 0.0 ==> Trunc(x) as real - 1.0 < x <= Trunc(x) as real <= 0.0
  {
  }
}
