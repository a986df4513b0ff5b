/** Arithmetic helpers standing in for the JavaScript `Math` functions the calculators use,
    over exact reals instead of IEEE doubles. */
module Numerics {

  /** `Math.pow(x, n)` for a whole, non-negative exponent. */
  function Pow(x: real, n: nat): real
  {
    if n == 0 then 1.0 else x * Pow(x, n - 1)
  }

  /** `Math.max(a, b)`. */
  function Max(a: real, b: real): (m: real)
    ensures m >= a && m >= b
    ensures m == a || m == b
  {
    if a >= b then a else b
  }

  /** `Math.min(a, b)`. */
  function Min(a: real, b: real): (m: real)
    ensures m <= a && m <= b
    ensures m == a || m == b
  {
    if a <= b then a else b
  }

  /** `Math.min(a, b)` on whole numbers, used for array indices. */
  function MinInt(a: int, b: int): (m: int)
    ensures m <= a && m <= b
    ensures m == a || m == b
  {
    if a <= b then a else b
  }

  /** `Math.abs(x)`. */
  function Abs(x: real): (a: real)
    ensures a >= 0.0
    ensures a == x || a == -x
  {
    if x < 0.0 then -x else x
  }

  /** `Math.round(x)`: the nearest whole number, halves going up (towards +infinity). */
  function Round(x: real): (n: int)
    ensures x - 0.5 < n as real <= x + 0.5
  {
    (x + 0.5).Floor
  }

  /** Rounding never reverses the order of two values. */
  lemma RoundMonotone(a: real, b: real)
    requires a <= b
    ensures Round(a) <= Round(b)
  {
  }

  /** A whole number rounds to itself. */
  lemma RoundWhole(n: int)
    ensures Round(n as real) == n
  {
  }

  /** `x` is a whole multiple of `unit`. */
  predicate IsMultipleOf(x: real, unit: real)
    requires unit != 0.0
  {
    (x / unit).Floor as real == x / unit
  }

  /** A multiple of a positive unit, as a whole number of units. */
  lemma MultipleOfUnit(n: int, unit: real)
    requires unit > 0.0
    ensures IsMultipleOf(n as real * unit, unit)
  {
    MulDivCancel(n as real, unit);
  }

  /** Scaling by a positive unit scales absolute values by it. */
  lemma AbsScaled(e: real, unit: real)
    requires unit > 0.0
    ensures Abs(e * unit) == Abs(e) * unit
  {
    if e >= 0.0 {
      MulMonotone(0.0, e, unit);
    } else {
      MulMonotone(e, 0.0, unit);
      assert -(e * unit) == (-e) * unit;
    }
  }

  /** The distance from a multiple n * unit to x is the distance from n to x / unit, scaled. */
  lemma ScaledDistance(x: real, unit: real, n: int)
    requires unit > 0.0
    ensures Abs(n as real * unit - x) == Abs(n as real - x / unit) * unit
  {
    var e := n as real - x / unit;
    DivMulCancel(x, unit);
    assert n as real * unit - x == e * unit;
    AbsScaled(e, unit);
  }

  /** `Math.round(x / unit) * unit`: x rounded to the nearest whole multiple of a positive unit,
      halves going up. */
  function RoundToUnit(x: real, unit: real): (r: real)
    requires unit > 0.0
    ensures IsMultipleOf(r, unit)
    ensures Abs(r - x) <= unit / 2.0
  {
    var n := Round(x / unit);
    MultipleOfUnit(n, unit);
    ScaledHalfDistance(x, unit, n);
    n as real * unit
  }

  /** A whole number within half of x / unit, scaled by the unit, is within half a unit of x. */
  lemma ScaledHalfDistance(x: real, unit: real, n: int)
    requires unit > 0.0 && Abs(n as real - x / unit) <= 0.5
    ensures Abs(n as real * unit - x) <= unit / 2.0
  {
    var a := Abs(n as real - x / unit);
    ScaledDistance(x, unit, n);
    MulMonotone(a, 0.5, unit);
    calc {
      Abs(n as real * unit - x);
    ==
      a * unit;
    <=
      0.5 * unit;
    ==
      unit / 2.0;
    }
  }

  /** No whole multiple of the unit is nearer to x than the rounded value. */
  lemma RoundToUnitIsNearest(x: real, unit: real, m: int)
    requires unit > 0.0
    ensures Abs(RoundToUnit(x, unit) - x) <= Abs(m as real * unit - x)
  {
    var q := x / unit;
    var n := Round(q);
    RoundIsNearest(q, m);
    ScaledDistanceOrder(x, unit, n, m);
  }

  /** Distances to x / unit, scaled by the unit, keep their order as distances to x. */
  lemma ScaledDistanceOrder(x: real, unit: real, n: int, m: int)
    requires unit > 0.0 && Abs(n as real - x / unit) <= Abs(m as real - x / unit)
    ensures Abs(n as real * unit - x) <= Abs(m as real * unit - x)
  {
    ScaledDistance(x, unit, n);
    ScaledDistance(x, unit, m);
    MulMonotone(Abs(n as real - x / unit), Abs(m as real - x / unit), unit);
  }

  /** No whole number is nearer to x than `Round(x)`. */
  lemma RoundIsNearest(x: real, m: int)
    ensures Abs(Round(x) as real - x) <= Abs(m as real - x)
  {
    var n := Round(x);
    assert Abs(n as real - x) <= 0.5;
    if m > n {
      assert m as real >= n as real + 1.0;
      assert Abs(m as real - x) == m as real - x;
    } else if m < n {
      assert m as real <= n as real - 1.0;
      assert Abs(m as real - x) == x - m as real;
    }
  }

  /** Multiplying by a non-negative number keeps an order. */
  lemma MulMonotone(a: real, b: real, c: real)
    requires a <= b && c >= 0.0
    ensures a * c <= b * c
  {
  }

  /** Dividing by a non-zero number and multiplying back gives the number again. */
  lemma DivMulCancel(x: real, d: real)
    requires d != 0.0
    ensures (x / d) * d == x
  {
  }

  /** Multiplying by a non-zero number and dividing back gives the number again. */
  lemma MulDivCancel(x: real, d: real)
    requires d != 0.0
    ensures x * d / d == x
  {
    DivMulCancel(x * d, d);
    assert (x * d / d) * d == x * d;
  }

  /** A quotient is determined by what it gives when multiplied by the divisor. */
  lemma DivUnique(q: real, y: real, d: real)
    requires d != 0.0 && q * d == y
    ensures q == y / d
  {
    MulDivCancel(q, d);
  }

  lemma {:induction false} PowSucc(x: real, n: nat)
    ensures Pow(x, n + 1) == Pow(x, n) * x
  {
  }

  lemma {:induction false} PowAdd(x: real, m: nat, n: nat)
    ensures Pow(x, m + n) == Pow(x, m) * Pow(x, n)
    decreases n
  {
    if n > 0 {
      PowAdd(x, m, n - 1);
      assert Pow(x, m + n) == x * Pow(x, m + n - 1);
      calc {
        Pow(x, m + n);
        x * (Pow(x, m) * Pow(x, n - 1));
        Pow(x, m) * (x * Pow(x, n - 1));
      }
    }
  }

  /** Raising to 12*y is raising the twelfth power to y: a monthly factor compounds into a yearly one. */
  lemma {:induction false} PowMul12(x: real, y: nat)
    ensures Pow(x, 12 * y) == Pow(Pow(x, 12), y)
    decreases y
  {
    if y > 0 {
      PowMul12(x, y - 1);
      PowAdd(x, 12 * (y - 1), 12);
      assert 12 * y == 12 * (y - 1) + 12;
    }
  }

  lemma {:induction false} PowNonNegative(x: real, n: nat)
    requires x >= 0.0
    ensures Pow(x, n) >= 0.0
  {
    if n > 0 {
      PowNonNegative(x, n - 1);
    }
  }

  lemma {:induction false} PowPositive(x: real, n: nat)
    requires x > 0.0
    ensures Pow(x, n) > 0.0
  {
    if n > 0 {
      PowPositive(x, n - 1);
    }
  }

  lemma {:induction false} PowAtLeastOne(x: real, n: nat)
    requires x >= 1.0
    ensures Pow(x, n) >= 1.0
  {
    if n > 0 {
      PowAtLeastOne(x, n - 1);
      assert x * Pow(x, n - 1) >= Pow(x, n - 1);
    }
  }

  /** For a base above one, a positive power is above one. */
  lemma {:induction false} PowAboveOne(x: real, n: nat)
    requires x > 1.0 && n > 0
    ensures Pow(x, n) > 1.0
  {
    PowAtLeastOne(x, n - 1);
    assert x * Pow(x, n - 1) > Pow(x, n - 1);
  }

  /** For a base in [0, 1), a positive power is below one. */
  lemma {:induction false} PowBelowOne(x: real, n: nat)
    requires 0.0 <= x < 1.0 && n > 0
    ensures Pow(x, n) < 1.0
  {
    assert Pow(x, n) == x * Pow(x, n - 1);
    if n == 1 {
      assert Pow(x, 0) == 1.0;
    } else {
      PowBelowOne(x, n - 1);
      PowNonNegative(x, n - 1);
      assert x * Pow(x, n - 1) <= Pow(x, n - 1);
    }
  }

  /** For a base of at least one, powers grow with the exponent. */
  lemma {:induction false} PowMonotone(x: real, m: nat, n: nat)
    requires x >= 1.0 && m <= n
    ensures Pow(x, m) <= Pow(x, n)
    decreases n - m
  {
    if m < n {
      PowMonotone(x, m, n - 1);
      PowAtLeastOne(x, n - 1);
      assert x * Pow(x, n - 1) >= Pow(x, n - 1);
    }
  }

  /** For a base above one, powers grow strictly with the exponent. */
  lemma {:induction false} PowStrictMonotone(x: real, m: nat, n: nat)
    requires x > 1.0 && m < n
    ensures Pow(x, m) < Pow(x, n)
  {
    PowMonotone(x, m, n - 1);
    PowAtLeastOne(x, n - 1);
    assert x * Pow(x, n - 1) > Pow(x, n - 1);
  }
}
