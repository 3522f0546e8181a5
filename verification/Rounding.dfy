/** Rounding to single precision, to nearest with ties to even. Numbers above the greatest float are
    rounded as if exponents went on; the smallest exponent is that of the subnormal numbers. */
module Rounding {
  import opened Reals

  /** The natural number nearest to `x`, the even one of two. */
  function NearestEven(x: real): nat
    decreases if x < 0.0 then 0 else x.Floor
  {
    if x >= 2.0 then NearestEven(x - 2.0) + 2
    else if x <= 0.5 then 0
    else if x < 1.5 then 1
    else 2
  }

  /** 2^24: below it every integer is a float. */
  const PRECISION: real := 16777216.0

  /** Rounds a multiple `z` of the smallest float, 2^-149: to an integer while 24 bits suffice, with
      one bit less per binade above. */
  function RoundUnits(z: real): real
    decreases if z < 0.0 then 0 else z.Floor
  {
    if z < PRECISION then NearestEven(z) as real else 2.0 * RoundUnits(z / 2.0)
  }

  /** 2^149 */
  const UNITS_PER_ONE: real := 713623846352979940529142984724747568191373312.0

  /** The float nearest to a non-negative number. */
  function Rounded(x: real): real {
    RoundUnits(x * UNITS_PER_ONE) / UNITS_PER_ONE
  }

  lemma {:induction false} NearestEvenIsMonotone(x: real, y: real)
    requires x <= y
    ensures NearestEven(x) <= NearestEven(y)
    decreases if y < 0.0 then 0 else y.Floor
  {
    if x >= 2.0 {
      NearestEvenIsMonotone(x - 2.0, y - 2.0);
    }
  }

  lemma {:induction false} NearestEvenIsClose(x: real)
    requires x >= 0.0
    ensures -0.5 <= NearestEven(x) as real - x <= 0.5
    decreases x.Floor
  {
    if x >= 2.0 {
      NearestEvenIsClose(x - 2.0);
    }
  }

  lemma {:induction false} NearestEvenOfWhole(m: nat)
    ensures NearestEven(m as real) == m
  {
    if m >= 2 {
      NearestEvenOfWhole(m - 2);
    }
  }

  /** From 2^23 on nothing is rounded below 2^23. */
  lemma {:induction false} LargeStaysLarge(z: real)
    requires z >= PRECISION / 2.0
    ensures RoundUnits(z) >= PRECISION / 2.0
    decreases z.Floor
  {
    if z < PRECISION {
      NearestEvenOfWhole(8388608);
      NearestEvenIsMonotone(8388608.0, z);
    } else {
      LargeStaysLarge(z / 2.0);
    }
  }

  lemma SmallStaysSmall(z: real)
    requires z < PRECISION
    ensures RoundUnits(z) <= PRECISION
  {
    NearestEvenOfWhole(16777216);
    NearestEvenIsMonotone(z, 16777216.0);
  }

  lemma {:induction false} RoundUnitsIsMonotone(y: real, z: real)
    requires 0.0 <= y <= z
    ensures RoundUnits(y) <= RoundUnits(z)
    decreases z.Floor
  {
    if z < PRECISION {
      NearestEvenIsMonotone(y, z);
    } else if y < PRECISION {
      SmallStaysSmall(y);
      LargeStaysLarge(z / 2.0);
    } else {
      RoundUnitsIsMonotone(y / 2.0, z / 2.0);
    }
  }

  lemma HalfOfPrecision()
    ensures RoundUnits(PRECISION / 2.0) == PRECISION / 2.0
    ensures RoundUnits(PRECISION) == PRECISION
  {
    NearestEvenOfWhole(8388608);
    assert PRECISION / 2.0 == 8388608.0 && (8388608 as int) as real == 8388608.0;
    assert RoundUnits(PRECISION / 2.0) == 8388608.0;
    assert RoundUnits(PRECISION) == 2.0 * RoundUnits(PRECISION / 2.0);
  }

  /** Rounding again changes nothing. */
  lemma {:induction false} RoundUnitsTwice(z: real)
    requires z >= 0.0
    ensures RoundUnits(RoundUnits(z)) == RoundUnits(z)
    decreases z.Floor
  {
    if z < PRECISION {
      var m := NearestEven(z);
      NearestEvenOfWhole(m);
      SmallStaysSmall(z);
      HalfOfPrecision();
    } else {
      var r := RoundUnits(z / 2.0);
      RoundUnitsTwice(z / 2.0);
      LargeStaysLarge(z / 2.0);
      assert (2.0 * r) / 2.0 == r;
    }
  }

  lemma RoundUnitsOfWhole(m: nat)
    requires m <= 16777216
    ensures RoundUnits(m as real) == m as real
  {
    if m == 16777216 {
      HalfOfPrecision();
    } else {
      NearestEvenOfWhole(m);
    }
  }

  /** Doubling a large enough number doubles what it is rounded to. */
  lemma RoundUnitsOfDouble(z: real)
    requires z >= PRECISION / 2.0
    ensures RoundUnits(2.0 * z) == 2.0 * RoundUnits(z)
  {
    assert (2.0 * z) / 2.0 == z;
  }

  /** The relative error is at most 2^-24, except for subnormal numbers. */
  lemma {:induction false} RoundUnitsIsClose(z: real)
    requires z >= PRECISION / 2.0
    ensures z - z / PRECISION <= RoundUnits(z) <= z + z / PRECISION
    decreases z.Floor
  {
    if z < PRECISION {
      NearestEvenIsClose(z);
    } else {
      RoundUnitsIsClose(z / 2.0);
    }
  }

  lemma NearestEvenIsNearest(x: real, m: nat)
    requires x >= 0.0
    ensures Abs(NearestEven(x) as real - x) <= Abs(m as real - x)
  {
    NearestEvenIsClose(x);
    var n := NearestEven(x);
    assert n == m || n >= m + 1 || m >= n + 1;
  }

  lemma SmallIsNearest(z: real, f: real)
    requires 0.0 <= z < PRECISION && f >= 0.0 && RoundUnits(f) == f
    ensures Abs(RoundUnits(z) - z) <= Abs(f - z)
  {
    if f < PRECISION {
      NearestEvenIsNearest(z, NearestEven(f));
    } else {
      NearestEvenIsNearest(z, 16777216);
    }
  }

  lemma HalfIsFixed(f: real)
    requires f >= PRECISION && RoundUnits(f) == f
    ensures RoundUnits(f / 2.0) == f / 2.0
  {
  }

  lemma DoubleIsNearest(r: real, z: real, f: real)
    requires Abs(r - z / 2.0) <= Abs(f / 2.0 - z / 2.0)
    ensures Abs(2.0 * r - z) <= Abs(f - z)
  {
  }

  /** No other number that rounds to itself is nearer. */
  lemma {:induction false} RoundUnitsIsNearest(z: real, f: real)
    requires z >= 0.0 && f >= 0.0 && RoundUnits(f) == f
    ensures Abs(RoundUnits(z) - z) <= Abs(f - z)
    decreases z.Floor
  {
    if z < PRECISION {
      SmallIsNearest(z, f);
    } else {
      var g := if f < PRECISION then PRECISION else f;
      HalfOfPrecision();
      HalfIsFixed(g);
      RoundUnitsIsNearest(z / 2.0, g / 2.0);
      DoubleIsNearest(RoundUnits(z / 2.0), z, g);
    }
  }

  // ---------------------------------------------------------------- on numbers

  /** A float: what rounds to itself. */
  predicate IsFloat(x: real) {
    x >= 0.0 && Rounded(x) == x
  }

  /** No float is nearer than the one a number is rounded to. */
  lemma RoundedIsNearest(x: real, f: real)
    requires x >= 0.0 && IsFloat(f)
    ensures Abs(Rounded(x) - x) <= Abs(f - x)
  {
    RoundUnitsIsNearest(x * UNITS_PER_ONE, f * UNITS_PER_ONE);
  }

  lemma RoundedIsMonotone(x: real, y: real)
    requires 0.0 <= x <= y
    ensures 0.0 <= Rounded(x) <= Rounded(y)
  {
    RoundUnitsIsMonotone(x * UNITS_PER_ONE, y * UNITS_PER_ONE);
    RoundUnitsOfWhole(0);
    RoundUnitsIsMonotone(0.0, x * UNITS_PER_ONE);
  }

  /** The product of two floats. */
  function FloatProduct(x: real, y: real): real {
    Rounded(x * y)
  }

  lemma FloatProductIsMonotone(x: real, y: real, c: real)
    requires 0.0 <= x <= y && c >= 0.0
    ensures 0.0 <= FloatProduct(x, c) <= FloatProduct(y, c)
  {
    ProductIsMonotone(x, y, c);
    RoundedIsMonotone(x * c, y * c);
  }

  lemma RoundedTwice(x: real)
    requires x >= 0.0
    ensures Rounded(Rounded(x)) == Rounded(x)
  {
    RoundUnitsTwice(x * UNITS_PER_ONE);
    var r := RoundUnits(x * UNITS_PER_ONE);
    assert r / UNITS_PER_ONE * UNITS_PER_ONE == r;
  }

  lemma FloatProductIs(x: real, y: real, p: real)
    requires p == x * y
    ensures FloatProduct(x, y) == Rounded(p)
  {
  }

  lemma ProductRaises(x: real, c: real)
    requires x >= 0.0 && c >= 1.0
    ensures x * c >= x
  {
  }

  /** A factor of at least 1 does not lower a float. */
  lemma FloatProductRaises(x: real, c: real)
    requires x >= 0.0 && Rounded(x) == x && c >= 1.0
    ensures FloatProduct(x, c) >= x
  {
    var p := x * c;
    FloatProductIs(x, c, p);
    ProductRaises(x, c);
    RoundedIsMonotone(x, p);
  }

  lemma FloatProductIsFloat(x: real, c: real)
    requires x >= 0.0 && c >= 0.0
    ensures Rounded(FloatProduct(x, c)) == FloatProduct(x, c)
  {
    ProductIsMonotone(0.0, x, c);
    RoundedTwice(x * c);
  }

  lemma {:induction false} RoundUnitsAtMostDouble(z: real)
    requires z >= 0.0
    ensures RoundUnits(z) <= 2.0 * z
    decreases z.Floor
  {
    if z < PRECISION {
      NearestEvenIsClose(z);
    } else {
      RoundUnitsAtMostDouble(z / 2.0);
    }
  }

  lemma RoundedAtMostDouble(x: real)
    requires x >= 0.0
    ensures Rounded(x) <= 2.0 * x
  {
    RoundUnitsAtMostDouble(x * UNITS_PER_ONE);
  }

  /** 2^-126, the smallest normal float. */
  const SMALLEST_NORMAL: real := 8388608.0 / UNITS_PER_ONE

  lemma RoundedIsClose(x: real)
    requires x >= SMALLEST_NORMAL
    ensures x - x / PRECISION <= Rounded(x) <= x + x / PRECISION
  {
    RoundUnitsIsClose(x * UNITS_PER_ONE);
  }

  lemma RoundedOfDouble(x: real)
    requires x >= SMALLEST_NORMAL
    ensures Rounded(2.0 * x) == 2.0 * Rounded(x)
  {
    RoundUnitsOfDouble(x * UNITS_PER_ONE);
    assert 2.0 * x * UNITS_PER_ONE == 2.0 * (x * UNITS_PER_ONE);
  }
}
