/** Evaluating single-precision roundings: powers of two, mantissas and whole numbers. */
module Mantissas {
  import opened Reals
  import opened Rounding

  /** `x` times 2^k. */
  function Doubled(x: real, k: nat): real {
    if k == 0 then x else 2.0 * Doubled(x, k - 1)
  }

  lemma {:induction false} DoubledOnTop(x: real, k: nat)
    ensures Doubled(x, k + 4) == 16.0 * Doubled(x, k)
  {
    assert Doubled(x, k + 2) == 4.0 * Doubled(x, k);
    assert Doubled(x, k + 4) == 4.0 * Doubled(x, k + 2);
  }

  lemma DoubledSixteen(x: real, k: nat)
    ensures Doubled(x, k + 16) == 65536.0 * Doubled(x, k)
  {
    DoubledOnTop(x, k);
    DoubledOnTop(x, k + 4);
    DoubledOnTop(x, k + 8);
    DoubledOnTop(x, k + 12);
  }

  lemma DoubledValues(x: real)
    ensures Doubled(x, 21) == 2097152.0 * x && Doubled(x, 26) == 67108864.0 * x && Doubled(x, 28) == 268435456.0 * x
  {
    DoubledFive(x);
    DoubledSixteen(x, 5);
    DoubledSixteen(x, 10);
    DoubledSixteen(x, 12);
    DoubledOnTop(x, 6);
    DoubledOnTop(x, 8);
    assert Doubled(x, 6) == 2.0 * Doubled(x, 5);
    DoubledOnTop(x, 4);
    DoubledOnTop(x, 0);
  }

  lemma DoubledFive(x: real)
    ensures Doubled(x, 5) == 32.0 * x
  {
    DoubledOnTop(x, 1);
    assert Doubled(x, 1) == 2.0 * x;
  }

  lemma DoubledToUnits(x: real)
    ensures Doubled(x, 149) == x * UNITS_PER_ONE
  {
    DoubledFive(x);
    DoubledSixteen(x, 5);
    DoubledSixteen(x, 21);
    DoubledSixteen(x, 37);
    DoubledSixteen(x, 53);
    DoubledSixteen(x, 69);
    DoubledSixteen(x, 85);
    DoubledSixteen(x, 101);
    DoubledSixteen(x, 117);
    DoubledSixteen(x, 133);
  }

  lemma {:induction false} RoundUnitsOfDoubled(z: real, k: nat)
    requires z >= PRECISION / 2.0
    ensures Doubled(z, k) >= PRECISION / 2.0 && RoundUnits(Doubled(z, k)) == Doubled(RoundUnits(z), k)
  {
    if k > 0 {
      RoundUnitsOfDoubled(z, k - 1);
      RoundUnitsOfDouble(Doubled(z, k - 1));
    }
  }

  lemma RoundedByUnits(y: real, units: real)
    requires RoundUnits(y * UNITS_PER_ONE) == units * UNITS_PER_ONE
    ensures Rounded(y) == units
  {
  }

  /** Numbers of 24 bits before the point are rounded to integers. */
  lemma RoundedMantissa(y: real)
    requires PRECISION / 2.0 <= y < PRECISION
    ensures Rounded(y) == NearestEven(y) as real
  {
    DoubledToUnits(y);
    DoubledToUnits(NearestEven(y) as real);
    RoundUnitsOfDoubled(y, 149);
    RoundedByUnits(y, NearestEven(y) as real);
  }

  lemma {:induction false} RoundedOfDoubled(x: real, k: nat)
    requires x >= SMALLEST_NORMAL
    ensures Doubled(x, k) >= SMALLEST_NORMAL && Rounded(Doubled(x, k)) == Doubled(Rounded(x), k)
  {
    if k > 0 {
      RoundedOfDoubled(x, k - 1);
      RoundedOfDouble(Doubled(x, k - 1));
    }
  }

  /** A number `x` with the mantissa `y` at the exponent -k. */
  lemma RoundedByMantissa(x: real, y: real, k: nat)
    requires x >= SMALLEST_NORMAL && Doubled(x, k) == y && PRECISION / 2.0 <= y < PRECISION
    ensures Doubled(Rounded(x), k) == NearestEven(y) as real
  {
    RoundedOfDoubled(x, k);
    RoundedMantissa(y);
  }

  lemma {:induction false} NearestEvenShifted(m: nat, x: real)
    requires m % 2 == 0 && x >= 0.0
    ensures NearestEven(m as real + x) == m + NearestEven(x)
  {
    if m >= 2 {
      NearestEvenShifted(m - 2, x);
      assert m as real + x - 2.0 == (m - 2) as real + x;
    }
  }

  /** Doubling a float gives a float. */
  lemma DoubleIsFixed(z: real)
    requires z >= 0.0 && RoundUnits(z) == z
    ensures RoundUnits(2.0 * z) == 2.0 * z
  {
    if 2.0 * z < PRECISION {
      var m := NearestEven(z);
      assert z == m as real;
      assert 2.0 * z == (2 * m) as real;
      RoundUnitsOfWhole(2 * m);
    } else {
      assert (2.0 * z) / 2.0 == z;
    }
  }

  lemma {:induction false} DoubledIsFixed(z: real, k: nat)
    requires z >= 0.0 && RoundUnits(z) == z
    ensures Doubled(z, k) >= 0.0 && RoundUnits(Doubled(z, k)) == Doubled(z, k)
  {
    if k > 0 {
      DoubledIsFixed(z, k - 1);
      DoubleIsFixed(Doubled(z, k - 1));
    }
  }

  /** A number of units with a mantissa of 24 bits. */
  predicate HasMantissa(z: real, m: nat, k: nat) {
    m < 16777216 && z == Doubled(m as real, k)
  }

  ghost predicate IsShort(z: real) {
    exists m, k :: HasMantissa(z, m, k)
  }

  lemma {:induction false} FixedHasMantissa(z: real) returns (m: nat, k: nat)
    requires z >= 0.0 && RoundUnits(z) == z
    ensures HasMantissa(z, m, k)
    decreases z.Floor
  {
    if z < PRECISION {
      m, k := NearestEven(z), 0;
    } else {
      m, k := FixedHasMantissa(z / 2.0);
      k := k + 1;
    }
  }

  /** The numbers that rounding keeps are those of 24 bits at some exponent from -149 on. */
  lemma FloatsAreMantissas(x: real)
    requires x >= 0.0
    ensures IsFloat(x) <==> IsShort(x * UNITS_PER_ONE)
  {
    var z := x * UNITS_PER_ONE;
    if IsFloat(x) {
      var m, k := FixedHasMantissa(z);
    }
    if m, k :| HasMantissa(z, m, k) {
      RoundUnitsOfWhole(m);
      DoubledIsFixed(m as real, k);
    }
  }

  lemma {:induction false} HalfwayToEven(m: nat)
    ensures NearestEven(m as real + 0.5) == if m % 2 == 0 then m else m + 1
    decreases m
  {
    if m >= 2 {
      HalfwayToEven(m - 2);
      assert m as real + 0.5 - 2.0 == (m - 2) as real + 0.5;
    }
  }

  /** Halfway between two floats the one with the even mantissa is chosen. */
  lemma TiesToEven(x: real, m: nat, k: nat)
    requires m < 16777216 && (k > 0 ==> m >= 8388608)
    requires x * UNITS_PER_ONE == Doubled(m as real + 0.5, k)
    ensures Rounded(x) * UNITS_PER_ONE == Doubled((if m % 2 == 0 then m else m + 1) as real, k)
  {
    var z := m as real + 0.5;
    HalfwayToEven(m);
    assert RoundUnits(z) == NearestEven(z) as real;
    if k > 0 {
      RoundUnitsOfDoubled(z, k);
    }
  }

  /** Whole numbers of 24 bits are floats. */
  lemma SmallWholeIsFloat(m: nat)
    requires m <= 16777216
    ensures Rounded(m as real) == m as real
  {
    RoundUnitsOfWhole(m);
    DoubledIsFixed(m as real, 149);
    DoubledToUnits(m as real);
    RoundedByUnits(m as real, m as real);
  }

  lemma {:induction false} DoubledTimes(x: real, y: real, k: nat)
    ensures Doubled(x * y, k) == x * Doubled(y, k)
  {
    if k > 0 {
      DoubledTimes(x, y, k - 1);
      var d := Doubled(y, k - 1);
      assert 2.0 * (x * d) == x * (2.0 * d);
    }
  }

  lemma {:induction false} DoubledIsInjective(x: real, y: real, k: nat)
    requires Doubled(x, k) == Doubled(y, k)
    ensures x == y
  {
    if k > 0 {
      DoubledIsInjective(x, y, k - 1);
    }
  }

  /** A float divided by a power of two is a float, as long as it stays normal. */
  lemma ShiftedIsFloat(x: real, k: nat)
    requires x >= SMALLEST_NORMAL && Rounded(Doubled(x, k)) == Doubled(x, k)
    ensures Rounded(x) == x
  {
    RoundedOfDoubled(x, k);
    DoubledIsInjective(Rounded(x), x, k);
  }

  lemma {:induction false} RoundUnitsIsWhole(z: real) returns (w: nat)
    requires z >= 0.0
    ensures RoundUnits(z) == w as real
    decreases z.Floor
  {
    if z < PRECISION {
      w := NearestEven(z);
    } else {
      var half := RoundUnitsIsWhole(z / 2.0);
      w := 2 * half;
    }
  }

  /** Whole numbers are rounded to whole numbers. */
  lemma RoundedIsWhole(m: nat) returns (w: nat)
    ensures Rounded(m as real) == w as real
  {
    if m <= 16777216 {
      SmallWholeIsFloat(m);
      w := m;
    } else {
      w := RoundUnitsIsWhole(m as real);
      RoundUnitsOfDoubled(m as real, 149);
      DoubledToUnits(m as real);
      DoubledToUnits(w as real);
      RoundedByUnits(m as real, w as real);
    }
  }
}
