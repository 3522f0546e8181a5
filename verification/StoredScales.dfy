/** What the condition on the stored constants of U8 means for the constants an index computes: with a
    power of two nothing is lost, with 25 and its inverse a unit is lost, with scales that differ
    enough an exact match is lost, and in any case no more is lost than a unit and the rounding. */
module StoredScales {
  import opened Common
  import opened Distances
  import opened KnnHeap
  import opened Reals
  import opened Rounding
  import opened Mantissas
  import opened SearchMachine
  import opened Interleaving
  import opened Exactness
  import opened ByteHeadroom
  import opened Schedules
  import opened Truncation

  /** The constants an index stores for a quantization scale: its square and the inverse of that, each
      rounded to single precision. */
  ghost predicate IsStored(scale: Scale) {
    exists x: real :: IsStoredFor(scale, x)
  }

  predicate IsStoredFor(scale: Scale, x: real) {
    && x > 0.0 && scale.squared == FloatProduct(x, x) && scale.squared > 0.0
    && scale.inverse == Rounded(1.0 / scale.squared)
  }

  // ---------------------------------------------------------------- 25 and its inverse

  /** The constants stored for the scale 5, of a data range of 51: 25 and the float nearest to 0.04. */
  const TWENTY_FIVE: Scale := Scale(25.0, 10737418.0 / 268435456.0)

  lemma TwentyFiveIsStored()
    ensures IsStored(TWENTY_FIVE)
  {
    var x := 1.0 / 25.0;
    DoubledValues(x);
    DoubledValues(Rounded(x));
    NearestEvenShifted(10737418, 0.24);
    RoundedByMantissa(x, 10737418.24, 28);
    SmallWholeIsFloat(25);
    FloatProductIs(5.0, 5.0, 25.0);
    assert IsStoredFor(TWENTY_FIVE, 5.0);
  }

  lemma FourUnitsPublished()
    ensures PublishedInFloats(4, TWENTY_FIVE.inverse) * 67108864.0 == 10737418.0
  {
    SmallWholeIsFloat(4);
    var p := 42949672.0 / 268435456.0;
    FloatProductIs(4.0, TWENTY_FIVE.inverse, p);
    DoubledValues(p);
    DoubledValues(Rounded(p));
    NearestEvenOfWhole(10737418);
    RoundedByMantissa(p, 10737418.0, 26);
  }

  lemma FiveUnitsPublished()
    ensures PublishedInFloats(5, TWENTY_FIVE.inverse) * 67108864.0 == 13421772.0
  {
    SmallWholeIsFloat(5);
    var p := 53687090.0 / 268435456.0;
    FloatProductIs(5.0, TWENTY_FIVE.inverse, p);
    DoubledValues(p);
    DoubledValues(Rounded(p));
    NearestEvenShifted(13421772, 0.5);
    RoundedByMantissa(p, 13421772.5, 26);
  }

  lemma FiveUnitsReturn()
    ensures WholeUnits(PublishedInFloats(5, TWENTY_FIVE.inverse), TWENTY_FIVE) == 4.0
  {
    FiveUnitsPublished();
    var top := 13421772.0 / 67108864.0;
    var p := 335544300.0 / 67108864.0;
    FloatProductIs(top, 25.0, p);
    DoubledValues(p);
    DoubledValues(Rounded(p));
    NearestEvenShifted(10485758, 1.375);
    RoundedByMantissa(p, 10485759.375, 21);
    assert 4.0 <= Rounded(p) < 5.0;
  }

  lemma {:induction false} ZerosAddNothing(x: seq<int>, lo: nat, n: nat)
    requires lo <= n <= |x| && forall i :: lo <= i < n ==> x[i] == 0
    ensures SqDist(Zeros(|x|), x, 0, n) == SqDist(Zeros(|x|), x, 0, lo)
    decreases n
  {
    if lo < n {
      ZerosAddNothing(x, lo, n - 1);
    }
  }

  lemma TwoSquares(dims: nat, a: nat, b: nat)
    requires dims >= 2 && a <= 255 && b <= 255
    ensures ByteDistance(dims, a * a + b * b)
  {
    var x := [a, b] + Zeros(dims - 2);
    ZerosAddNothing(x, 2, dims);
    var q := Zeros(dims);
    assert SqDist(q, x, 0, 0) == 0;
    assert SqDist(q, x, 0, 1) == Sq(0 - a) == a * a;
    assert SqDist(q, x, 0, 2) == SqDist(q, x, 0, 1) + Sq(0 - b);
    assert Sq(0 - b) == b * b;
    assert IsByteDistance(q, x, dims, a * a + b * b);
  }

  /** A single row group of scale 5 turns down a vector at 4 units for one at 5 units: published and
      scaled back in single precision, 5 units are 4. */
  lemma FiveUnitsAreFour(dims: nat)
    requires 2 <= dims <= PDX_MAX_DIMS
    ensures IsStored(TWENTY_FIVE) && !Compatible(dims, [TWENTY_FIVE]) && !AlwaysExact(dims, [TWENTY_FIVE])
  {
    TwentyFiveIsStored();
    FourUnitsPublished();
    FiveUnitsPublished();
    FiveUnitsReturn();
    TwoSquares(dims, 2, 0);
    TwoSquares(dims, 2, 1);
    assert [TWENTY_FIVE][0] == TWENTY_FIVE;
    assert Breaks(dims, [TWENTY_FIVE], 0, 0, 5, 4);
    BrokenIsIncompatible(dims, [TWENTY_FIVE], 0, 0, 5, 4);
    ScalesDecideExactness(dims, [TWENTY_FIVE]);
  }

  lemma BrokenIsIncompatible(dims: nat, scales: seq<Scale>, i: nat, j: nat, n: nat, d: nat)
    requires Breaks(dims, scales, i, j, n, d)
    ensures !Compatible(dims, scales)
  {
    assert !Preserves(dims, scales[i], PublishedInFloats(n, scales[j].inverse));
  }

  // ---------------------------------------------------------------- scales that differ

  lemma OneSquare(dims: nat, a: nat)
    requires dims >= 1 && a <= 255
    ensures ByteDistance(dims, a * a)
  {
    var x := [a] + Zeros(dims - 1);
    ZerosAddNothing(x, 1, dims);
    var q := Zeros(dims);
    assert SqDist(q, x, 0, 0) == 0;
    assert SqDist(q, x, 0, 1) == Sq(0 - a) == a * a;
    assert IsByteDistance(q, x, dims, a * a);
  }

  /** If one unit of row group `j` rounds to less than a unit of row group `i`, a vector at one unit in
      `j` makes `i` turn down an exact match. */
  lemma MatchIsLost(dims: nat, scales: seq<Scale>, i: nat, j: nat)
    requires AllSensible(dims, scales) && i < |scales| && j < |scales| && IsFloat(scales[j].inverse)
    requires FloatProduct(scales[j].inverse, scales[i].squared) < 1.0
    ensures Breaks(dims, scales, i, j, 1, 0) && !AlwaysExact(dims, scales)
  {
    var unit := scales[j].inverse;
    OneSquare(dims, 0);
    OneSquare(dims, 1);
    SmallWholeIsFloat(0);
    SmallWholeIsFloat(1);
    FloatProductIs(1.0, unit, unit);
    FloatProductIs(0.0, scales[i].inverse, 0.0);
    FloatProductIsMonotone(0.0, unit, scales[i].squared);
    BrokenIsIncompatible(dims, scales, i, j, 1, 0);
    ScalesDecideExactness(dims, scales);
  }

  // ---------------------------------------------------------------- powers of two

  /** A power of two and its inverse, in either order. */
  predicate IsPowerOfTwo(scale: Scale, k: nat) {
    && k <= 80 && scale.squared > 0.0 && scale.inverse > 0.0
    && ((scale.squared == Doubled(1.0, k) && Doubled(scale.inverse, k) == 1.0)
        || (scale.inverse == Doubled(1.0, k) && Doubled(scale.squared, k) == 1.0))
  }

  lemma {:induction false} DoubledGrows(x: real, j: nat, k: nat)
    requires x >= 0.0 && j <= k
    ensures 0.0 <= Doubled(x, j) <= Doubled(x, k)
  {
    if j < k {
      DoubledGrows(x, j, k - 1);
    } else if j > 0 {
      DoubledGrows(x, j - 1, j - 1);
    }
  }

  lemma InverseIsNormal(x: real, k: nat)
    requires k <= 80 && x >= 0.0 && Doubled(x, k) >= 1.0
    ensures x >= SMALLEST_NORMAL
  {
    DoubledGrows(x, k, 117);
    DoubledSixteen(x, 117);
    DoubledSixteen(x, 133);
    DoubledToUnits(x);
  }

  /** Dividing a float by a power of two is exact. */
  lemma TimesInverse(x: real, c: real, k: nat, p: real)
    requires IsFloat(x) && c > 0.0 && Doubled(c, k) == 1.0 && p == x * c && p >= SMALLEST_NORMAL
    ensures FloatProduct(x, c) == p
  {
    DoubledTimes(x, c, k);
    assert Doubled(p, k) == x;
    ShiftedIsFloat(p, k);
    FloatProductIs(x, c, p);
  }

  lemma {:induction false} DoubledSum(x: real, j: nat, k: nat)
    ensures Doubled(Doubled(x, j), k) == Doubled(x, j + k)
  {
    if k > 0 {
      DoubledSum(x, j, k - 1);
    }
  }

  lemma DoubledIsFloat(x: real, k: nat)
    requires IsFloat(x)
    ensures IsFloat(Doubled(x, k))
  {
    var units := x * UNITS_PER_ONE;
    assert RoundUnits(units) == units;
    DoubledIsFixed(units, k);
    DoubledGrows(x, 0, k);
    DoubledToUnits(x);
    DoubledToUnits(Doubled(x, k));
    DoubledSum(x, 149, k);
    DoubledSum(x, k, 149);
    RoundedByUnits(Doubled(x, k), Doubled(x, k));
  }

  lemma TimesOne(x: real, k: nat, two: real)
    requires two == Doubled(1.0, k)
    ensures x * two == Doubled(x, k)
  {
    DoubledTimes(x, 1.0, k);
  }

  /** So is multiplying it by one. */
  lemma TimesPower(x: real, k: nat, two: real)
    requires IsFloat(x) && two == Doubled(1.0, k)
    ensures FloatProduct(x, two) == Doubled(x, k)
  {
    TimesOne(x, k, two);
    FloatProductIs(x, two, Doubled(x, k));
    DoubledIsFloat(x, k);
  }

  lemma Associate(a: real, b: real, c: real)
    requires b * c == 1.0
    ensures (a * b) * c == a
  {
    assert (a * b) * c == a * (b * c);
  }

  lemma UndoDoubled(c: real, k: nat, w: real)
    requires c > 0.0 && Doubled(c, k) == 1.0
    ensures Doubled(w, k) * c == w
  {
    var two := Doubled(1.0, k);
    TimesOne(c, k, two);
    TimesOne(w, k, two);
    Associate(w, two, c);
  }

  lemma NormalProduct(w: real, inverse: real, k: nat)
    requires k <= 80 && inverse > 0.0 && Doubled(inverse, k) == 1.0 && w >= 1.0
    ensures w * inverse >= SMALLEST_NORMAL
  {
    InverseIsNormal(inverse, k);
    TimesMonotone(1.0, w, inverse);
    assert 1.0 * inverse == inverse;
  }

  lemma Down(w: real, inverse: real, k: nat) returns (p: real)
    requires k <= 80 && inverse > 0.0 && Doubled(inverse, k) == 1.0 && w >= 1.0 && IsFloat(w)
    ensures FloatProduct(w, inverse) == p && IsFloat(p) && Doubled(p, k) == w
  {
    p := w * inverse;
    NormalProduct(w, inverse, k);
    TimesInverse(w, inverse, k, p);
    FloatProductIsFloat(w, inverse);
    DoubledTimes(w, inverse, k);
  }

  lemma Up(p: real, k: nat, two: real) returns (w: real)
    requires IsFloat(p) && two == Doubled(1.0, k)
    ensures FloatProduct(p, two) == w && IsFloat(w) && w == Doubled(p, k)
  {
    TimesPower(p, k, two);
    DoubledIsFloat(p, k);
    w := Doubled(p, k);
  }

  lemma DownFrom(w: real, inverse: real, k: nat, d: real)
    requires inverse > 0.0 && Doubled(inverse, k) == 1.0 && IsFloat(d) && d == Doubled(w, k) && w >= 1.0
    ensures FloatProduct(d, inverse) == w
  {
    UndoDoubled(inverse, k, w);
    TimesInverse(d, inverse, k, w);
  }

  /** Publishing a float and scaling it back is exact: by the inverse of a power of two first ... */
  lemma DownAndUp(w: real, inverse: real, k: nat, two: real)
    requires k <= 80 && inverse > 0.0 && two == Doubled(1.0, k) && Doubled(inverse, k) == 1.0
    requires w >= 1.0 && IsFloat(w)
    ensures FloatProduct(FloatProduct(w, inverse), two) == w
  {
    var p := Down(w, inverse, k);
    var back := Up(p, k, two);
  }

  /** ... or by the power of two first. */
  lemma UpAndDown(w: real, inverse: real, k: nat, two: real)
    requires inverse > 0.0 && two == Doubled(1.0, k) && Doubled(inverse, k) == 1.0
    requires w >= 1.0 && IsFloat(w)
    ensures FloatProduct(FloatProduct(w, two), inverse) == w
  {
    var d := Up(w, k, two);
    DownFrom(w, inverse, k, d);
  }

  lemma ThereAndBack(scale: Scale, k: nat, w: real)
    requires IsPowerOfTwo(scale, k) && w >= 1.0 && IsFloat(w)
    ensures FloatProduct(FloatProduct(w, scale.inverse), scale.squared) == w
  {
    if scale.squared == Doubled(1.0, k) && Doubled(scale.inverse, k) == 1.0 {
      DownAndUp(w, scale.inverse, k, scale.squared);
    } else {
      UpAndDown(w, scale.squared, k, scale.inverse);
    }
  }

  lemma WholeToUint32(w: nat)
    requires w < UINT32_RANGE
    ensures ToUint32(w as real) == w as real
  {
  }

  /** The rounded distance `w`, published and in whole units again. */
  lemma WholeIsExact(scale: Scale, k: nat, w: nat)
    requires IsPowerOfTwo(scale, k) && w < UINT32_RANGE && IsFloat(w as real)
    ensures WholeUnits(FloatProduct(w as real, scale.inverse), scale) == w as real
  {
    WholeToUint32(w);
    if w == 0 {
      FloatProductIs(0.0, scale.inverse, 0.0);
      FloatProductIs(0.0, scale.squared, 0.0);
      SmallWholeIsFloat(0);
    } else {
      ThereAndBack(scale, k, w as real);
    }
  }

  lemma RoundedDistance(dims: nat, d: nat) returns (w: nat)
    requires dims <= PDX_MAX_DIMS && ByteDistance(dims, d)
    ensures Rounded(d as real) == w as real && w < UINT32_RANGE && IsFloat(w as real)
  {
    BytesAreFar(dims, d);
    w := RoundedIsWhole(d);
    RoundedTwice(d as real);
    RoundedAtMostDouble(d as real);
  }

  lemma PowerReaches(dims: nat, scale: Scale, k: nat, n: nat, d: nat)
    requires dims <= PDX_MAX_DIMS && IsPowerOfTwo(scale, k) && ByteDistance(dims, n) && ByteDistance(dims, d)
    requires WholeUnits(PublishedInFloats(n, scale.inverse), scale) <= d as real
    ensures PublishedInFloats(d, scale.inverse) >= PublishedInFloats(n, scale.inverse)
  {
    var w := RoundedDistance(dims, n);
    var v := RoundedDistance(dims, d);
    WholeIsExact(scale, k, w);
    RoundedIsMonotone(w as real, d as real);
    FloatProductIsMonotone(w as real, v as real, scale.inverse);
  }

  lemma PowerPreserves(dims: nat, scale: Scale, k: nat, n: nat)
    requires dims <= PDX_MAX_DIMS && IsPowerOfTwo(scale, k) && ByteDistance(dims, n)
    ensures Preserves(dims, scale, PublishedInFloats(n, scale.inverse))
  {
    forall d: nat | ByteDistance(dims, d) && WholeUnits(PublishedInFloats(n, scale.inverse), scale) <= d as real
      ensures PublishedInFloats(d, scale.inverse) >= PublishedInFloats(n, scale.inverse)
    {
      PowerReaches(dims, scale, k, n, d);
    }
  }

  /** Row groups that all store the same power of two are always searched exactly. */
  lemma PowersOfTwoAreExact(dims: nat, scales: seq<Scale>, scale: Scale, k: nat)
    requires dims <= PDX_MAX_DIMS && IsPowerOfTwo(scale, k) && forall t :: 0 <= t < |scales| ==> scales[t] == scale
    ensures Compatible(dims, scales) && AlwaysExact(dims, scales)
  {
    forall i, j, n: nat | 0 <= i < |scales| && 0 <= j < |scales| && ByteDistance(dims, n)
      ensures Preserves(dims, scales[i], PublishedInFloats(n, scales[j].inverse))
    {
      PowerPreserves(dims, scale, k, n);
    }
    CompatibleIsExact(dims, scales);
  }
}
