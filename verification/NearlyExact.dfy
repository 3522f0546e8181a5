/** How much a lossless U8 search can lose, whatever the constants its row groups store: one whole
    unit, and the rounding of distances and products. */
module NearlyExact {
  import opened Common
  import opened Distances
  import opened KnnHeap
  import opened Reals
  import opened Rounding
  import opened SearchMachine
  import opened Interleaving
  import opened Exactness
  import opened ByteHeadroom
  import opened StoredScales

  function Units(d: nat, unit: real): real {
    d as real * unit
  }

  /** What is lost at most, with a given unit of distance: truncation costs a unit, and five roundings
      cost at most 2^-24 of a distance each. */
  function Loss(dims: nat, unit: real): real {
    unit + 5.0 * (Units(65025 * dims, unit) + unit) / PRECISION
  }

  /** The two constants are inverse to each other up to one rounding. */
  predicate NearInverse(scale: Scale) {
    scale.squared * scale.inverse >= 1.0 - 1.0 / PRECISION
  }

  lemma Invert(s: real, inverse: real, y: real)
    requires s > 0.0 && y == 1.0 / s && inverse >= y - y / PRECISION
    ensures s * inverse >= 1.0 - 1.0 / PRECISION
  {
    TimesMonotone(y - y / PRECISION, inverse, s);
    assert y * s == 1.0;
    assert (y - y / PRECISION) * s == y * s - (y * s) / PRECISION;
  }

  lemma SmallestInverse(s: real)
    requires 0.0 < s <= 1267650600228229401496703205376.0
    ensures 1.0 / s >= 1.0 / 1267650600228229401496703205376.0 >= SMALLEST_NORMAL
  {
    var y := 1.0 / s;
    PositiveQuotient(s, y);
    TimesMonotone(s, 1267650600228229401496703205376.0, y);
  }

  lemma PositiveQuotient(s: real, y: real)
    requires s > 0.0 && y == 1.0 / s
    ensures y > 0.0 && s * y == 1.0
  {
  }

  lemma StoredIsNear(scale: Scale)
    requires IsStored(scale) && Sensible(scale)
    ensures NearInverse(scale)
  {
    RoundedInverse(scale.squared, scale.inverse, 1.0 / scale.squared);
  }

  lemma RoundedInverse(s: real, inverse: real, y: real)
    requires 0.0 < s <= 1267650600228229401496703205376.0 && y == 1.0 / s && inverse == Rounded(y)
    ensures s * inverse >= 1.0 - 1.0 / PRECISION
  {
    SmallestInverse(s);
    RoundedIsClose(y);
    Invert(s, inverse, y);
  }

  // ---------------------------------------------------------------- one threshold

  lemma CutDown(f: real, d: nat)
    requires d < UINT32_MAX && ToUint32(f) <= d as real
    ensures f < d as real + 1.0
  {
  }

  /** What is cut down to `d` units was less than d + 1, before a rounding. */
  lemma TopBelow(top: real, s: real, p: real, d: nat)
    requires p == top * s && p >= 0.0 && FloatProduct(top, s) < d as real + 1.0
    ensures p <= (d as real + 1.0) + 2.0 * (d as real + 1.0) / PRECISION
  {
    FloatProductIs(top, s, p);
    if p >= 1.0 {
      RoundedIsClose(p);
    }
  }

  lemma NormalUnits(x: real, s: real, inverse: real, q: real)
    requires x >= 0.5 && 0.0 < s <= 1267650600228229401496703205376.0 && inverse > 0.0
    requires s * inverse >= 1.0 - 1.0 / PRECISION && q == x * inverse
    ensures q >= SMALLEST_NORMAL && q * s >= x - x / PRECISION
  {
    var y := s * inverse;
    TimesMonotone(1.0 - 1.0 / PRECISION, y, x);
    assert q * s == y * x;
    assert (1.0 - 1.0 / PRECISION) * x == x - x / PRECISION;
    TimesMonotone(0.0, x, inverse);
    TimesMonotone(s, 1267650600228229401496703205376.0, q);
  }

  /** A product of floats, in units. */
  lemma RoundedUnitsAbove(q: real, r: real, s: real, y: real)
    requires s > 0.0 && r >= q - q / PRECISION && y == q * s
    ensures r * s >= y - y / PRECISION
  {
    TimesMonotone(q - q / PRECISION, r, s);
    assert (q - q / PRECISION) * s == y - y / PRECISION;
  }

  /** A published distance in units is the distance, up to three roundings. */
  lemma PublishedAbove(d: nat, scale: Scale, published: real)
    requires NearInverse(scale) && Sensible(scale) && published == PublishedInFloats(d, scale.inverse)
    ensures published * scale.squared >= d as real - 3.0 * d as real / PRECISION
  {
    if d == 0 {
      RoundedIsMonotone(0.0, 0.0);
      PublishedInFloatsIsMonotone(0, 0, scale.inverse);
      TimesMonotone(0.0, published, scale.squared);
    } else {
      var x := Rounded(d as real);
      RoundedIsClose(d as real);
      PublishedAboveRounded(x, scale, published);
    }
  }

  lemma PublishedAboveRounded(x: real, scale: Scale, published: real)
    requires NearInverse(scale) && Sensible(scale) && x >= 0.5 && published == FloatProduct(x, scale.inverse)
    ensures published * scale.squared >= x - 2.0 * x / PRECISION
  {
    var q := x * scale.inverse;
    var y := q * scale.squared;
    NormalUnits(x, scale.squared, scale.inverse, q);
    FloatProductIs(x, scale.inverse, q);
    RoundedIsClose(q);
    RoundedUnitsAbove(q, published, scale.squared, y);
  }

  lemma ByteDistanceAtMost(dims: nat, d: nat)
    requires ByteDistance(dims, d)
    ensures d <= 65025 * dims
  {
    var q, x :| IsByteDistance(q, x, dims, d);
    SqDistAtBytes(q, x, 0, dims);
  }

  lemma TimesUnit(x: real, y: real, s: real, unit: real, p: real)
    requires s > 0.0 && unit == 1.0 / s && p == x * s && p <= y
    ensures x <= y * unit
  {
    TimesMonotone(p, y, unit);
    assert s * unit == 1.0;
    assert p * unit == x * (s * unit);
  }

  lemma UnitTimes(x: real, y: real, s: real, unit: real, p: real)
    requires s > 0.0 && unit == 1.0 / s && p == x * s && p >= y
    ensures x >= y * unit
  {
    TimesMonotone(y, p, unit);
    assert s * unit == 1.0;
    assert p * unit == x * (s * unit);
  }

  lemma UpperBound(x: real, unit: real)
    ensures ((x + 1.0) + 2.0 * (x + 1.0) / PRECISION) * unit == (x * unit + unit) + 2.0 * (x * unit + unit) / PRECISION
    ensures (x - 3.0 * x / PRECISION) * unit == x * unit - 3.0 * (x * unit) / PRECISION
  {
    var z := x * unit;
    assert (x + 1.0) * unit == z + unit;
  }

  lemma TopAtMost(top: real, s: real, d: nat, unit: real)
    requires s > 0.0 && unit == 1.0 / s && top >= 0.0 && d < UINT32_MAX && ToUint32(FloatProduct(top, s)) <= d as real
    ensures top <= (Units(d, unit) + unit) + 2.0 * (Units(d, unit) + unit) / PRECISION
  {
    var p := top * s;
    CutDown(FloatProduct(top, s), d);
    TimesMonotone(0.0, top, s);
    TopBelow(top, s, p, d);
    TimesUnit(top, (d as real + 1.0) + 2.0 * (d as real + 1.0) / PRECISION, s, unit, p);
    UpperBound(d as real, unit);
  }

  lemma PublishedAtLeast(d: nat, scale: Scale, unit: real, published: real)
    requires Sensible(scale) && NearInverse(scale) && unit == 1.0 / scale.squared
    requires published == PublishedInFloats(d, scale.inverse)
    ensures published >= Units(d, unit) - 3.0 * Units(d, unit) / PRECISION
  {
    var r := published * scale.squared;
    PublishedAbove(d, scale, published);
    AtLeastUnits(published, scale.squared, d, unit, r);
  }

  lemma AtLeastUnits(x: real, s: real, d: nat, unit: real, r: real)
    requires s > 0.0 && unit == 1.0 / s && r == x * s && r >= d as real - 3.0 * d as real / PRECISION
    ensures x >= Units(d, unit) - 3.0 * Units(d, unit) / PRECISION
  {
    UnitTimes(x, d as real - 3.0 * d as real / PRECISION, s, unit, r);
    UpperBound(d as real, unit);
  }

  lemma UnitsMonotone(d: nat, e: nat, unit: real)
    requires d <= e && unit >= 0.0
    ensures 0.0 <= Units(d, unit) <= Units(e, unit)
  {
    TimesMonotone(0.0, d as real, unit);
    TimesMonotone(d as real, e as real, unit);
  }

  /** A vector that reaches a whole-unit threshold is nearly as far as what it comes from. */
  lemma ReachedIsNear(dims: nat, scale: Scale, top: real, d: nat, unit: real)
    requires 1 <= dims <= PDX_MAX_DIMS && Sensible(scale) && IsStored(scale) && ByteDistance(dims, d)
    requires top >= 0.0 && WholeUnits(top, scale) <= d as real && unit == 1.0 / scale.squared
    ensures PublishedInFloats(d, scale.inverse) + Loss(dims, unit) >= top
  {
    BytesAreFar(dims, d);
    ByteDistanceAtMost(dims, d);
    UnitIsPositive(scale.squared, unit);
    TopAtMost(top, scale.squared, d, unit);
    StoredIsNear(scale);
    PublishedAtLeast(d, scale, unit, PublishedInFloats(d, scale.inverse));
    UnitsMonotone(d, 65025 * dims, unit);
    Sums(top, PublishedInFloats(d, scale.inverse), Units(d, unit), Units(65025 * dims, unit), unit);
  }

  lemma UnitIsPositive(s: real, unit: real)
    requires s > 0.0 && unit == 1.0 / s
    ensures unit > 0.0
  {
  }

  lemma Sums(top: real, published: real, a: real, b: real, unit: real)
    requires 0.0 <= a <= b && unit >= 0.0
    requires top <= (a + unit) + 2.0 * (a + unit) / PRECISION && published >= a - 3.0 * a / PRECISION
    ensures published + (unit + 5.0 * (b + unit) / PRECISION) >= top
  {
  }

  /** A U8 threshold is faithful up to that loss. */
  lemma U8NearlyFaithful(ctx: Context, top: real, slack: real)
    requires ctx.quant.U8? && Lossless(ctx) && top >= 0.0 && IsFloat(top) && ctx.D >= 1
    requires NearlyLossless(ctx, slack)
    ensures Faithful(ctx, top, slack)
  {
    forall v: nat, h: nat, d: nat | IsCheckpoint(ctx, v, h) && Reaches(ctx, v, h, top, d)
      ensures Published(ctx, d) + slack >= top
    {
      ThresholdOfRatio(ctx, top, v + h);
      ReachedIsNear(ctx.D, ScaleOf(ctx), top, d, 1.0 / ctx.scaleSquared);
    }
  }

  /** Whatever constants U8 row groups store, equal or not, a lossless search under any schedule is
      exact up to a unit and the roundings. */
  lemma ParallelSearchIsNearlyExact(k: nat, run: seq<State>, slack: real)
    requires IsRun(k, run) && Initial(k, run[0]) && Done(run[|run| - 1])
    requires LosslessTasks(run[0].tasks) && slack >= 0.0
    requires forall i :: 0 <= i < |run[0].tasks| ==> NearlyLossless(run[0].tasks[i].ctx, slack)
    ensures NearestUpTo(k, Kept(run[|run| - 1].heap), HeldBy(run[0].tasks), slack)
  {
    var tasks := run[0].tasks;
    forall i, top | 0 <= i < |tasks| && IsDistance(HeldBy(tasks), top) ensures Faithful(tasks[i].ctx, top, slack) {
      assert NearlyLossless(tasks[i].ctx, slack);
      if top == FLT_MAX {
        SentinelFaithful(tasks[i].ctx, slack);
      } else {
        var x :| x in HeldBy(tasks) && x.distance == top;
        var j, n := HeldOnGrid(tasks, x);
        assert NearlyLossless(tasks[j].ctx, slack);
        PublishedIsMonotone(tasks[j].ctx, 0, n);
        PublishedIsFloat(tasks[j].ctx, n);
        U8NearlyFaithful(tasks[i].ctx, top, slack);
      }
    }
    EveryRunIsNearest(k, run, slack);
  }

  /** A U8 row group with stored constants whose loss is within the slack. */
  ghost predicate NearlyLossless(ctx: Context, slack: real) {
    && ctx.quant.U8? && Sensible(ScaleOf(ctx)) && IsStored(ScaleOf(ctx))
    && slack >= Loss(ctx.D, 1.0 / ctx.scaleSquared)
  }
}
