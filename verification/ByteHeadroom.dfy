/** The headroom the searches need is there in every U8 index with the shipped ratios, unless the range
    of its embeddings is extremely large or small. */
module ByteHeadroom {
  import opened Common
  import opened Distances
  import opened KnnHeap
  import opened Layout
  import opened Kernels
  import opened Reals
  import opened Rounding
  import opened SearchMachine
  import opened Exactness
  import opened PruneSteps

  /** Stored constants of a data range between about 10^-12 and 10^14. */
  predicate Sensible(scale: Scale) {
    && 0.0 < scale.squared <= 1267650600228229401496703205376.0 && scale.inverse > 0.0
    && FLT_MAX * scale.squared >= 281474976710656.0 && 8589934592.0 * scale.inverse < FLT_MAX
  }

  ghost predicate RatiosAreLarge(ctx: Context) {
    forall v: nat, h: nat :: IsCheckpoint(ctx, v, h) ==> Ratio(ctx, v + h) * 16384.0 >= 1.0
  }

  lemma LosslessIsLarge(ctx: Context)
    requires Lossless(ctx)
    ensures RatiosAreLarge(ctx)
  {
  }

  /** Every shipped ratio is at least 1 / 16384. */
  lemma RatioIsPositive(ctx: Context, dim: nat)
    requires Shipped(ctx) && dim <= ctx.D
    ensures Ratio(ctx, dim) * 16384.0 >= 1.0
  {
    if 0 < dim < ctx.D {
      var ratio := ctx.ratios[dim];
      var root :| RatioByRoot(ctx.D, dim, ratio, root);
      RatioInRoot(ctx.D, dim, ratio, root);
      AboveOne(root);
      WholeAbove(ratio, ctx.D as real);
    }
  }

  lemma ShippedIsLarge(ctx: Context)
    requires Shipped(ctx)
    ensures RatiosAreLarge(ctx)
  {
    forall v: nat, h: nat | IsCheckpoint(ctx, v, h) ensures Ratio(ctx, v + h) * 16384.0 >= 1.0 {
      RatioIsPositive(ctx, v + h);
    }
  }

  lemma AboveOne(root: real)
    requires root > 0.0
    ensures (root + 1.5) * (root + 1.5) >= 1.0
  {
    TimesMonotone(1.0, root + 1.5, root + 1.5);
  }

  lemma WholeAbove(ratio: real, D: real)
    requires 0.0 < D <= 16384.0 && ratio * D >= 1.0
    ensures ratio * 16384.0 >= 1.0
  {
    if ratio < 0.0 {
      TimesMonotone(ratio, 0.0, D);
      assert false;
    } else {
      TimesMonotone(D, 16384.0, ratio);
    }
  }

  // ---------------------------------------------------------------- thresholds

  lemma LargeFactor(ratio: real, x: real)
    requires ratio * 16384.0 >= 1.0 && x >= 0.0
    ensures x * ratio >= x / 16384.0
  {
    TimesMonotone(1.0 / 16384.0, ratio, x);
  }

  /** A product of floats is at least half the exact one, if that is not tiny. */
  lemma AtLeastHalf(x: real, y: real, p: real)
    requires p == x * y && p >= 1.0
    ensures FloatProduct(x, y) >= p / 2.0
  {
    FloatProductIs(x, y, p);
    RoundedIsClose(p);
  }

  lemma LargeScale(x: real, scale: real, all: real)
    requires x >= FLT_MAX / 32768.0 && scale > 0.0 && all == FLT_MAX * scale >= 281474976710656.0
    ensures x * scale >= 8589934592.0
  {
    TimesMonotone(FLT_MAX / 32768.0, x, scale);
    assert (FLT_MAX / 32768.0) * scale == all / 32768.0;
  }

  /** The threshold derived from the initialization element saturates. */
  lemma InitialSaturates(ratio: real, scale: real)
    requires ratio * 16384.0 >= 1.0 && scale > 0.0 && FLT_MAX * scale >= 281474976710656.0
    ensures ToUint32(ScaledInFloats(FLT_MAX, ratio, scale)) == UINT32_MAX as real
  {
    var first := FloatProduct(FLT_MAX, ratio);
    LargeFactor(ratio, FLT_MAX);
    AtLeastHalf(FLT_MAX, ratio, FLT_MAX * ratio);
    LargeScale(first, scale, FLT_MAX * scale);
    AtLeastHalf(first, scale, first * scale);
  }

  lemma InitialThreshold(ctx: Context, dim: nat)
    requires ctx.quant.U8? && dim <= ctx.D && Ratio(ctx, dim) * 16384.0 >= 1.0
    requires Sensible(ScaleOf(ctx))
    ensures Threshold(ctx, FLT_MAX, dim) == UINT32_MAX as real
  {
    InitialSaturates(Ratio(ctx, dim), ctx.scaleSquared);
  }

  // ---------------------------------------------------------------- distances

  lemma BytesAreFar(dims: nat, d: nat)
    requires dims <= PDX_MAX_DIMS && ByteDistance(dims, d)
    ensures d <= 1065369600
  {
    var q, x :| IsByteDistance(q, x, dims, d);
    SqDistAtBytes(q, x, 0, dims);
  }

  lemma AtMostDouble(x: real, y: real, p: real)
    requires p == x * y && p >= 0.0
    ensures FloatProduct(x, y) <= 2.0 * p
  {
    FloatProductIs(x, y, p);
    RoundedAtMostDouble(p);
  }

  lemma ProductIsFinite(x: real, inverse: real)
    requires 0.0 <= x <= 4294967296.0 && inverse > 0.0 && 8589934592.0 * inverse < FLT_MAX
    ensures FloatProduct(x, inverse) < FLT_MAX
  {
    var p := x * inverse;
    var most := 4294967296.0 * inverse;
    TimesMonotone(0.0, x, inverse);
    TimesMonotone(x, 4294967296.0, inverse);
    assert p <= most;
    AtMostDouble(x, inverse, p);
    assert FloatProduct(x, inverse) <= 2.0 * p;
  }

  lemma PublishedIsFinite(d: nat, inverse: real)
    requires d <= 1065369600 && inverse > 0.0 && 8589934592.0 * inverse < FLT_MAX
    ensures PublishedInFloats(d, inverse) < FLT_MAX
  {
    RoundedAtMostDouble(d as real);
    RoundedIsMonotone(0.0, d as real);
    ProductIsFinite(Rounded(d as real), inverse);
  }

  /** Every U8 vector at a distance that bytes can have has headroom. */
  lemma ByteHasHeadroom(ctx: Context, x: seq<int>)
    requires |x| == ctx.D && ctx.quant.U8? && ByteDistance(ctx.D, Full(ctx, x))
    requires RatiosAreLarge(ctx) && Sensible(ScaleOf(ctx))
    ensures Headroom(ctx, x)
  {
    BytesAreFar(ctx.D, Full(ctx, x));
    PublishedIsFinite(Full(ctx, x), ctx.inverseScaleSquared);
    forall v: nat, h: nat | IsCheckpoint(ctx, v, h) ensures Full(ctx, x) as real < Threshold(ctx, FLT_MAX, v + h) {
      InitialThreshold(ctx, v + h);
    }
  }

  /** With the shipped ratios no U8 distance, at any supported number of dimensions, reaches a
      threshold derived from the initialization element. */
  lemma BytesAreRoomy(ctx: Context, st: StoredCluster, sel: seq<bool>)
    requires ValidStored(ctx, st) && |sel| == |st.ids| && ctx.quant.U8?
    requires RatiosAreLarge(ctx) && Sensible(ScaleOf(ctx))
    ensures Roomy(ctx, View(ctx, st, sel))
  {
    forall p | 0 <= p < |st.ids| ensures Headroom(ctx, View(ctx, st, sel).vecs[p]) {
      var x := Row(ShapeOf(ctx, st), st.data, p);
      RowIsBytes(ShapeOf(ctx, st), st.data, p);
      assert IsByteDistance(ctx.query, x, ctx.D, Full(ctx, x));
      ByteHasHeadroom(ctx, x);
    }
  }
}
