/** With the shipped ADSampling ratios a search is exact on all data up to 30 dimensions and never from
    31 on: there the first checkpoint drops the nearer of two vectors. */
module ShippedPruner {
  import opened Common
  import opened Distances
  import opened KnnHeap
  import opened Reals
  import opened Rounding
  import opened Mantissas
  import opened SearchMachine
  import opened Interleaving
  import opened Exactness
  import opened ByteHeadroom
  import opened Schedules
  import opened Truncation
  import opened StoredScales
  import opened NearlyExact

  ghost predicate ShippedRatios(dims: nat, ratios: seq<real>) {
    ValidPruner(dims, ratios) && forall dim :: 0 <= dim < dims ==> ShippedRatio(dims, dim, ratios[dim])
  }

  /** Every search of row groups with these constants and this pruner, on all data, for all queries and
      under all schedules, ends with a k-nearest set. */
  ghost predicate AlwaysExactWith(quant: Quantization, dims: nat, scales: seq<Scale>, ratios: seq<real>) {
    forall k: nat, run: seq<State>
      | CompleteRun(k, run) && HavePruner(run[0].tasks, quant, dims, ratios) && ScalesOf(run[0].tasks) == scales ::
      NearestUpTo(k, Kept(run[|run| - 1].heap), HeldBy(run[0].tasks), 0.0)
  }

  lemma HaveShipped(tasks: seq<Task>, quant: Quantization, dims: nat, ratios: seq<real>)
    requires ShippedRatios(dims, ratios) && HavePruner(tasks, quant, dims, ratios)
    ensures forall t :: 0 <= t < |tasks| ==> Shipped(tasks[t].ctx) && tasks[t].ctx.D == dims
    ensures dims <= 30 ==> LosslessTasks(tasks)
  {
    forall t | 0 <= t < |tasks| ensures Shipped(tasks[t].ctx) && (dims <= 30 ==> Lossless(tasks[t].ctx)) {
      assert IsPruner(tasks[t].ctx, quant, dims, ratios);
      ShippedIsLosslessUpToThirty(tasks[t].ctx);
    }
  }

  lemma ShippedAreLarge(dims: nat, ratios: seq<real>, ctx: Context)
    requires ShippedRatios(dims, ratios) && ctx.D == dims && ctx.ratios == ratios
    requires GetDimensionSplit(dims) == DimensionSplit(ctx.H, ctx.V)
    ensures AllLarge(ratios)
  {
    forall dim | 0 <= dim < dims ensures ratios[dim] * 16384.0 >= 1.0 {
      RatioIsPositive(ctx, dim);
    }
  }

  // ---------------------------------------------------------------- two vectors on one axis

  function OnAxis(dims: nat, a: int): (x: seq<int>)
    requires dims >= 1
    ensures |x| == dims && x[0] == a && forall i :: 1 <= i < dims ==> x[i] == 0
  {
    [a] + Zeros(dims - 1)
  }

  lemma DistanceOnAxis(dims: nat, a: int, n: nat)
    requires 1 <= n <= dims
    ensures SqDist(Zeros(dims), OnAxis(dims, a), 0, n) == a * a
  {
    var q, x := Zeros(dims), OnAxis(dims, a);
    ZerosAddNothing(x, 1, n);
    assert SqDist(q, x, 0, 1) == SqDist(q, x, 0, 0) + Sq(q[0] - x[0]);
    assert Sq(0 - a) == a * a;
  }

  const FAR: nat := 65025
  const NEAR: nat := 64516

  // ---------------------------------------------------------------- the first checkpoint

  function FirstDim(ctx: Context): nat {
    Min(16, ctx.V)
  }

  ghost predicate DoomedFirstWork(ctx: Context, c: Cluster, a: Candidate, w: Work) {
    match w
    case Idle => true
    case Warming(c', i) => c' == c && i == 1
    case Reading(c', v, h, alive) => c' == c && v == FirstDim(ctx) && h == 0 && alive == [0]
    case Judging(c', v, h, alive, top) => c' == c && v == FirstDim(ctx) && h == 0 && alive == [0] && top == a.distance
    case Merging(_, _) => false
  }

  ghost predicate DoomedFirst(ctx: Context, c: Cluster, a: Candidate, t: Task, h: Heap) {
    && h == multiset{a} && t.ctx == ctx
    && ((t.queue == [c] && t.work.Idle?) || (t.queue == [] && DoomedFirstWork(ctx, c, a, t.work)))
  }

  /** A selected vector of its own that is dropped at the first checkpoint. */
  ghost predicate DropsFirst(ctx: Context, c: Cluster, top: real) {
    Fits(ctx, c) && Selected(c) == [0] && |c.vecs| == 1 && c.sel == [true]
    && !Survives(ctx, c, FirstDim(ctx), 0, top, 0)
  }

  /** One group of dimensions is enough to end the warmup. */
  lemma WarmsUpOnce(ctx: Context, c: Cluster, top: real)
    requires DropsFirst(ctx, c, top)
    ensures AfterWarming(ctx, c, 1, top) == Reading(c, FirstDim(ctx), 0, [0])
  {
    FirstStop(ctx.V);
    var dim := FirstDim(ctx);
    assert SqDist(ctx.query, c.vecs[0], ctx.V, ctx.V) == 0;
    assert WarmupDistance(ctx, c, dim, 0) == Partial(ctx, c.vecs[0], dim, 0);
    assert PrunableBelow(ctx, c, dim, top, 0) == 0;
    assert PrunableBelow(ctx, c, dim, top, 1) == 1;
  }

  lemma DoomedFirstIdle(ctx: Context, c: Cluster, a: Candidate, t: Task, h: Heap, t': Task, h': Heap, out: Heap)
    requires DropsFirst(ctx, c, a.distance) && t.work.Idle?
    requires ValidTask(t) && DoomedFirst(ctx, c, a, t, h) && TaskStep(1, t, h, t', h', out)
    ensures DoomedFirst(ctx, c, a, t', h')
  {
    assert t.queue == [c] && [c][1..] == [];
  }

  lemma DoomedFirstStep(ctx: Context, c: Cluster, a: Candidate, t: Task, h: Heap, t': Task, h': Heap, out: Heap)
    requires DropsFirst(ctx, c, a.distance)
    requires ValidTask(t) && DoomedFirst(ctx, c, a, t, h) && TaskStep(1, t, h, t', h', out)
    ensures DoomedFirst(ctx, c, a, t', h')
  {
    TopOfOne(a);
    match t.work
    case Idle =>
      DoomedFirstIdle(ctx, c, a, t, h, t', h', out);
    case Warming(c', i) =>
      WarmsUpOnce(ctx, c, a.distance);
    case Reading(c', v, hd, alive) =>
    case Judging(c', v, hd, alive, top) =>
      SieveOfOne(ctx, c, v, hd, top);
    case Merging(c', alive) =>
  }

  lemma StaysDoomedFirst(ctx: Context, c: Cluster, a: Candidate)
    requires DropsFirst(ctx, c, a.distance)
    ensures KeptByAllSteps(1, (t: Task, h: Heap) => DoomedFirst(ctx, c, a, t, h))
  {
    var keep := (t: Task, h: Heap) => DoomedFirst(ctx, c, a, t, h);
    forall t, h, t', h', out | ValidTask(t) && keep(t, h) && TaskStep(1, t, h, t', h', out) ensures keep(t', h') {
      DoomedFirstStep(ctx, c, a, t, h, t', h', out);
    }
  }

  lemma RatioOfFirst(D: nat, dim: nat, ratio: real)
    requires D > 30 && 1 <= dim <= 16 && ShippedRatio(D, dim, ratio)
    ensures 0.0 < ratio && ratio * 31.0 <= 30.25
  {
    var root :| RatioByRoot(D, dim, ratio, root);
    RatioInRoot(D, dim, ratio, root);
    AboveOne(root);
    RatioUpToSixteen(D, dim, ratio);
    Between(ratio, D as real);
  }

  lemma Between(ratio: real, D: real)
    requires D >= 31.0 && 1.0 <= ratio * D <= 30.25
    ensures 0.0 < ratio && ratio * 31.0 <= 30.25
  {
    if ratio <= 0.0 {
      TimesMonotone(ratio, 0.0, D);
      assert false;
    } else {
      TimesMonotone(31.0, D, ratio);
    }
  }

  // ---------------------------------------------------------------- the thresholds

  lemma FloatThreshold(unit: real, inverse: real, ratio: real)
    requires unit * inverse == 1.0 && 0.0 < ratio && ratio * 31.0 <= 30.25
    ensures Scaled(FAR as real * inverse, ratio, unit) <= NEAR as real
  {
    assert Scaled(FAR as real * inverse, ratio, unit) == FAR as real * ratio * (unit * inverse);
  }

  lemma NearFit(unit: real, inverse: real, ratio: real)
    requires unit > 0.0 && unit * inverse == 1.0 && FLT_MAX * unit >= 281474976710656.0
    requires ratio * 16384.0 >= 1.0
    ensures Scaled(FLT_MAX, ratio, unit) > 70000.0
  {
    var all := FLT_MAX * unit;
    TimesMonotone(1.0 / 16384.0, ratio, all);
    assert Scaled(FLT_MAX, ratio, unit) == ratio * all;
  }

  lemma BelowMax(unit: real, inverse: real)
    requires unit > 0.0 && inverse > 0.0 && unit * inverse == 1.0 && FLT_MAX * unit >= 281474976710656.0
    ensures 70000.0 * inverse < FLT_MAX
  {
    BelowAll(FLT_MAX * unit, inverse, FLT_MAX * unit * inverse);
    assert FLT_MAX * unit * inverse == FLT_MAX * (unit * inverse);
  }

  lemma BelowAll(all: real, inverse: real, product: real)
    requires all >= 281474976710656.0 && inverse > 0.0 && product == all * inverse
    ensures 70000.0 * inverse < product
  {
    TimesMonotone(281474976710656.0, all, inverse);
  }

  // ---------------------------------------------------------------- thresholds in floats

  const TINY: real := 2.0 * SMALLEST_NORMAL

  lemma ProductAtMost(x: real, y: real, p: real)
    requires p == x * y && p >= 0.0
    ensures FloatProduct(x, y) <= p + p / PRECISION + TINY
  {
    FloatProductIs(x, y, p);
    if p >= SMALLEST_NORMAL {
      RoundedIsClose(p);
    } else {
      RoundedAtMostDouble(p);
    }
  }

  /** A float product scaled by `s`. */
  lemma ScaledAtMost(x: real, p: real, s: real, q: real)
    requires 0.0 < s <= 1267650600228229401496703205376.0 && x <= p + p / PRECISION + TINY && q == p * s && q >= 0.0
    ensures x * s <= q + q / PRECISION + 1.0
  {
    TimesMonotone(x, p + p / PRECISION + TINY, s);
    var tiny := TINY;
    TimesMonotone(s, 1267650600228229401496703205376.0, tiny);
    assert 1267650600228229401496703205376.0 * tiny <= 1.0;
    assert tiny * s <= 1.0;
    assert (p + p / PRECISION + TINY) * s == q + q / PRECISION + TINY * s;
  }

  lemma InverseBounds(s: real, inverse: real, y: real)
    requires 0.0 < s <= 1267650600228229401496703205376.0 && y == 1.0 / s && inverse == Rounded(y)
    ensures inverse >= SMALLEST_NORMAL && inverse * s <= 1.0 + 1.0 / PRECISION
  {
    SmallestInverse(s);
    RoundedIsClose(y);
    PositiveQuotient(s, y);
    TimesMonotone(inverse, y + y / PRECISION, s);
    assert (y + y / PRECISION) * s == s * y + (s * y) / PRECISION;
  }

  lemma PublishedFar(inverse: real, far: real, s: real)
    requires inverse > 0.0 && far == PublishedInFloats(FAR, inverse)
    requires 0.0 < s <= 1267650600228229401496703205376.0 && inverse * s <= 1.0 + 1.0 / PRECISION
    ensures far * s <= 65027.0
  {
    SmallWholeIsFloat(FAR);
    var p := 65025.0 * inverse;
    var q := p * s;
    ProductAtMost(65025.0, inverse, p);
    assert q == 65025.0 * (inverse * s);
    ProductIsNonNegative(p, s);
    ScaledAtMost(far, p, s, q);
  }

  lemma LoweredUnits(top: real, ratio: real, s: real, t: real, q: real)
    requires s > 0.0 && t == top * s && 0.0 <= t <= 65027.0 && 0.0 < ratio && ratio * 31.0 <= 30.25
    requires q == (top * ratio) * s
    ensures 0.0 <= q <= 63454.0
  {
    assert q == t * ratio;
    ProductIsNonNegative(t, ratio);
    TimesMonotone(ratio * 31.0, 30.25, t);
    assert (ratio * 31.0) * t == q * 31.0;
  }

  lemma LoweredThreshold(top: real, ratio: real, s: real)
    requires 0.0 < s <= 1267650600228229401496703205376.0 && 0.0 <= top && top * s <= 65027.0
    requires 0.0 < ratio && ratio * 31.0 <= 30.25
    ensures ScaledInFloats(top, ratio, s) <= 63457.0
  {
    var p := top * ratio;
    var first := FloatProduct(top, ratio);
    ProductIsNonNegative(top, ratio);
    ProductIsNonNegative(top, s);
    ProductAtMost(top, ratio, p);
    LoweredUnits(top, ratio, s, top * s, p * s);
    ScaledAtMost(first, p, s, p * s);
    FloatProductIsMonotone(0.0, top, ratio);
    LastProduct(first, s, first * s);
  }

  lemma LastProduct(first: real, s: real, w: real)
    requires w == first * s && first >= 0.0 && s > 0.0 && w <= 63456.0
    ensures FloatProduct(first, s) <= 63457.0
  {
    ProductIsNonNegative(first, s);
    ProductAtMost(first, s, w);
  }

  lemma CutLowered(x: real)
    requires x <= 63457.0
    ensures ToUint32(x) <= NEAR as real
  {
  }

  lemma NearerIsPublishedNearer(inverse: real)
    requires inverse >= SMALLEST_NORMAL
    ensures PublishedInFloats(NEAR, inverse) < PublishedInFloats(FAR, inverse)
  {
    SmallWholeIsFloat(FAR);
    SmallWholeIsFloat(NEAR);
    FloatProductIs(65025.0, inverse, 65025.0 * inverse);
    FloatProductIs(64516.0, inverse, 64516.0 * inverse);
    RoundedIsClose(65025.0 * inverse);
    RoundedIsClose(64516.0 * inverse);
  }

  // ---------------------------------------------------------------- the search that loses

  /** What the two vectors need of a context to be searched, and the nearer one to be dropped. */
  ghost predicate LosesOnAxis(ctx: Context) {
    && ctx.D >= 1 && ctx.query == Zeros(ctx.D)
    && Headroom(ctx, OnAxis(ctx.D, 255)) && Headroom(ctx, OnAxis(ctx.D, 254))
    && Published(ctx, NEAR) < Published(ctx, FAR)
    && Threshold(ctx, Published(ctx, FAR), FirstDim(ctx)) <= NEAR as real
  }

  lemma AxisCluster(ctx: Context, id: nat, a: int)
    requires ctx.D >= 1 && ctx.query == Zeros(ctx.D) && Headroom(ctx, OnAxis(ctx.D, a))
    ensures var c := One(id, OnAxis(ctx.D, a));
            && Fits(ctx, c) && Roomy(ctx, c) && Selected(c) == [0]
            && Full(ctx, c.vecs[0]) == a * a
            && Candidates(ctx, c, [0]) == multiset{Candidate(id, Published(ctx, Full(ctx, c.vecs[0])))}
  {
    OneFacts(ctx, id, OnAxis(ctx.D, a));
    DistanceOnAxis(ctx.D, a, ctx.D);
  }

  lemma SecondDrops(ctx: Context)
    requires LosesOnAxis(ctx)
    ensures DropsFirst(ctx, One(2, OnAxis(ctx.D, 254)), Published(ctx, FAR))
  {
    AxisCluster(ctx, 2, 254);
    DistanceOnAxis(ctx.D, 254, FirstDim(ctx));
    assert SqDist(ctx.query, OnAxis(ctx.D, 254), ctx.V, ctx.V) == 0;
    assert 254 * 254 == NEAR;
  }

  /** Row group 0 searches the farther vector, then the nearer one, and drops it. */
  lemma AxisLoses(quant: Quantization, dims: nat, scales: seq<Scale>, ratios: seq<real>) returns (run: seq<State>)
    requires ValidPruner(dims, ratios) && ValidScales(quant, scales) && |scales| > 0
    requires LosesOnAxis(Plain(quant, dims, scales[0], ratios))
    ensures Loses(run, quant, dims, scales, ratios)
  {
    var ctx := Plain(quant, dims, scales[0], ratios);
    var first, second := One(1, OnAxis(dims, 255)), One(2, OnAxis(dims, 254));
    var a, b := Candidate(1, Published(ctx, FAR)), Candidate(2, Published(ctx, NEAR));
    AxisCluster(ctx, 1, 255);
    AxisCluster(ctx, 2, 254);
    SecondDrops(ctx);
    StaysDoomedFirst(ctx, second, a);
    assert Published(ctx, Full(ctx, first.vecs[0])) < FLT_MAX;
    run := LoseSecond(quant, dims, scales, ratios, 0, first, 0, second, a, b,
                      (t: Task, h: Heap) => DoomedFirst(ctx, second, a, t, h));
  }

  // ---------------------------------------------------------------- F32

  lemma SmallPublished(d: nat, unit: real, inverse: real)
    requires d <= 65025 && unit > 0.0 && inverse > 0.0 && unit * inverse == 1.0
    requires FLT_MAX * unit >= 281474976710656.0
    ensures d as real * inverse < FLT_MAX
  {
    BelowMax(unit, inverse);
    TimesMonotone(d as real, 70000.0, inverse);
  }

  lemma FloatAxis(ctx: Context, a: int)
    requires ctx.D >= 1 && ctx.query == Zeros(ctx.D) && ctx.quant.F32? && 0 <= a <= 255
    requires RatiosAreLarge(ctx) && FLT_MAX * ctx.scaleSquared >= 281474976710656.0
    ensures Headroom(ctx, OnAxis(ctx.D, a))
  {
    DistanceOnAxis(ctx.D, a, ctx.D);
    SquareAtMost(a);
    FloatFits(ctx, OnAxis(ctx.D, a), a * a);
  }

  lemma SquareAtMost(a: int)
    requires 0 <= a <= 255
    ensures 0 <= a * a <= 65025
  {
    SqIsMonotone(a, 255);
  }

  lemma FloatFits(ctx: Context, x: seq<int>, d: nat)
    requires |x| == ctx.D && ctx.quant.F32? && Full(ctx, x) == d <= 65025
    requires RatiosAreLarge(ctx) && FLT_MAX * ctx.scaleSquared >= 281474976710656.0
    ensures Headroom(ctx, x)
  {
    SmallPublished(d, ctx.scaleSquared, ctx.inverseScaleSquared);
    forall v: nat, h: nat | IsCheckpoint(ctx, v, h) ensures d as real < Threshold(ctx, FLT_MAX, v + h) {
      NearFit(ctx.scaleSquared, ctx.inverseScaleSquared, Ratio(ctx, v + h));
    }
  }

  lemma FloatLosesOnAxis(ctx: Context)
    requires ctx.D > 30 && ctx.query == Zeros(ctx.D) && ctx.quant.F32? && Shipped(ctx)
    requires FLT_MAX * ctx.scaleSquared >= 281474976710656.0
    ensures LosesOnAxis(ctx)
  {
    var m := FirstDim(ctx);
    ShippedIsLarge(ctx);
    FloatAxis(ctx, 255);
    FloatAxis(ctx, 254);
    RatioOfFirst(ctx.D, m, ctx.ratios[m]);
    FloatThreshold(ctx.scaleSquared, ctx.inverseScaleSquared, ctx.ratios[m]);
    TimesStrict(ctx.inverseScaleSquared);
  }

  lemma TimesStrict(inverse: real)
    requires inverse > 0.0
    ensures NEAR as real * inverse < FAR as real * inverse
  {
  }

  /** F32 row groups of one unit. */
  predicate OneUnit(scales: seq<Scale>) {
    |scales| > 0
    && forall t :: 0 <= t < |scales| ==> ValidScale(F32, scales[t]) && FLT_MAX * scales[t].squared >= 281474976710656.0
  }

  /** An F32 search with the shipped ratios is exact on all data exactly up to 30 dimensions. */
  lemma ShippedFloatsAreExactUpToThirty(dims: nat, scales: seq<Scale>, ratios: seq<real>)
    requires ShippedRatios(dims, ratios) && OneUnit(scales)
    ensures AlwaysExactWith(F32, dims, scales, ratios) <==> dims <= 30
  {
    if dims <= 30 {
      forall k: nat, run: seq<State>
        | CompleteRun(k, run) && HavePruner(run[0].tasks, F32, dims, ratios) && ScalesOf(run[0].tasks) == scales
        ensures NearestUpTo(k, Kept(run[|run| - 1].heap), HeldBy(run[0].tasks), 0.0)
      {
        HaveShipped(run[0].tasks, F32, dims, ratios);
        FloatsAreCommon(run[0].tasks, dims, ratios);
        ParallelSearchIsExact(k, run);
      }
    } else {
      FloatLosesOnAxis(Plain(F32, dims, scales[0], ratios));
      var run := AxisLoses(F32, dims, scales, ratios);
    }
  }

  lemma FloatsAreCommon(tasks: seq<Task>, dims: nat, ratios: seq<real>)
    requires HavePruner(tasks, F32, dims, ratios)
    ensures CommonUnits(tasks)
  {
    forall i | 0 <= i < |tasks| ensures tasks[i].ctx.quant.F32? {
      assert IsPruner(tasks[i].ctx, F32, dims, ratios);
    }
  }

  // ---------------------------------------------------------------- U8

  lemma ByteAxis(ctx: Context, a: int)
    requires ctx.D >= 1 && ctx.query == Zeros(ctx.D) && ctx.quant.U8? && 0 <= a <= 255
    requires RatiosAreLarge(ctx) && Sensible(ScaleOf(ctx))
    ensures Headroom(ctx, OnAxis(ctx.D, a))
  {
    DistanceOnAxis(ctx.D, a, ctx.D);
    OneSquare(ctx.D, a);
    ByteHasHeadroom(ctx, OnAxis(ctx.D, a));
  }

  lemma ByteLosesOnAxis(ctx: Context)
    requires ctx.D > 30 && ctx.query == Zeros(ctx.D) && ctx.quant.U8? && Shipped(ctx)
    requires Sensible(ScaleOf(ctx)) && IsStored(ScaleOf(ctx))
    ensures LosesOnAxis(ctx)
  {
    var m := FirstDim(ctx);
    ShippedIsLarge(ctx);
    ByteAxis(ctx, 255);
    ByteAxis(ctx, 254);
    RatioOfFirst(ctx.D, m, ctx.ratios[m]);
    ByteThresholds(ctx.scaleSquared, ctx.inverseScaleSquared, ctx.ratios[m], 1.0 / ctx.scaleSquared);
  }

  lemma ByteThresholds(s: real, inverse: real, ratio: real, y: real)
    requires 0.0 < s <= 1267650600228229401496703205376.0 && y == 1.0 / s && inverse == Rounded(y)
    requires 0.0 < ratio && ratio * 31.0 <= 30.25
    ensures PublishedInFloats(NEAR, inverse) < PublishedInFloats(FAR, inverse)
    ensures ToUint32(ScaledInFloats(PublishedInFloats(FAR, inverse), ratio, s)) <= NEAR as real
  {
    var far := PublishedInFloats(FAR, inverse);
    InverseBounds(s, inverse, y);
    NearerIsPublishedNearer(inverse);
    PublishedFar(inverse, far, s);
    PublishedInFloatsIsMonotone(0, FAR, inverse);
    LoweredThreshold(far, ratio, s);
    CutLowered(ScaledInFloats(far, ratio, s));
  }

  lemma BytesAreCommon(tasks: seq<Task>, dims: nat, scales: seq<Scale>, ratios: seq<real>)
    requires HavePruner(tasks, U8, dims, ratios) && ScalesOf(tasks) == scales && Compatible(dims, scales)
    ensures CommonUnits(tasks)
  {
    forall i | 0 <= i < |tasks| ensures tasks[i].ctx.quant.U8? && tasks[i].ctx.D == dims {
      assert IsPruner(tasks[i].ctx, U8, dims, ratios);
    }
    assert AreBytes(dims, tasks);
  }

  /** A U8 search with the shipped ratios is exact on all data exactly if it has at most 30 dimensions
      and its stored constants are compatible. */
  lemma ShippedBytesAreExact(dims: nat, scales: seq<Scale>, ratios: seq<real>)
    requires ShippedRatios(dims, ratios) && AllSensible(dims, scales) && |scales| > 0
    requires forall t :: 0 <= t < |scales| ==> IsStored(scales[t])
    ensures AlwaysExactWith(U8, dims, scales, ratios) <==> dims <= 30 && Compatible(dims, scales)
  {
    var ctx := Plain(U8, dims, scales[0], ratios);
    ShippedAreLarge(dims, ratios, ctx);
    if dims > 30 {
      ByteLosesOnAxis(ctx);
      var run := AxisLoses(U8, dims, scales, ratios);
    } else if !Compatible(dims, scales) {
      var i, j, n, d := BrokenPair(dims, scales);
      var run := BrokenIsLossy(dims, scales, ratios, i, j, n, d);
    } else {
      forall k: nat, run: seq<State>
        | CompleteRun(k, run) && HavePruner(run[0].tasks, U8, dims, ratios) && ScalesOf(run[0].tasks) == scales
        ensures NearestUpTo(k, Kept(run[|run| - 1].heap), HeldBy(run[0].tasks), 0.0)
      {
        HaveShipped(run[0].tasks, U8, dims, ratios);
        BytesAreCommon(run[0].tasks, dims, scales, ratios);
        ParallelSearchIsExact(k, run);
      }
    }
  }
}
