/** When the thresholds are faithful, and so when a search is exact: the pruner's ratios, the
    truncation of U8 thresholds, and the shipped ADSampling ratios. */
module Exactness {
  import opened Common
  import opened Distances
  import opened KnnHeap
  import opened Reals
  import opened Rounding
  import opened SearchMachine
  import opened Interleaving

  /** The pruner never drops a vector early on a threshold below the heap's top. */
  ghost predicate Lossless(ctx: Context) {
    forall v: nat, h: nat :: IsCheckpoint(ctx, v, h) ==> Ratio(ctx, v + h) >= 1.0
  }

  lemma ScaleBack(d: real, scale: real, inverse: real, top: real)
    requires scale * inverse == 1.0 && inverse > 0.0 && d >= top * scale
    ensures d * inverse >= top
  {
    TimesMonotone(top * scale, d, inverse);
    assert (top * scale) * inverse == top * (scale * inverse);
  }

  lemma RatioRaises(top: real, ratio: real, scale: real)
    requires top >= 0.0 && ratio >= 1.0 && scale > 0.0
    ensures Scaled(top, ratio, scale) >= top * scale
  {
    assert top * ratio >= top;
  }

  /** An F32 threshold is not truncated: it is faithful as soon as the ratios are lossless. */
  lemma F32Faithful(ctx: Context, top: real)
    requires ctx.quant.F32? && Lossless(ctx) && top >= 0.0
    ensures Faithful(ctx, top, 0.0)
  {
    forall v: nat, h: nat, d: nat | IsCheckpoint(ctx, v, h) && Reaches(ctx, v, h, top, d)
      ensures Published(ctx, d) + 0.0 >= top
    {
      RatioRaises(top, Ratio(ctx, v + h), ctx.scaleSquared);
      ScaleBack(d as real, ctx.scaleSquared, ctx.inverseScaleSquared, top);
    }
  }

  // ---------------------------------------------------------------- the stored constants of U8

  /** The two floats a U8 row group stores: its squared quantization scale and the inverse. */
  datatype Scale = Scale(squared: real, inverse: real)

  function ScaleOf(ctx: Context): Scale {
    Scale(ctx.scaleSquared, ctx.inverseScaleSquared)
  }

  /** A distance of the heap in whole units of a row group, as the threshold at ratio 1. */
  function WholeUnits(top: real, scale: Scale): real {
    ToUint32(FloatProduct(top, scale.squared))
  }

  /** A row group with these constants turns down no vector below `top`. */
  ghost predicate Preserves(dims: nat, scale: Scale, top: real) {
    forall d: nat :: ByteDistance(dims, d) && WholeUnits(top, scale) <= d as real
                     ==> PublishedInFloats(d, scale.inverse) >= top
  }

  lemma FloorIsMonotone(x: real, y: real)
    requires x <= y
    ensures x.Floor <= y.Floor
  {
  }

  lemma ToUint32IsMonotone(x: real, y: real)
    requires x <= y
    ensures ToUint32(x) <= ToUint32(y)
  {
    FloorIsMonotone(x, y);
    if x < UINT32_RANGE as real <= y {
      assert x.Floor <= UINT32_MAX;
    }
  }

  /** A ratio of at least 1 does not lower the threshold derived from a float. */
  lemma RatioRaisesInFloats(top: real, ratio: real, scale: real)
    requires top >= 0.0 && Rounded(top) == top && ratio >= 1.0 && scale > 0.0
    ensures ScaledInFloats(top, ratio, scale) >= FloatProduct(top, scale)
  {
    FloatProductRaises(top, ratio);
    FloatProductIsMonotone(top, FloatProduct(top, ratio), scale);
  }

  lemma ThresholdOfRatio(ctx: Context, top: real, dim: nat)
    requires ctx.quant.U8? && dim <= ctx.D && Ratio(ctx, dim) >= 1.0
    requires top >= 0.0 && Rounded(top) == top
    ensures Threshold(ctx, top, dim) >= WholeUnits(top, ScaleOf(ctx))
  {
    var ratio, scale := Ratio(ctx, dim), ctx.scaleSquared;
    RatioRaisesInFloats(top, ratio, scale);
    ToUint32IsMonotone(FloatProduct(top, scale), ScaledInFloats(top, ratio, scale));
  }

  /** A U8 threshold is faithful to every float the row group preserves. */
  lemma U8Faithful(ctx: Context, top: real)
    requires ctx.quant.U8? && Lossless(ctx) && top >= 0.0 && Rounded(top) == top
    requires Preserves(ctx.D, ScaleOf(ctx), top)
    ensures Faithful(ctx, top, 0.0)
  {
    forall v: nat, h: nat, d: nat | IsCheckpoint(ctx, v, h) && Reaches(ctx, v, h, top, d)
      ensures Published(ctx, d) + 0.0 >= top
    {
      ThresholdOfRatio(ctx, top, v + h);
    }
  }

  lemma SentinelFaithful(ctx: Context, slack: real)
    ensures Faithful(ctx, FLT_MAX, slack)
  {
  }

  // ---------------------------------------------------------------- distances of held candidates

  /** `r` is the distance `n` as row group `i` publishes it. */
  ghost predicate GridPoint(tasks: seq<Task>, r: real, i: int, n: nat) {
    0 <= i < |tasks| && IsPublished(tasks[i].ctx, r, n)
  }

  ghost predicate IsPublished(ctx: Context, r: real, n: nat) {
    r == Published(ctx, n) && (ctx.quant.U8? ==> ByteDistance(ctx.D, n))
  }

  lemma PublishedIsFloat(ctx: Context, n: nat)
    requires ctx.quant.U8?
    ensures Rounded(Published(ctx, n)) == Published(ctx, n)
  {
    var x := Rounded(n as real);
    RoundedIsMonotone(0.0, n as real);
    FloatProductIsFloat(x, ctx.inverseScaleSquared);
  }

  lemma ClusterOnGrid(ctx: Context, c: Cluster, x: Candidate) returns (n: nat)
    requires Fits(ctx, c) && Roomy(ctx, c) && x in Candidates(ctx, c, Selected(c))
    ensures IsPublished(ctx, x.distance, n)
  {
    var i := CandidateIn(ctx, c, Selected(c), x);
    n := Full(ctx, c.vecs[Selected(c)[i]]);
    assert Headroom(ctx, c.vecs[Selected(c)[i]]);
  }

  lemma QueueOnGrid(ctx: Context, queue: seq<Cluster>, x: Candidate) returns (n: nat)
    requires forall i :: 0 <= i < |queue| ==> Fits(ctx, queue[i]) && Roomy(ctx, queue[i])
    requires x in QueueCandidates(ctx, queue)
    ensures IsPublished(ctx, x.distance, n)
  {
    var i := InSomeCluster(ctx, queue, x);
    n := ClusterOnGrid(ctx, queue[i], x);
  }

  lemma {:induction false} InSomeShare(hs: seq<Heap>, x: Candidate) returns (i: nat)
    requires x in Sum(hs)
    ensures i < |hs| && x in hs[i]
    decreases |hs|
  {
    var n := |hs| - 1;
    if x in hs[n] {
      i := n;
    } else {
      i := InSomeShare(hs[..n], x);
    }
  }

  lemma TaskOnGrid(t: Task, x: Candidate) returns (n: nat)
    requires ValidTask(t) && RoomyTask(t) && t.work.Idle? && x in Held(t)
    ensures IsPublished(t.ctx, x.distance, n)
  {
    n := QueueOnGrid(t.ctx, t.queue, x);
  }

  lemma InSomeTask(tasks: seq<Task>, x: Candidate) returns (i: nat)
    requires ValidTasks(tasks) && x in HeldBy(tasks)
    ensures i < |tasks| && x in Held(tasks[i])
  {
    i := InSomeShare(Shares(tasks), x);
    assert Shares(tasks)[i] == Held(tasks[i]);
  }

  lemma HeldOnGrid(tasks: seq<Task>, x: Candidate) returns (i: nat, n: nat)
    requires ValidTasks(tasks) && forall i :: 0 <= i < |tasks| ==> tasks[i].work.Idle?
    requires x in HeldBy(tasks)
    ensures GridPoint(tasks, x.distance, i, n)
  {
    i := InSomeTask(tasks, x);
    n := TaskOnGrid(tasks[i], x);
  }

  // ---------------------------------------------------------------- exact and nearly exact searches

  ghost predicate LosslessTasks(tasks: seq<Task>) {
    forall i :: 0 <= i < |tasks| ==> Lossless(tasks[i].ctx)
  }

  /** Row groups with these constants preserve each other's published distances, and their own: no
      distance `n` of one, published, scaled to whole units of another and cut down, is reached there
      by a distance that would be published as a smaller one. */
  ghost predicate Compatible(dims: nat, scales: seq<Scale>) {
    forall i, j, n: nat :: 0 <= i < |scales| && 0 <= j < |scales| && ByteDistance(dims, n)
                           ==> Preserves(dims, scales[i], PublishedInFloats(n, scales[j].inverse))
  }

  function ScalesOf(tasks: seq<Task>): (scales: seq<Scale>)
    ensures |scales| == |tasks| && forall i :: 0 <= i < |tasks| ==> scales[i] == ScaleOf(tasks[i].ctx)
  {
    seq(|tasks|, i requires 0 <= i < |tasks| => ScaleOf(tasks[i].ctx))
  }

  /** U8 row groups of one number of dimensions. */
  ghost predicate AreBytes(dims: nat, tasks: seq<Task>) {
    forall i :: 0 <= i < |tasks| ==> tasks[i].ctx.quant.U8? && tasks[i].ctx.D == dims
  }

  /** F32, or U8 with stored constants that go together. */
  ghost predicate CommonUnits(tasks: seq<Task>) {
    || (forall i :: 0 <= i < |tasks| ==> tasks[i].ctx.quant.F32?)
    || (exists dims: nat :: AreBytes(dims, tasks) && Compatible(dims, ScalesOf(tasks)))
  }

  /** Nothing is lost in a search of one row group on its own. */
  ghost predicate LosslessAlone(ctx: Context) {
    Lossless(ctx) && (ctx.quant.U8? ==> Compatible(ctx.D, [ScaleOf(ctx)]))
  }

  lemma CompatibleFaithful(dims: nat, tasks: seq<Task>, i: nat, j: nat, n: nat)
    requires i < |tasks| && j < |tasks| && LosslessTasks(tasks)
    requires AreBytes(dims, tasks) && Compatible(dims, ScalesOf(tasks)) && ByteDistance(dims, n)
    ensures Faithful(tasks[i].ctx, Published(tasks[j].ctx, n), 0.0)
  {
    PublishedIsMonotone(tasks[j].ctx, 0, n);
    PublishedIsFloat(tasks[j].ctx, n);
    assert Preserves(dims, ScalesOf(tasks)[i], PublishedInFloats(n, ScalesOf(tasks)[j].inverse));
    U8Faithful(tasks[i].ctx, Published(tasks[j].ctx, n));
  }

  lemma CommonUnitFaithful(tasks: seq<Task>, i: nat, top: real, j: nat, n: nat)
    requires i < |tasks| && LosslessTasks(tasks) && CommonUnits(tasks) && GridPoint(tasks, top, j, n)
    ensures Faithful(tasks[i].ctx, top, 0.0)
  {
    PublishedIsMonotone(tasks[j].ctx, 0, n);
    if tasks[i].ctx.quant.F32? {
      F32Faithful(tasks[i].ctx, top);
    } else {
      var dims: nat :| AreBytes(dims, tasks) && Compatible(dims, ScalesOf(tasks));
      CompatibleFaithful(dims, tasks, i, j, n);
    }
  }

  /** Its thresholds are faithful to its own published distances. */
  lemma AloneFaithful(ctx: Context, top: real, n: nat)
    requires LosslessAlone(ctx) && IsPublished(ctx, top, n)
    ensures Faithful(ctx, top, 0.0)
  {
    PublishedIsMonotone(ctx, 0, n);
    if ctx.quant.F32? {
      F32Faithful(ctx, top);
    } else {
      PublishedIsFloat(ctx, n);
      assert Preserves(ctx.D, [ScaleOf(ctx)][0], PublishedInFloats(n, [ScaleOf(ctx)][0].inverse));
      U8Faithful(ctx, top);
    }
  }

  lemma CommonUnitsFaithful(tasks: seq<Task>)
    requires ValidTasks(tasks) && (forall i :: 0 <= i < |tasks| ==> tasks[i].work.Idle?)
    requires LosslessTasks(tasks) && CommonUnits(tasks)
    ensures AllFaithful(tasks, HeldBy(tasks), 0.0)
  {
    forall i, top | 0 <= i < |tasks| && IsDistance(HeldBy(tasks), top) ensures Faithful(tasks[i].ctx, top, 0.0) {
      if top == FLT_MAX {
        SentinelFaithful(tasks[i].ctx, 0.0);
      } else {
        var x :| x in HeldBy(tasks) && x.distance == top;
        var j, n := HeldOnGrid(tasks, x);
        CommonUnitFaithful(tasks, i, top, j, n);
      }
    }
  }

  /** Whatever the scheduler does, a lossless search in common units ends with a k-nearest set of
      all scheduled selected vectors. */
  lemma ParallelSearchIsExact(k: nat, run: seq<State>)
    requires IsRun(k, run) && Initial(k, run[0]) && Done(run[|run| - 1])
    requires LosslessTasks(run[0].tasks) && CommonUnits(run[0].tasks)
    ensures NearestUpTo(k, Kept(run[|run| - 1].heap), HeldBy(run[0].tasks), 0.0)
  {
    CommonUnitsFaithful(run[0].tasks);
    EveryRunIsNearest(k, run, 0.0);
  }

  // ---------------------------------------------------------------- the shipped ratios

  /** The ADSampling ratio at aggressiveness 1.5, with `root` the square root of `dim`. */
  ghost predicate ShippedRatio(D: nat, dim: nat, ratio: real)
    requires D > 0
  {
    if dim == 0 then ratio == 1.0
    else exists root :: RatioByRoot(D, dim, ratio, root)
  }

  ghost predicate RatioByRoot(D: nat, dim: nat, ratio: real, root: real)
    requires D > 0
  {
    && root > 0.0 && root * root == dim as real
    && ratio == dim as real / D as real * (1.0 + 1.5 / root) * (1.0 + 1.5 / root)
  }

  /** A context as the index builds it: the split of its dimensions and the shipped ratios. */
  ghost predicate Shipped(ctx: Context) {
    && GetDimensionSplit(ctx.D) == DimensionSplit(ctx.H, ctx.V)
    && forall dim :: 0 <= dim < ctx.D ==> ShippedRatio(ctx.D, dim, ctx.ratios[dim])
  }

  /** (dim / D) * (1 + 1.5 / root)^2 is (root + 1.5)^2 / D. */
  lemma RatioInRoot(D: nat, dim: nat, ratio: real, root: real)
    requires D > 0 && RatioByRoot(D, dim, ratio, root)
    ensures ratio * D as real == (root + 1.5) * (root + 1.5)
  {
    var f := 1.0 + 1.5 / root;
    assert root * f == root + 1.5;
    assert dim as real / D as real * D as real == dim as real;
    calc {
      ratio * D as real;
      dim as real / D as real * f * f * D as real;
      (dim as real / D as real * D as real) * f * f;
      root * root * f * f;
      (root * f) * (root * f);
    }
  }

  lemma SquaresOrder(a: real, b: real)
    requires a > 0.0 && b > 0.0
    ensures a * a <= b * b <==> a <= b
  {
    if a <= b {
      assert a * a <= a * b <= b * b;
    } else {
      assert b * b < a * b < a * a;
    }
  }

  /** Every ratio read at dimension 1, ..., 16 is at most 30.25 / D, the one at 16 exactly that. */
  lemma RatioUpToSixteen(D: nat, dim: nat, ratio: real)
    requires D > 0 && 1 <= dim <= 16 && ShippedRatio(D, dim, ratio)
    ensures ratio * D as real <= 30.25
    ensures dim == 16 ==> ratio * D as real == 30.25
  {
    var root :| RatioByRoot(D, dim, ratio, root);
    RatioInRoot(D, dim, ratio, root);
    SquaresOrder(root, 4.0);
    SquaresOrder(4.0, root);
    SquaresOrder(root + 1.5, 5.5);
  }

  /** Up to 30 dimensions a task reads thresholds while pruning only at 0, 16 and D. */
  lemma CheckpointsOfSmallD(ctx: Context, v: nat, h: nat)
    requires ctx.D <= 30 && GetDimensionSplit(ctx.D) == DimensionSplit(ctx.H, ctx.V)
    requires IsCheckpoint(ctx, v, h)
    ensures h == 0 && v in {0, 16, ctx.D}
  {
    SplitIsSound(ctx.D);
    var i: nat, j: nat :| CheckpointFrom(ctx, v, h, i, j);
    SmallStops(ctx.V, i);
  }

  lemma SmallStops(vertical: nat, i: nat)
    requires vertical <= 30 && i <= 20
    ensures FetchStop(vertical, i) in {0, Min(16, vertical), vertical}
  {
    FirstStop(vertical);
    if i >= 2 {
      StopsGrow(vertical, 2, i);
      assert FetchStop(vertical, 2) == Min(FetchStop(vertical, 1) + 16, vertical);
    }
  }

  lemma {:induction false} StopsGrow(vertical: nat, i: nat, j: nat)
    requires i <= j <= 20
    ensures FetchStop(vertical, i) <= FetchStop(vertical, j)
  {
    if i < j {
      StopsGrow(vertical, i, j - 1);
    }
  }

  lemma FirstStop(vertical: nat)
    ensures FetchStop(vertical, 1) == Min(16, vertical)
  {
    assert FetchStop(vertical, 1) == Min(FetchStop(vertical, 0) + 16, vertical);
  }

  lemma SmallIsLossless(ctx: Context, v: nat, h: nat)
    requires Shipped(ctx) && ctx.D <= 30 && IsCheckpoint(ctx, v, h)
    ensures Ratio(ctx, v + h) >= 1.0
  {
    CheckpointsOfSmallD(ctx, v, h);
    if v == 16 && v < ctx.D {
      RatioUpToSixteen(ctx.D, 16, ctx.ratios[16]);
      AtLeastOne(ctx.ratios[16], ctx.D as real);
    }
  }

  lemma FirstGroupIsCheckpoint(ctx: Context)
    ensures IsCheckpoint(ctx, Min(16, ctx.V), 0)
  {
    FirstStop(ctx.V);
    assert CheckpointFrom(ctx, Min(16, ctx.V), 0, 1, 0);
  }

  lemma RatioBelowOne(D: nat, dim: nat, ratio: real)
    requires D > 30 && 1 <= dim <= 16 && ShippedRatio(D, dim, ratio)
    ensures ratio < 1.0
  {
    RatioUpToSixteen(D, dim, ratio);
    BelowOne(ratio, D as real);
  }

  lemma LargeIsLossy(ctx: Context) returns (v: nat)
    requires Shipped(ctx) && ctx.D > 30
    ensures IsCheckpoint(ctx, v, 0) && Ratio(ctx, v + 0) < 1.0
  {
    v := Min(16, ctx.V);
    FirstGroupIsCheckpoint(ctx);
    RatioBelowOne(ctx.D, v, ctx.ratios[v]);
  }

  /** The shipped ratios are lossless exactly up to 30 dimensions. */
  lemma ShippedIsLosslessUpToThirty(ctx: Context)
    requires Shipped(ctx)
    ensures Lossless(ctx) <==> ctx.D <= 30
  {
    if ctx.D <= 30 {
      forall v: nat, h: nat | IsCheckpoint(ctx, v, h) ensures Ratio(ctx, v + h) >= 1.0 {
        SmallIsLossless(ctx, v, h);
      }
    } else {
      var v := LargeIsLossy(ctx);
    }
  }

  lemma AtLeastOne(ratio: real, D: real)
    requires 0.0 < D <= 30.0 && ratio * D == 30.25
    ensures ratio >= 1.0
  {
    if ratio < 1.0 {
      TimesMonotone(ratio, 1.0, D);
    }
  }

  lemma BelowOne(ratio: real, D: real)
    requires D >= 31.0 && ratio * D <= 30.25
    ensures ratio < 1.0
  {
    if ratio >= 1.0 {
      TimesMonotone(1.0, ratio, D);
    }
  }

  /** So with the shipped ratios, up to 30 dimensions, every parallel search is exact (in common
      units), whatever the data and the scheduler. */
  lemma SmallDimensionsSearchExactly(k: nat, run: seq<State>)
    requires IsRun(k, run) && Initial(k, run[0]) && Done(run[|run| - 1])
    requires CommonUnits(run[0].tasks)
    requires forall i :: 0 <= i < |run[0].tasks| ==>
               Shipped(run[0].tasks[i].ctx) && run[0].tasks[i].ctx.D <= 30
    ensures NearestUpTo(k, Kept(run[|run| - 1].heap), HeldBy(run[0].tasks), 0.0)
  {
    forall i | 0 <= i < |run[0].tasks| ensures Lossless(run[0].tasks[i].ctx) {
      ShippedIsLosslessUpToThirty(run[0].tasks[i].ctx);
    }
    ParallelSearchIsExact(k, run);
  }
}
