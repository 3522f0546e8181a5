/** What the pruned search does at its checkpoints, in terms of the query, the stored vectors, the
    table of ratios and the farthest candidate of the heap alone. */
module Thresholds {
  import opened Common
  import opened Distances
  import opened KnnHeap
  import opened Reals
  import opened Rounding
  import opened Mantissas
  import opened SearchMachine
  import opened Exactness

  // ---------------------------------------------------------------- one comparison

  lemma ScaleToHeap(d: real, x: real, unit: real, inverse: real)
    requires unit > 0.0 && unit * inverse == 1.0
    ensures d >= x * unit <==> d * inverse >= x
  {
    assert inverse > 0.0;
    if d >= x * unit {
      TimesMonotone(x * unit, d, inverse);
      assert x * unit * inverse == x * (unit * inverse);
    }
    if d * inverse >= x {
      TimesMonotone(x, d * inverse, unit);
      assert d * inverse * unit == d * (unit * inverse);
    }
  }

  /** Whether a distance reaches the threshold that the machine derives. */
  predicate Reaches(ctx: Context, d: nat, dim: nat, top: real, reached: bool)
    requires dim <= ctx.D
  {
    reached <==> d as real >= Threshold(ctx, top, dim)
  }

  /** An F32 distance, `x` in the units of the heap, reaches the threshold of the first `dim` dimensions
      if it is at least `y`, the distance on top of the heap times the ratio in the table. */
  lemma FloatReaches(ctx: Context, d: nat, dim: nat, top: real, reached: bool, x: real, ratio: real, y: real)
    requires dim <= ctx.D
    ensures Sides(ctx, d, dim, top, x, ratio, y) && Reaches(ctx, d, dim, top, reached) ==> (reached <==> x >= y)
  {
    if Sides(ctx, d, dim, top, x, ratio, y) {
      assert ratio == Ratio(ctx, dim);
      ScaleToHeap(d as real, y, ctx.scaleSquared, ctx.inverseScaleSquared);
    }
  }

  /** The two sides of the comparison for F32: the distance in the units of the heap, and the product with
      the table's entry, or with 1 after the last dimension. */
  predicate Sides(ctx: Context, d: nat, dim: nat, top: real, x: real, ratio: real, y: real)
    requires dim <= ctx.D
  {
    && ctx.quant.F32? && x == d as real * ctx.inverseScaleSquared
    && ratio == (if dim < ctx.D then ctx.ratios[dim] else 1.0) && y == top * ratio
  }

  /** A number of units cut down to a `uint32_t`. */
  lemma CutDownReaches(d: nat, units: real)
    ensures d as real >= ToUint32(units) <==> d >= 4294967295 || d >= units.Floor
  {
  }

  /** A U8 distance, an integer, reaches it if it is at least the whole number of units in the product
      of the three, each product rounded, or saturates. */
  lemma BytesReach(ctx: Context, d: nat, dim: nat, top: real, reached: bool)
    requires ctx.quant.U8? && dim <= ctx.D && Reaches(ctx, d, dim, top, reached)
    ensures dim < ctx.D ==>
              (reached <==> d >= 4294967295
                            || d >= FloatProduct(FloatProduct(top, ctx.ratios[dim]), ctx.scaleSquared).Floor)
    ensures dim == ctx.D ==>
              (reached <==> d >= 4294967295 || d >= FloatProduct(FloatProduct(top, 1.0), ctx.scaleSquared).Floor)
  {
    CutDownReaches(d, ScaledInFloats(top, Ratio(ctx, dim), ctx.scaleSquared));
  }

  // ---------------------------------------------------------------- one judgement

  /** The positions a task has in play. */
  function InPlay(w: Work): seq<nat> {
    match w
    case Idle => []
    case Warming(c, _) => Selected(c)
    case Reading(_, _, _, alive) => alive
    case Judging(_, _, _, alive, _) => alive
    case Merging(_, alive) => alive
  }

  /** What a threshold is derived from is the distance of a farthest candidate of the heap at the time of
      the read. */
  lemma ReadsFarthest(k: nat, t: Task, h: Heap, t': Task, h': Heap, out: Heap)
    requires ValidTask(t) && TaskStep(k, t, h, t', h', out) && t.work.Reading?
    ensures t'.work.Judging? && t'.work.alive == t.work.alive && t'.work.v == t.work.v && t'.work.h == t.work.h
    ensures exists x :: x in h && x.distance == t'.work.top
    ensures forall x :: x in h ==> x.distance <= t'.work.top
  {
    var x :| IsTop(h, x) && x.distance == TopDistance(h);
    assert x in h;
  }

  lemma {:induction false} SieveKeeps(ctx: Context, c: Cluster, v: nat, h: nat, top: real, alive: seq<nat>, p: nat)
    requires Fits(ctx, c) && v <= ctx.V && h <= ctx.H && ValidAlive(c, alive) && p in alive
    ensures p in Sieve(ctx, c, v, h, top, alive, true) <==> Survives(ctx, c, v, h, top, p)
    decreases |alive|
  {
    var n := |alive| - 1;
    if p in alive[..n] {
      SieveKeeps(ctx, c, v, h, top, alive[..n], p);
    }
  }

  /** The task judges the vectors in `alive` with the distance `top`, and `d` is the squared distance of
      vector `p` over the first `v` and the `b` horizontal dimensions visited. */
  ghost predicate Judges(t: Task, c: Cluster, v: nat, b: nat, alive: seq<nat>, top: real, p: nat, d: nat) {
    && ValidTask(t) && t.work == Judging(c, v, b, alive, top) && p in alive && p < |c.vecs|
    && v <= t.ctx.V && b <= t.ctx.H && |c.vecs[p]| == t.ctx.D
    && d == SqDist(t.ctx.query, c.vecs[p], 0, v) + SqDist(t.ctx.query, c.vecs[p], t.ctx.V, t.ctx.V + b)
  }

  lemma JudgedPositions(k: nat, t: Task, h: Heap, t': Task, h': Heap, out: Heap, c: Cluster, v: nat, b: nat,
                        alive: seq<nat>, top: real, p: nat, d: nat)
    requires Judges(t, c, v, b, alive, top, p, d) && TaskStep(k, t, h, t', h', out)
    ensures ValidAlive(c, alive) && Fits(t.ctx, c)
    ensures p in InPlay(t'.work) <==> p in Sieve(t.ctx, c, v, b, top, alive, true)
  {
  }

  lemma FloatGoes(t: Task, c: Cluster, v: nat, b: nat, alive: seq<nat>, top: real, p: nat, d: nat, x: real,
                  ratio: real, y: real)
    ensures Judges(t, c, v, b, alive, top, p, d) && Sides(t.ctx, d, v + b, top, x, ratio, y)
            ==> ValidAlive(c, alive) && Fits(t.ctx, c) && (p !in Sieve(t.ctx, c, v, b, top, alive, true) <==> x >= y)
  {
    if Judges(t, c, v, b, alive, top, p, d) {
      SieveKeeps(t.ctx, c, v, b, top, alive, p);
      FloatReaches(t.ctx, d, v + b, top, !Survives(t.ctx, c, v, b, top, p), x, ratio, y);
    }
  }

  /** U8: the vectors that go reach the whole units of the product, or the greatest `uint32_t`. */
  lemma BytesGo(ctx: Context, c: Cluster, v: nat, b: nat, top: real, alive: seq<nat>, p: nat, d: nat, ratio: real)
    requires Fits(ctx, c) && v <= ctx.V && b <= ctx.H && ValidAlive(c, alive) && p in alive && ctx.quant.U8?
    requires d == SqDist(ctx.query, c.vecs[p], 0, v) + SqDist(ctx.query, c.vecs[p], ctx.V, ctx.V + b)
    requires ratio == if v + b < ctx.D then ctx.ratios[v + b] else 1.0
    ensures p !in Sieve(ctx, c, v, b, top, alive, true)
            <==> d >= 4294967295 || d >= FloatProduct(FloatProduct(top, ratio), ctx.scaleSquared).Floor
  {
    SieveKeeps(ctx, c, v, b, top, alive, p);
    BytesReach(ctx, d, v + b, top, !Survives(ctx, c, v, b, top, p));
  }

  /** F32: at a checkpoint a vector is dropped exactly if its squared distance over the dimensions
      visited is at least the distance read times the table's entry for their number, or the distance
      itself after the last one. */
  lemma FloatsAreDropped(k: nat, t: Task, h: Heap, t': Task, h': Heap, out: Heap, c: Cluster, v: nat, b: nat,
                         alive: seq<nat>, top: real, p: nat, d: nat, x: real, ratio: real, y: real)
    requires Judges(t, c, v, b, alive, top, p, d) && TaskStep(k, t, h, t', h', out)
    requires Sides(t.ctx, d, v + b, top, x, ratio, y)
    ensures p !in InPlay(t'.work) <==> x >= y
  {
    JudgedPositions(k, t, h, t', h', out, c, v, b, alive, top, p, d);
    FloatGoes(t, c, v, b, alive, top, p, d, x, ratio, y);
  }

  /** U8: the same in whole units of the row group, product by product in single precision. */
  lemma BytesAreDropped(k: nat, t: Task, h: Heap, t': Task, h': Heap, out: Heap, c: Cluster, v: nat, b: nat,
                        alive: seq<nat>, top: real, p: nat, d: nat)
    requires Judges(t, c, v, b, alive, top, p, d) && TaskStep(k, t, h, t', h', out) && t.ctx.quant.U8?
    ensures var ratio := if v + b < t.ctx.D then t.ctx.ratios[v + b] else 1.0;
            p !in InPlay(t'.work)
            <==> d >= 4294967295 || d >= FloatProduct(FloatProduct(top, ratio), t.ctx.scaleSquared).Floor
  {
    JudgedPositions(k, t, h, t', h', out, c, v, b, alive, top, p, d);
    BytesGo(t.ctx, c, v, b, top, alive, p, d, if v + b < t.ctx.D then t.ctx.ratios[v + b] else 1.0);
  }

  // ---------------------------------------------------------------- the shipped ratios

  lemma TimesDims(x: real, top: real, ratio: real, D: real, square: real, y: real)
    requires D > 0.0 && y == top * ratio
    ensures ratio * D == square ==> (x >= y <==> x * D >= top * square)
  {
    if ratio * D == square {
      assert y * D == top * (ratio * D);
      if x >= y {
        TimesMonotone(y, x, D);
      } else {
        TimesStrictly(x, y, D);
      }
    }
  }

  lemma TimesStrictly(x: real, y: real, D: real)
    requires x < y && D > 0.0
    ensures x * D < y * D
  {
  }

  /** The entry of the table for `dim` dimensions by their root. */
  lemma EntryOf(ctx: Context, dim: nat, root: real, ratio: real, D: real, square: real)
    requires 0 < dim < ctx.D && root > 0.0 && root * root == dim as real
    requires ratio == ctx.ratios[dim] && D == ctx.D as real && square == (root + 1.5) * (root + 1.5)
    ensures Shipped(ctx) ==> ratio * D == square
  {
    if Shipped(ctx) {
      assert ShippedRatio(ctx.D, dim, ctx.ratios[dim]);
      EntryByRoot(ctx.D, dim, ratio, root, D, square);
    }
  }

  lemma EntryByRoot(dims: nat, dim: nat, ratio: real, root: real, D: real, square: real)
    requires dims > 0 && dim > 0 && ShippedRatio(dims, dim, ratio) && root > 0.0 && root * root == dim as real
    requires D == dims as real && square == (root + 1.5) * (root + 1.5)
    ensures ratio * D == square
  {
    var r :| RatioByRoot(dims, dim, ratio, r);
    RatioInRoot(dims, dim, ratio, r);
    SameRoot(r, root);
  }

  /** The comparison with the entry for v + b dimensions, times the number of dimensions. */
  lemma DroppedByEntry(k: nat, t: Task, h: Heap, t': Task, h': Heap, out: Heap, c: Cluster, v: nat, b: nat,
                       alive: seq<nat>, top: real, p: nat, d: nat, x: real, ratio: real, y: real, D: real,
                       square: real)
    requires Judges(t, c, v, b, alive, top, p, d) && TaskStep(k, t, h, t', h', out)
    requires Sides(t.ctx, d, v + b, top, x, ratio, y) && D > 0.0
    ensures ratio * D == square ==> (p !in InPlay(t'.work) <==> x * D >= top * square)
  {
    FloatsAreDropped(k, t, h, t', h', out, c, v, b, alive, top, p, d, x, ratio, y);
    TimesDims(x, top, ratio, D, square, y);
  }

  /** With the shipped ratios, after `v + b` of `D` dimensions a vector is dropped exactly if `D` times its
      squared distance so far, `x`, is at least (root of v + b, and 1.5)^2 times the distance read, for
      every number of dimensions. */
  lemma ShippedFloatsAreDropped(k: nat, t: Task, h: Heap, t': Task, h': Heap, out: Heap, c: Cluster, v: nat, b: nat,
                                alive: seq<nat>, top: real, p: nat, d: nat, x: real, ratio: real, y: real,
                                D: real, root: real, square: real)
    requires Judges(t, c, v, b, alive, top, p, d) && TaskStep(k, t, h, t', h', out)
    requires Sides(t.ctx, d, v + b, top, x, ratio, y)
    requires Shipped(t.ctx) && 0 < v + b < t.ctx.D && D == t.ctx.D as real
    requires root > 0.0 && root * root == (v + b) as real && square == (root + 1.5) * (root + 1.5)
    ensures p !in InPlay(t'.work) <==> x * D >= top * square
  {
    EntryOf(t.ctx, v + b, root, ratio, D, square);
    DroppedByEntry(k, t, h, t', h', out, c, v, b, alive, top, p, d, x, ratio, y, D, square);
  }

  lemma SameQuotient(a: real, b: real, D: real, y: real)
    requires D > 0.0 && a * D == y && b * D == y
    ensures a == b
  {
  }

  lemma EntryIsQuotient(ctx: Context, dim: nat, root: real, ratio: real, D: real, square: real)
    requires 0 < dim < ctx.D && root > 0.0 && root * root == dim as real
    requires ratio * D == square && D == ctx.D as real && square == (root + 1.5) * (root + 1.5)
    ensures Shipped(ctx) ==> ctx.ratios[dim] == ratio
  {
    if Shipped(ctx) {
      var entry := ctx.ratios[dim];
      EntryOf(ctx, dim, root, entry, D, square);
      SameQuotient(entry, ratio, D, square);
    }
  }

  /** The same for U8: the `ratio` in the comparison is (root of v + b, and 1.5)^2 over `D`. */
  lemma ShippedBytesAreDropped(k: nat, t: Task, h: Heap, t': Task, h': Heap, out: Heap, c: Cluster, v: nat, b: nat,
                               alive: seq<nat>, top: real, p: nat, d: nat, ratio: real, D: real, root: real,
                               square: real)
    requires Judges(t, c, v, b, alive, top, p, d) && TaskStep(k, t, h, t', h', out) && t.ctx.quant.U8?
    requires Shipped(t.ctx) && 0 < v + b < t.ctx.D && D == t.ctx.D as real && ratio * D == square
    requires root > 0.0 && root * root == (v + b) as real && square == (root + 1.5) * (root + 1.5)
    ensures p !in InPlay(t'.work)
            <==> d >= 4294967295 || d >= FloatProduct(FloatProduct(top, ratio), t.ctx.scaleSquared).Floor
  {
    EntryIsQuotient(t.ctx, v + b, root, ratio, D, square);
    BytesAreDropped(k, t, h, t', h', out, c, v, b, alive, top, p, d);
  }

  lemma SameRoot(a: real, b: real)
    requires a > 0.0 && b > 0.0 && a * a == b * b
    ensures a == b
  {
    SquaresOrder(a, b);
    SquaresOrder(b, a);
  }

  // ---------------------------------------------------------------- the warmup phase

  /** The distance `d` over `dim` dimensions reaches the distance `top` times the ratio of `dim`: in the
      units of the heap for F32, in whole units of the row group for U8. */
  ghost predicate IsReached(ctx: Context, d: nat, dim: nat, top: real)
    requires dim <= ctx.D
  {
    if ctx.quant.F32? then
      d as real * ctx.inverseScaleSquared >= if dim < ctx.D then top * ctx.ratios[dim] else top
    else
      d >= 4294967295
      || d >= FloatProduct(FloatProduct(top, if dim < ctx.D then ctx.ratios[dim] else 1.0), ctx.scaleSquared).Floor
  }

  lemma ReachesIsReached(ctx: Context, d: nat, dim: nat, top: real)
    requires dim <= ctx.D
    ensures d as real >= Threshold(ctx, top, dim) <==> IsReached(ctx, d, dim, top)
  {
    var reached := d as real >= Threshold(ctx, top, dim);
    if ctx.quant.F32? {
      var ratio := if dim < ctx.D then ctx.ratios[dim] else 1.0;
      FloatReaches(ctx, d, dim, top, reached, d as real * ctx.inverseScaleSquared, ratio, top * ratio);
    } else {
      BytesReach(ctx, d, dim, top, reached);
    }
  }

  /** Vector `p` would be dropped after `dim` vertical dimensions; `mask` is where unselected ones start. */
  ghost predicate IsPrunable(ctx: Context, c: Cluster, dim: nat, top: real, mask: nat, p: nat)
    requires Fits(ctx, c) && dim <= ctx.V && p < |c.vecs|
  {
    IsReached(ctx, (if c.sel[p] then 0 else mask) + SqDist(ctx.query, c.vecs[p], 0, dim), dim, top)
  }

  ghost function Prunable(ctx: Context, c: Cluster, dim: nat, top: real, mask: nat, n: nat): set<nat>
    requires Fits(ctx, c) && dim <= ctx.V && n <= |c.vecs|
  {
    set p: nat | p < n && IsPrunable(ctx, c, dim, top, mask, p)
  }

  lemma PrunableOneMore(ctx: Context, c: Cluster, dim: nat, top: real, mask: nat, n: nat)
    requires Fits(ctx, c) && dim <= ctx.V && n < |c.vecs|
    ensures |Prunable(ctx, c, dim, top, mask, n + 1)|
            == |Prunable(ctx, c, dim, top, mask, n)| + if IsPrunable(ctx, c, dim, top, mask, n) then 1 else 0
  {
    var fewer, all := Prunable(ctx, c, dim, top, mask, n), Prunable(ctx, c, dim, top, mask, n + 1);
    assert all == if IsPrunable(ctx, c, dim, top, mask, n) then fewer + {n} else fewer;
  }

  lemma {:induction false} PrunableCounts(ctx: Context, c: Cluster, dim: nat, top: real, n: nat)
    requires Fits(ctx, c) && dim <= ctx.V && n <= |c.vecs|
    ensures PrunableBelow(ctx, c, dim, top, n) == |Prunable(ctx, c, dim, top, MaskValue(ctx), n)|
    decreases n
  {
    if n > 0 {
      PrunableCounts(ctx, c, dim, top, n - 1);
      ReachesIsReached(ctx, WarmupDistance(ctx, c, dim, n - 1), dim, top);
      PrunableOneMore(ctx, c, dim, top, MaskValue(ctx), n - 1);
    }
  }

  /** Unselected vectors start at half the greatest distance: of a `uint32_t`, or of a float, rounded
      down in the unit of Distances. */
  lemma MaskIsHalf(ctx: Context)
    ensures ctx.quant.U8? ==> MaskValue(ctx) == 2147483647
    ensures ctx.quant.F32? ==> MaskValue(ctx) as real <= FLT_MAX / 2.0 * ctx.scaleSquared < MaskValue(ctx) as real + 1.0
  {
  }

  /** After `i` groups of dimensions the warmup goes on exactly if vertical dimensions are left and fewer
      than four fifths of the vectors would be dropped. */
  lemma WarmupGoesOn(k: nat, t: Task, h: Heap, t': Task, h': Heap, out: Heap, c: Cluster, i: nat) returns (top: real)
    requires ValidTask(t) && TaskStep(k, t, h, t', h', out) && t.work == Warming(c, i)
    ensures exists x :: x in h && x.distance == top
    ensures forall x :: x in h ==> x.distance <= top
    ensures var dim := FetchStop(t.ctx.V, i);
            && Fits(t.ctx, c)
            && var n := |Prunable(t.ctx, c, dim, top, MaskValue(t.ctx), |c.vecs|)|;
               t'.work == if dim < t.ctx.V && 5 * n < 4 * |c.vecs| then Warming(c, i + 1)
                          else Reading(c, dim, 0, Selected(c))
  {
    top := TopDistance(h);
    var x :| IsTop(h, x) && x.distance == top;
    assert x in h;
    PrunableCounts(t.ctx, c, FetchStop(t.ctx.V, i), top, |c.vecs|);
  }

  ghost function SelectedSet(c: Cluster, n: nat): set<nat>
    requires n <= |c.sel|
  {
    set p: nat | p < n && c.sel[p]
  }

  lemma {:induction false} SelectedAreCounted(c: Cluster, n: nat)
    requires n <= |c.sel|
    ensures |SelectedBelow(c, n)| == |SelectedSet(c, n)|
    decreases n
  {
    if n > 0 {
      SelectedAreCounted(c, n - 1);
      assert SelectedSet(c, n) == if c.sel[n - 1] then SelectedSet(c, n - 1) + {n - 1} else SelectedSet(c, n - 1);
    }
  }

  /** A cluster taken up is skipped if nothing is selected, judged at once if fewer than a fifth are, and
      else warmed up. */
  lemma TakesUpNext(k: nat, t: Task, h: Heap, t': Task, h': Heap, out: Heap)
    requires ValidTask(t) && TaskStep(k, t, h, t', h', out) && t.work.Idle?
    ensures t.queue != [] && t'.queue == t.queue[1..] && h' == h
    ensures var c := t.queue[0];
            var n := |SelectedSet(c, |c.sel|)|;
            t'.work == if n == 0 then Idle
                       else if 5 * n < |c.vecs| then Reading(c, 0, 0, Selected(c))
                       else Warming(c, 1)
  {
    SelectedAreCounted(t.queue[0], |t.queue[0].sel|);
  }

  /** The survivors of a judgement go on to the next horizontal block, then to the next 64 vertical
      dimensions, and are merged after the last one. */
  lemma SurvivorsGoOn(k: nat, t: Task, h: Heap, t': Task, h': Heap, out: Heap, c: Cluster, v: nat, b: nat,
                      alive: seq<nat>, top: real)
    requires ValidTask(t) && TaskStep(k, t, h, t', h', out) && t.work == Judging(c, v, b, alive, top)
    ensures h' == h && t'.queue == t.queue
    ensures InPlay(t'.work) == [] ==> t'.work == Idle
    ensures var left := InPlay(t'.work);
            left != [] ==>
              t'.work == if b < t.ctx.H then Reading(c, v, b + 64, left)
                         else if v < t.ctx.V then Reading(c, if v + 64 < t.ctx.V then v + 64 else t.ctx.V, b, left)
                         else Merging(c, left)
  {
  }

  // ---------------------------------------------------------------- published distances

  lemma ThreeRoundings()
    ensures Rounded(16777217.0) == 16777216.0 && Rounded(16777219.0) == 16777220.0
    ensures Rounded(50331657.0) == 50331656.0 && Rounded(50331660.0) == 50331660.0
  {
    RoundedFrom(8388608, 0.5, 1);
    RoundedFrom(8388608, 1.5, 1);
    RoundedFrom(12582914, 0.25, 2);
    RoundedFrom(12582914, 1.0, 2);
    assert Doubled(8388608.5, 1) == 16777217.0 && Doubled(8388609.5, 1) == 16777219.0;
    DoubledTwice(12582914.25);
    DoubledTwice(12582914.0);
    DoubledTwice(12582915.0);
  }

  lemma DoubledTwice(x: real)
    ensures Doubled(x, 2) == 4.0 * x
  {
    assert Doubled(x, 1) == 2.0 * x;
  }

  lemma RoundedFrom(m: nat, x: real, k: nat)
    requires m % 2 == 0 && 8388608 <= m < 16777214 && 0.0 <= x < 2.0
    ensures Rounded(Doubled(m as real + x, k)) == Doubled((m + NearestEven(x)) as real, k)
  {
    var y := m as real + x;
    RoundedMantissa(y);
    NearestEvenShifted(m, x);
    RoundedOfDoubled(y, k);
  }

  /** A stored distance is rounded when it is converted to a float and again when it is scaled: 16777217
      is published as 16777216, and 16777219 at 3.0 not as the float nearest to the product. */
  lemma PublishedIsRoundedTwice()
    ensures PublishedInFloats(16777217, 1.0) == 16777216.0
    ensures PublishedInFloats(16777219, 3.0) == 50331660.0 && Rounded(16777219.0 * 3.0) == 50331656.0
  {
    ThreeRoundings();
    SmallWholeIsFloat(16777216);
    assert (16777217 as int) as real == 16777217.0 && (16777219 as int) as real == 16777219.0;
    assert (16777216 as int) as real == 16777216.0;
    FloatProductIs(16777216.0, 1.0, 16777216.0);
    FloatProductIs(16777220.0, 3.0, 50331660.0);
    assert 16777219.0 * 3.0 == 50331657.0;
  }
}
