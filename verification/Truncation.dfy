/** The two constants a U8 row group stores decide exactness: row groups are always searched exactly
    if and only if the constants preserve the distances they publish. */
module Truncation {
  import opened Common
  import opened Distances
  import opened KnnHeap
  import opened Reals
  import opened Rounding
  import opened SearchMachine
  import opened Interleaving
  import opened Exactness
  import opened ByteHeadroom
  import opened Schedules

  /** Lossless U8 row groups with the given stored constants. */
  ghost predicate HaveScales(tasks: seq<Task>, dims: nat, scales: seq<Scale>) {
    AreBytes(dims, tasks) && LosslessTasks(tasks) && ScalesOf(tasks) == scales
  }

  /** Every search of such row groups, on every data set, query and schedule, ends with a k-nearest
      set. */
  ghost predicate AlwaysExact(dims: nat, scales: seq<Scale>) {
    forall k: nat, run: seq<State> | CompleteRun(k, run) && HaveScales(run[0].tasks, dims, scales) ::
      NearestUpTo(k, Kept(run[|run| - 1].heap), HeldBy(run[0].tasks), 0.0)
  }

  ghost predicate AllSensible(dims: nat, scales: seq<Scale>) {
    1 <= dims <= PDX_MAX_DIMS && forall t :: 0 <= t < |scales| ==> Sensible(scales[t])
  }

  /** Sufficiency, for any number of row groups. */
  lemma CompatibleIsExact(dims: nat, scales: seq<Scale>)
    requires Compatible(dims, scales)
    ensures AlwaysExact(dims, scales)
  {
    forall k: nat, run: seq<State> | CompleteRun(k, run) && HaveScales(run[0].tasks, dims, scales)
      ensures NearestUpTo(k, Kept(run[|run| - 1].heap), HeldBy(run[0].tasks), 0.0)
    {
      ParallelSearchIsExact(k, run);
    }
  }

  // ---------------------------------------------------------------- vectors at given distances

  function Zeros(n: nat): (q: seq<int>)
    ensures |q| == n && forall i :: 0 <= i < n ==> q[i] == 0
  {
    seq(n, i => 0)
  }

  function Differences(q: seq<int>, x: seq<int>): (y: seq<int>)
    requires |q| == |x|
    ensures |y| == |q| && forall i :: 0 <= i < |q| ==> y[i] == if q[i] >= x[i] then q[i] - x[i] else x[i] - q[i]
  {
    seq(|q|, i requires 0 <= i < |q| => if q[i] >= x[i] then q[i] - x[i] else x[i] - q[i])
  }

  lemma {:induction false} SameDistance(q: seq<int>, x: seq<int>, n: nat)
    requires n <= |q| == |x|
    ensures SqDist(Zeros(|q|), Differences(q, x), 0, n) == SqDist(q, x, 0, n)
  {
    if n > 0 {
      SameDistance(q, x, n - 1);
      SquareOfDifference(q[n - 1], x[n - 1], Differences(q, x)[n - 1]);
    }
  }

  lemma SquareOfDifference(a: int, b: int, c: int)
    requires c == a - b || c == b - a
    ensures Sq(0 - c) == Sq(a - b)
  {
  }

  /** A vector at distance `d` of the origin. */
  lemma VectorAtDistance(dims: nat, d: nat) returns (y: seq<int>)
    requires ByteDistance(dims, d)
    ensures |y| == dims && SqDist(Zeros(dims), y, 0, dims) == d
  {
    var q, x :| IsByteDistance(q, x, dims, d);
    y := Differences(q, x);
    SameDistance(q, x, dims);
  }

  // ---------------------------------------------------------------- the search of two vectors

  predicate ValidScale(quant: Quantization, scale: Scale) {
    && scale.squared > 0.0 && scale.inverse > 0.0
    && (quant.F32? ==> AreUnits(scale.squared, scale.inverse))
  }

  predicate ValidPruner(dims: nat, ratios: seq<real>) {
    1 <= dims <= PDX_MAX_DIMS && |ratios| == dims
  }

  /** A context with the split of the index, the query at the origin and the given pruner. */
  function Plain(quant: Quantization, dims: nat, scale: Scale, ratios: seq<real>): (ctx: Context)
    requires ValidPruner(dims, ratios) && ValidScale(quant, scale)
    ensures ctx.D == dims && ctx.quant == quant && ctx.query == Zeros(dims) && ScaleOf(ctx) == scale
    ensures GetDimensionSplit(dims) == DimensionSplit(ctx.H, ctx.V) && ctx.ratios == ratios
  {
    SplitIsSound(dims);
    var split := GetDimensionSplit(dims);
    Context(dims, split.vertical, split.horizontal, Zeros(dims), quant, scale.squared, scale.inverse, ratios)
  }

  predicate AllLarge(ratios: seq<real>) {
    forall dim :: 0 <= dim < |ratios| ==> ratios[dim] * 16384.0 >= 1.0
  }

  lemma PlainIsLarge(quant: Quantization, dims: nat, scale: Scale, ratios: seq<real>)
    requires ValidPruner(dims, ratios) && ValidScale(quant, scale) && AllLarge(ratios)
    ensures RatiosAreLarge(Plain(quant, dims, scale, ratios))
  {
  }

  /** The ratios of a pruner that never lowers a threshold. */
  function Ones(dims: nat): (ratios: seq<real>)
    ensures |ratios| == dims && AllLarge(ratios)
  {
    seq(dims, i => 1.0)
  }

  /** The vector `y` as a cluster of its own. */
  lemma PlainCluster(dims: nat, scale: Scale, ratios: seq<real>, id: nat, y: seq<int>, d: nat)
    requires ValidPruner(dims, ratios) && AllLarge(ratios) && Sensible(scale) && ByteDistance(dims, d)
    requires |y| == dims && SqDist(Zeros(dims), y, 0, dims) == d
    ensures var ctx, c := Plain(U8, dims, scale, ratios), One(id, y);
            && Fits(ctx, c) && Roomy(ctx, c) && Selected(c) == [0]
            && Candidates(ctx, c, [0]) == multiset{Candidate(id, PublishedInFloats(d, scale.inverse))}
            && PublishedInFloats(d, scale.inverse) < FLT_MAX
  {
    var ctx := Plain(U8, dims, scale, ratios);
    PlainIsLarge(U8, dims, scale, ratios);
    assert Full(ctx, y) == d;
    ByteHasHeadroom(ctx, y);
    OneFacts(ctx, id, y);
  }

  /** A vector that no task lets through while `a` is in the heap. */
  ghost predicate DoomedWork(c: Cluster, a: Candidate, w: Work) {
    match w
    case Idle => true
    case Warming(c', _) => c' == c
    case Reading(c', _, _, alive) => c' == c && alive == [0]
    case Judging(c', _, _, alive, top) => c' == c && alive == [0] && top == a.distance
    case Merging(_, _) => false
  }

  ghost predicate Doomed(ctx: Context, c: Cluster, a: Candidate, t: Task, h: Heap) {
    && h == multiset{a} && t.ctx == ctx
    && ((t.queue == [c] && t.work.Idle?) || (t.queue == [] && DoomedWork(c, a, t.work)))
  }

  lemma SieveOfOne(ctx: Context, c: Cluster, v: nat, h: nat, top: real)
    requires Fits(ctx, c) && v <= ctx.V && h <= ctx.H && |c.vecs| > 0
    ensures Sieve(ctx, c, v, h, top, [0], true) == if Survives(ctx, c, v, h, top, 0) then [0] else []
  {
    assert [0 as nat][..0] == [];
  }

  lemma DoomedStep(ctx: Context, c: Cluster, a: Candidate, t: Task, h: Heap, t': Task, h': Heap, out: Heap)
    requires Fits(ctx, c) && Selected(c) == [0] && |c.vecs| == 1
    requires !Survives(ctx, c, ctx.V, ctx.H, a.distance, 0)
    requires ValidTask(t) && Doomed(ctx, c, a, t, h) && TaskStep(1, t, h, t', h', out)
    ensures Doomed(ctx, c, a, t', h')
  {
    TopOfOne(a);
    if t.work.Idle? {
      DoomedBegins(ctx, c, a, t, h, t', h', out);
    } else if t.work.Judging? {
      DoomedJudged(ctx, c, a, t, h, t', h', out);
    }
  }

  lemma DoomedBegins(ctx: Context, c: Cluster, a: Candidate, t: Task, h: Heap, t': Task, h': Heap, out: Heap)
    requires Fits(ctx, c) && Selected(c) == [0] && |c.vecs| == 1
    requires ValidTask(t) && Doomed(ctx, c, a, t, h) && TaskStep(1, t, h, t', h', out) && t.work.Idle?
    ensures Doomed(ctx, c, a, t', h')
  {
    assert t.queue == [c] && [c][1..] == [];
  }

  lemma DoomedJudged(ctx: Context, c: Cluster, a: Candidate, t: Task, h: Heap, t': Task, h': Heap, out: Heap)
    requires Fits(ctx, c) && Selected(c) == [0] && |c.vecs| == 1
    requires !Survives(ctx, c, ctx.V, ctx.H, a.distance, 0)
    requires ValidTask(t) && Doomed(ctx, c, a, t, h) && TaskStep(1, t, h, t', h', out) && t.work.Judging?
    ensures Doomed(ctx, c, a, t', h')
  {
    match t.work
    case Judging(_, v, b, _, top) => SieveOfOne(ctx, c, v, b, top);
  }

  lemma StaysDoomed(ctx: Context, c: Cluster, a: Candidate)
    requires Fits(ctx, c) && Selected(c) == [0] && |c.vecs| == 1
    requires !Survives(ctx, c, ctx.V, ctx.H, a.distance, 0)
    ensures KeptByAllSteps(1, (t: Task, h: Heap) => Doomed(ctx, c, a, t, h))
  {
    var keep := (t: Task, h: Heap) => Doomed(ctx, c, a, t, h);
    forall t, h, t', h', out | ValidTask(t) && keep(t, h) && TaskStep(1, t, h, t', h', out) ensures keep(t', h') {
      DoomedStep(ctx, c, a, t, h, t', h', out);
    }
  }

  ghost predicate ValidScales(quant: Quantization, scales: seq<Scale>) {
    forall t :: 0 <= t < |scales| ==> ValidScale(quant, scales[t])
  }

  /** The row groups with these constants, of which `j` holds `first` and `i` holds `second`. */
  ghost function PairOf(quant: Quantization, dims: nat, scales: seq<Scale>, ratios: seq<real>, j: nat, first: Cluster,
                        i: nat, second: Cluster): (tasks: seq<Task>)
    requires ValidPruner(dims, ratios) && ValidScales(quant, scales)
    ensures |tasks| == |scales|
  {
    seq(|scales|, t requires 0 <= t < |scales| =>
      Task(Plain(quant, dims, scales[t], ratios),
           (if t == j then [first] else []) + (if t == i then [second] else []), Idle))
  }

  lemma RoomyQueue(ctx: Context, queue: seq<Cluster>)
    requires forall i :: 0 <= i < |queue| ==> Fits(ctx, queue[i]) && Roomy(ctx, queue[i])
    ensures ValidTask(Task(ctx, queue, Idle)) && RoomyTask(Task(ctx, queue, Idle))
  {
  }

  lemma PairIsInitial(quant: Quantization, dims: nat, scales: seq<Scale>, ratios: seq<real>, j: nat, first: Cluster,
                      i: nat, second: Cluster)
    requires ValidPruner(dims, ratios) && ValidScales(quant, scales) && j < |scales| && i < |scales|
    requires Fits(Plain(quant, dims, scales[j], ratios), first) && Roomy(Plain(quant, dims, scales[j], ratios), first)
    requires Fits(Plain(quant, dims, scales[i], ratios), second) && Roomy(Plain(quant, dims, scales[i], ratios), second)
    ensures var tasks := PairOf(quant, dims, scales, ratios, j, first, i, second);
            Pair(tasks, j, first, i, second) && Initial(1, StartOf(tasks)) && ScalesOf(tasks) == scales
  {
    var tasks := PairOf(quant, dims, scales, ratios, j, first, i, second);
    forall t | 0 <= t < |tasks| ensures ValidTask(tasks[t]) && RoomyTask(tasks[t]) {
      RoomyQueue(tasks[t].ctx, tasks[t].queue);
    }
    assert ScalesOf(tasks) == scales;
  }

  /** The distances `n` of one row group and `d` of another: the first, published, is cut down to at
      most `d` in the units of the other, where `d` is published as a smaller one. */
  ghost predicate Breaks(dims: nat, scales: seq<Scale>, i: nat, j: nat, n: nat, d: nat) {
    && i < |scales| && j < |scales| && ByteDistance(dims, n) && ByteDistance(dims, d)
    && WholeUnits(PublishedInFloats(n, scales[j].inverse), scales[i]) <= d as real
    && PublishedInFloats(d, scales[i].inverse) < PublishedInFloats(n, scales[j].inverse)
  }

  lemma LastThreshold(ctx: Context, top: real)
    requires ctx.quant.U8? && top >= 0.0 && IsFloat(top)
    ensures Threshold(ctx, top, ctx.V + ctx.H) == WholeUnits(top, ScaleOf(ctx))
  {
    FloatProductIs(top, 1.0, top);
  }

  lemma NotSurviving(dims: nat, scale: Scale, ratios: seq<real>, y: seq<int>, d: nat, top: real)
    requires ValidPruner(dims, ratios) && ValidScale(U8, scale)
    requires |y| == dims && SqDist(Zeros(dims), y, 0, dims) == d
    requires IsFloat(top) && WholeUnits(top, scale) <= d as real
    ensures var ctx := Plain(U8, dims, scale, ratios); !Survives(ctx, One(2, y), ctx.V, ctx.H, top, 0)
  {
    var ctx := Plain(U8, dims, scale, ratios);
    PartialBelowFull(ctx, y, ctx.V, ctx.H);
    LastThreshold(ctx, top);
  }

  /** A search with these row groups and this pruner that loses the nearer of two vectors. */
  ghost predicate Loses(run: seq<State>, quant: Quantization, dims: nat, scales: seq<Scale>, ratios: seq<real>) {
    && |run| > 0 && CompleteRun(1, run) && HavePruner(run[0].tasks, quant, dims, ratios)
    && ScalesOf(run[0].tasks) == scales
    && !NearestUpTo(1, Kept(run[|run| - 1].heap), HeldBy(run[0].tasks), 0.0)
  }

  /** The row groups are split like the index and share a pruner. */
  ghost predicate HavePruner(tasks: seq<Task>, quant: Quantization, dims: nat, ratios: seq<real>) {
    forall t :: 0 <= t < |tasks| ==> IsPruner(tasks[t].ctx, quant, dims, ratios)
  }

  predicate IsPruner(ctx: Context, quant: Quantization, dims: nat, ratios: seq<real>) {
    && ctx.quant == quant && ctx.D == dims && GetDimensionSplit(dims) == DimensionSplit(ctx.H, ctx.V)
    && ctx.ratios == ratios
  }

  /** A cluster that can be searched and holds one candidate. */
  ghost predicate Holds(ctx: Context, c: Cluster, x: Candidate) {
    Fits(ctx, c) && Roomy(ctx, c) && Candidates(ctx, c, Selected(c)) == multiset{x}
  }

  /** Row group `j` searches `a`, then row group `i` the nearer `b`; a property of the second one's steps
      that keeps only `a` in the heap makes the search lose `b`. */
  lemma LoseSecond(quant: Quantization, dims: nat, scales: seq<Scale>, ratios: seq<real>, j: nat, first: Cluster,
                   i: nat, second: Cluster, a: Candidate, b: Candidate, keep: (Task, Heap) -> bool)
      returns (run: seq<State>)
    requires ValidPruner(dims, ratios) && ValidScales(quant, scales) && j < |scales| && i < |scales|
    requires Holds(Plain(quant, dims, scales[j], ratios), first, a)
    requires Holds(Plain(quant, dims, scales[i], ratios), second, b)
    requires b.distance < a.distance < FLT_MAX
    requires var ctx := Plain(quant, dims, scales[i], ratios);
             && KeptByAllSteps(1, keep) && keep(Task(ctx, [second], Idle), multiset{a})
             && forall h :: keep(Task(ctx, [], Idle), h) ==> h == multiset{a}
    ensures Loses(run, quant, dims, scales, ratios)
  {
    var tasks := PairOf(quant, dims, scales, ratios, j, first, i, second);
    PairIsInitial(quant, dims, scales, ratios, j, first, i, second);
    run := PairRun(tasks, j, first, i, second, a, keep);
    SecondIsHeld(tasks, j, first, i, second, b);
    NearerIsLost(a, b, HeldBy(tasks));
  }

  /** Necessity: from such distances, a search that loses the nearer of two vectors, whatever the pruner. */
  lemma BrokenIsLossy(dims: nat, scales: seq<Scale>, ratios: seq<real>, i: nat, j: nat, n: nat, d: nat)
      returns (run: seq<State>)
    requires AllSensible(dims, scales) && Breaks(dims, scales, i, j, n, d)
    requires ValidPruner(dims, ratios) && AllLarge(ratios)
    ensures Loses(run, U8, dims, scales, ratios)
  {
    var far := VectorAtDistance(dims, n);
    var near := VectorAtDistance(dims, d);
    var first, second := One(1, far), One(2, near);
    var a := Candidate(1, PublishedInFloats(n, scales[j].inverse));
    var b := Candidate(2, PublishedInFloats(d, scales[i].inverse));
    PlainCluster(dims, scales[j], ratios, 1, far, n);
    PlainCluster(dims, scales[i], ratios, 2, near, d);
    var ctx := Plain(U8, dims, scales[i], ratios);
    FloatsAreSmall(n, scales[j].inverse);
    NotSurviving(dims, scales[i], ratios, near, d, a.distance);
    StaysDoomed(ctx, second, a);
    run := LoseSecond(U8, dims, scales, ratios, j, first, i, second, a, b,
                      (t: Task, h: Heap) => Doomed(ctx, second, a, t, h));
  }

  lemma FloatsAreSmall(n: nat, inverse: real)
    requires inverse > 0.0
    ensures PublishedInFloats(n, inverse) >= 0.0 && IsFloat(PublishedInFloats(n, inverse))
  {
    RoundedIsMonotone(0.0, n as real);
    PublishedInFloatsIsMonotone(0, n, inverse);
    FloatProductIsFloat(Rounded(n as real), inverse);
  }

  lemma BrokenPair(dims: nat, scales: seq<Scale>) returns (i: nat, j: nat, n: nat, d: nat)
    requires !Compatible(dims, scales)
    ensures Breaks(dims, scales, i, j, n, d)
  {
    i, j, n :| 0 <= i < |scales| && 0 <= j < |scales| && ByteDistance(dims, n)
               && !Preserves(dims, scales[i], PublishedInFloats(n, scales[j].inverse));
    d :| ByteDistance(dims, d)
         && WholeUnits(PublishedInFloats(n, scales[j].inverse), scales[i]) <= d as real
         && PublishedInFloats(d, scales[i].inverse) < PublishedInFloats(n, scales[j].inverse);
  }

  /** Any number of U8 row groups, a single one included, is searched exactly on all data, for all
      queries and under all schedules if and only if their stored constants are compatible. */
  lemma ScalesDecideExactness(dims: nat, scales: seq<Scale>)
    requires AllSensible(dims, scales)
    ensures AlwaysExact(dims, scales) <==> Compatible(dims, scales)
  {
    if Compatible(dims, scales) {
      CompatibleIsExact(dims, scales);
    } else {
      var i, j, n, d := BrokenPair(dims, scales);
      var run := BrokenIsLossy(dims, scales, Ones(dims), i, j, n, d);
      OnesLose(run, dims, scales);
    }
  }

  lemma OnesLose(run: seq<State>, dims: nat, scales: seq<Scale>)
    requires Loses(run, U8, dims, scales, Ones(dims))
    ensures HaveScales(run[0].tasks, dims, scales)
  {
  }
}
