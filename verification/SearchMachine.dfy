/** The pruned search of one row group as a machine whose steps are cut at the points where the
    code holds the heap mutex: a threshold read, or one push of the merge loop. Everything between
    two such points is local to the task, so interleaving these steps covers every execution. */
module SearchMachine {
  import opened Common
  import opened Distances
  import opened KnnHeap
  import opened Reals
  import opened Rounding

  // ---------------------------------------------------------------- contexts and clusters

  /** What a row group fixes for one query: the dimension split, the prepared query, two stored
      constants and the pruner's ratios. For U8 the constants are the squared quantization scale and
      its inverse as they are stored, two floats whose product need not be 1; for F32 they convert
      from and to the unit of Distances. */
  datatype RawContext = Context(D: nat, V: nat, H: nat, query: seq<int>, quant: Quantization,
                                scaleSquared: real, inverseScaleSquared: real, ratios: seq<real>)

  predicate ValidContext(ctx: RawContext) {
    && ctx.V + ctx.H == ctx.D <= PDX_MAX_DIMS
    && 1 <= ctx.V && ctx.H % H_DIM_SIZE == 0
    && |ctx.query| == ctx.D == |ctx.ratios|
    && ctx.scaleSquared > 0.0 && ctx.inverseScaleSquared > 0.0
    && (ctx.quant.F32? ==> AreUnits(ctx.scaleSquared, ctx.inverseScaleSquared))
  }

  predicate AreUnits(unit: real, inverse: real) {
    unit * inverse == 1.0
  }

  type Context = ctx: RawContext | ValidContext(ctx)
    witness Context(1, 1, 0, [0], U8, 1.0, 1.0, [1.0])

  /** A cluster: row ids, coordinates and whether the row passed the filter (always, without one). */
  datatype RawCluster = Cluster(ids: seq<nat>, vecs: seq<seq<int>>, sel: seq<bool>)

  type Cluster = c: RawCluster | |c.ids| == |c.vecs| == |c.sel| witness Cluster([], [], [])

  predicate Fits(ctx: Context, c: Cluster) {
    forall p :: 0 <= p < |c.vecs| ==> |c.vecs[p]| == ctx.D
  }

  /** The distance once the vertical dimensions below `v` and the first `h` horizontal dimensions
      have been visited. */
  function Partial(ctx: Context, x: seq<int>, v: nat, h: nat): nat
    requires |x| == ctx.D && v <= ctx.V && h <= ctx.H
  {
    SqDist(ctx.query, x, 0, v) + SqDist(ctx.query, x, ctx.V, ctx.V + h)
  }

  function Full(ctx: Context, x: seq<int>): nat
    requires |x| == ctx.D
  {
    SqDist(ctx.query, x, 0, ctx.D)
  }

  lemma PartialBelowFull(ctx: Context, x: seq<int>, v: nat, h: nat)
    requires |x| == ctx.D && v <= ctx.V && h <= ctx.H
    ensures Partial(ctx, x, v, h) <= Full(ctx, x)
    ensures v == ctx.V && h == ctx.H ==> Partial(ctx, x, v, h) == Full(ctx, x)
  {
    SqDistSplit(ctx.query, x, 0, ctx.V, ctx.D);
    SqDistSplit(ctx.query, x, 0, v, ctx.V);
    SqDistSplit(ctx.query, x, ctx.V, ctx.V + h, ctx.D);
  }

  // ---------------------------------------------------------------- thresholds

  function Ratio(ctx: Context, dim: nat): real
    requires dim <= ctx.D
  {
    if dim == ctx.D then 1.0 else ctx.ratios[dim]
  }

  /** A U8 threshold saturates and is truncated to a `uint32_t`; the limit of that type, as a
      single-precision number, is 2^32. */
  function ToUint32(x: real): real {
    if x >= UINT32_RANGE as real then UINT32_MAX as real else x.Floor as real
  }

  function Scaled(top: real, ratio: real, scale: real): real {
    top * ratio * scale
  }

  /** The same in single precision, a product at a time. */
  function ScaledInFloats(top: real, ratio: real, scale: real): real {
    FloatProduct(FloatProduct(top, ratio), scale)
  }

  /** The pruning threshold in units of the stored distances. */
  function Threshold(ctx: Context, top: real, dim: nat): real
    requires dim <= ctx.D
  {
    if ctx.quant.F32? then Scaled(top, Ratio(ctx, dim), ctx.scaleSquared)
    else ToUint32(ScaledInFloats(top, Ratio(ctx, dim), ctx.scaleSquared))
  }

  /** A stored distance of a U8 row group as a float in the units of the heap. */
  function PublishedInFloats(d: nat, inverse: real): real {
    FloatProduct(Rounded(d as real), inverse)
  }

  /** A stored distance in the units of the heap. */
  function Published(ctx: Context, d: nat): real {
    if ctx.quant.F32? then d as real * ctx.inverseScaleSquared
    else PublishedInFloats(d, ctx.inverseScaleSquared)
  }

  lemma PublishedIsMonotone(ctx: Context, d: nat, e: nat)
    requires d <= e
    ensures 0.0 <= Published(ctx, d) <= Published(ctx, e)
  {
    TimesMonotone(0.0, d as real, ctx.inverseScaleSquared);
    TimesMonotone(d as real, e as real, ctx.inverseScaleSquared);
    if ctx.quant.U8? {
      PublishedInFloatsIsMonotone(d, e, ctx.inverseScaleSquared);
    }
  }

  lemma PublishedInFloatsIsMonotone(d: nat, e: nat, inverse: real)
    requires d <= e && inverse > 0.0
    ensures 0.0 <= PublishedInFloats(d, inverse) <= PublishedInFloats(e, inverse)
  {
    var x, y := Rounded(d as real), Rounded(e as real);
    RoundedIsMonotone(d as real, e as real);
    FloatProductIsMonotone(x, y, inverse);
  }

  function CandidateAt(ctx: Context, c: Cluster, p: nat): Candidate
    requires Fits(ctx, c) && p < |c.vecs|
  {
    Candidate(c.ids[p], Published(ctx, Full(ctx, c.vecs[p])))
  }

  // ---------------------------------------------------------------- positions

  predicate ValidAlive(c: Cluster, alive: seq<nat>) {
    forall i :: 0 <= i < |alive| ==> alive[i] < |c.vecs|
  }

  /** The selected positions below `n`, in order. */
  function SelectedBelow(c: Cluster, n: nat): (r: seq<nat>)
    requires n <= |c.sel|
    ensures forall i :: 0 <= i < |r| ==> r[i] < n && c.sel[r[i]]
    ensures |r| <= n
  {
    if n == 0 then []
    else if c.sel[n - 1] then SelectedBelow(c, n - 1) + [n - 1]
    else SelectedBelow(c, n - 1)
  }

  function Selected(c: Cluster): (r: seq<nat>)
    ensures ValidAlive(c, r)
  {
    SelectedBelow(c, |c.sel|)
  }

  predicate Survives(ctx: Context, c: Cluster, v: nat, h: nat, top: real, p: nat)
    requires Fits(ctx, c) && v <= ctx.V && h <= ctx.H && p < |c.vecs|
  {
    Partial(ctx, c.vecs[p], v, h) as real < Threshold(ctx, top, v + h)
  }

  /** The positions that stay (`keep`) or go (`!keep`) at a checkpoint, in order. */
  function Sieve(ctx: Context, c: Cluster, v: nat, h: nat, top: real, alive: seq<nat>, keep: bool): (r: seq<nat>)
    requires Fits(ctx, c) && v <= ctx.V && h <= ctx.H && ValidAlive(c, alive)
    ensures ValidAlive(c, r) && |r| <= |alive|
    ensures forall i :: 0 <= i < |r| ==> r[i] in alive && Survives(ctx, c, v, h, top, r[i]) == keep
  {
    if alive == [] then []
    else
      var last := alive[|alive| - 1];
      var before := Sieve(ctx, c, v, h, top, alive[..|alive| - 1], keep);
      if Survives(ctx, c, v, h, top, last) == keep then before + [last] else before
  }

  function Candidates(ctx: Context, c: Cluster, alive: seq<nat>): Heap
    requires Fits(ctx, c) && ValidAlive(c, alive)
  {
    if alive == [] then multiset{}
    else Candidates(ctx, c, alive[..|alive| - 1]) + multiset{CandidateAt(ctx, c, alive[|alive| - 1])}
  }

  lemma CandidatesOfOneMore(ctx: Context, c: Cluster, alive: seq<nat>, p: nat)
    requires Fits(ctx, c) && ValidAlive(c, alive) && p < |c.vecs|
    ensures Candidates(ctx, c, alive + [p]) == Candidates(ctx, c, alive) + multiset{CandidateAt(ctx, c, p)}
  {
    assert (alive + [p])[..|alive|] == alive;
  }

  lemma {:induction false} SieveSplits(ctx: Context, c: Cluster, v: nat, h: nat, top: real, alive: seq<nat>)
    requires Fits(ctx, c) && v <= ctx.V && h <= ctx.H && ValidAlive(c, alive)
    ensures Candidates(ctx, c, alive) == Candidates(ctx, c, Sieve(ctx, c, v, h, top, alive, true))
                                         + Candidates(ctx, c, Sieve(ctx, c, v, h, top, alive, false))
    decreases |alive|
  {
    if alive != [] {
      var init, last := alive[..|alive| - 1], alive[|alive| - 1];
      SieveSplits(ctx, c, v, h, top, init);
      var keep := Survives(ctx, c, v, h, top, last);
      var side, other := Sieve(ctx, c, v, h, top, init, keep), Sieve(ctx, c, v, h, top, init, !keep);
      CandidatesOfOneMore(ctx, c, side, last);
      assert Sieve(ctx, c, v, h, top, alive, keep) == side + [last];
      assert Sieve(ctx, c, v, h, top, alive, !keep) == other;
      AddOnOneSide(Candidates(ctx, c, init), Candidates(ctx, c, side), Candidates(ctx, c, other),
                   multiset{CandidateAt(ctx, c, last)});
    }
  }

  lemma AddOnOneSide(all: Heap, side: Heap, other: Heap, x: Heap)
    requires all == side + other
    ensures all + x == (side + x) + other && all + x == other + (side + x)
  {
  }

  lemma {:induction false} CandidatesFirst(ctx: Context, c: Cluster, alive: seq<nat>)
    requires Fits(ctx, c) && ValidAlive(c, alive) && alive != []
    ensures Candidates(ctx, c, alive) == multiset{CandidateAt(ctx, c, alive[0])} + Candidates(ctx, c, alive[1..])
    decreases |alive|
  {
    if |alive| == 1 {
      assert alive[..0] == [] && alive[1..] == [];
    } else {
      CandidatesFirst(ctx, c, alive[..|alive| - 1]);
      assert alive[..|alive| - 1][1..] == alive[1..][..|alive| - 2];
      assert alive[1..][|alive| - 2] == alive[|alive| - 1];
    }
  }

  lemma {:induction false} CandidateIn(ctx: Context, c: Cluster, alive: seq<nat>, x: Candidate) returns (i: nat)
    requires Fits(ctx, c) && ValidAlive(c, alive) && x in Candidates(ctx, c, alive)
    ensures i < |alive| && x == CandidateAt(ctx, c, alive[i])
    decreases |alive|
  {
    var init := alive[..|alive| - 1];
    if x == CandidateAt(ctx, c, alive[|alive| - 1]) {
      i := |alive| - 1;
    } else {
      i := CandidateIn(ctx, c, init, x);
    }
  }

  // ---------------------------------------------------------------- one task

  /** Where a task is within its current cluster. `Warming(c, i)`: `i` groups of dimensions have
      been fetched and the threshold is read next. `Reading`: distances cover `v` and `h` and the
      threshold is read next. `Judging`: that read returned `top`, by now possibly stale. */
  datatype Work =
    | Idle
    | Warming(c: Cluster, i: nat)
    | Reading(c: Cluster, v: nat, h: nat, alive: seq<nat>)
    | Judging(c: Cluster, v: nat, h: nat, alive: seq<nat>, top: real)
    | Merging(c: Cluster, alive: seq<nat>)

  datatype Task = Task(ctx: Context, queue: seq<Cluster>, work: Work)

  /** The number of vectors (masked ones included) the warmup phase counts as prunable. */
  function PrunableBelow(ctx: Context, c: Cluster, dim: nat, top: real, n: nat): nat
    requires Fits(ctx, c) && dim <= ctx.V && n <= |c.vecs|
  {
    if n == 0 then 0
    else PrunableBelow(ctx, c, dim, top, n - 1) +
         (if WarmupDistance(ctx, c, dim, n - 1) as real >= Threshold(ctx, top, dim) then 1 else 0)
  }

  /** `numeric_limits<distance_t>::max() / 2`, the start value of a row that did not pass. */
  function MaskValue(ctx: Context): (r: nat) {
    if ctx.quant.U8? then UINT32_MAX / 2
    else
      assert FLT_MAX / 2.0 * ctx.scaleSquared >= 0.0;
      (FLT_MAX / 2.0 * ctx.scaleSquared).Floor
  }

  function WarmupDistance(ctx: Context, c: Cluster, dim: nat, p: nat): nat
    requires Fits(ctx, c) && dim <= ctx.V && p < |c.vecs|
  {
    (if c.sel[p] then 0 else MaskValue(ctx)) + SqDist(ctx.query, c.vecs[p], 0, dim)
  }

  /** ceil(0.80 * n), in exact arithmetic. */
  function TuplesNeededToExit(n: nat): nat {
    (4 * n + 4) / 5
  }

  function Begin(c: Cluster): Work {
    var alive := Selected(c);
    if alive == [] then Idle
    else if 5 * |alive| < |c.sel| then Reading(c, 0, 0, alive)
    else Warming(c, 1)
  }

  function AfterWarming(ctx: Context, c: Cluster, i: nat, top: real): Work
    requires Fits(ctx, c) && i <= 20
  {
    var dim := FetchStop(ctx.V, i);
    if PrunableBelow(ctx, c, dim, top, |c.vecs|) < TuplesNeededToExit(|c.vecs|) && dim < ctx.V
    then Warming(c, i + 1)
    else Reading(c, dim, 0, Selected(c))
  }

  function AfterJudging(ctx: Context, c: Cluster, v: nat, h: nat, alive: seq<nat>): Work {
    if alive == [] then Idle
    else if h < ctx.H then Reading(c, v, h + H_DIM_SIZE, alive)
    else if v < ctx.V then Reading(c, Min(v + H_DIM_SIZE, ctx.V), h, alive)
    else Merging(c, alive)
  }

  /** The points at which a task may read a threshold while pruning. */
  ghost predicate IsCheckpoint(ctx: Context, v: nat, h: nat) {
    && v <= ctx.V && h <= ctx.H && h % H_DIM_SIZE == 0
    && exists i: nat, j: nat :: CheckpointFrom(ctx, v, h, i, j)
  }

  /** Warmup stopped after `i` groups and `j` further steps were made in the vertical part. */
  ghost predicate CheckpointFrom(ctx: Context, v: nat, h: nat, i: nat, j: nat) {
    i <= 20 && v == Min(FetchStop(ctx.V, i) + j * H_DIM_SIZE, ctx.V) && (j > 0 ==> h == ctx.H)
  }

  /** The distance of `x` stays below every threshold derived from the initialization element
      (true of any finite float below FLT_MAX times a positive ratio); a U8 distance is one that
      bytes can have. */
  ghost predicate Headroom(ctx: Context, x: seq<int>)
    requires |x| == ctx.D
  {
    && Published(ctx, Full(ctx, x)) < FLT_MAX
    && (ctx.quant.U8? ==> ByteDistance(ctx.D, Full(ctx, x)))
    && forall v: nat, h: nat :: IsCheckpoint(ctx, v, h) ==> Full(ctx, x) as real < Threshold(ctx, FLT_MAX, v + h)
  }

  ghost predicate Roomy(ctx: Context, c: Cluster)
    requires Fits(ctx, c)
  {
    forall p :: 0 <= p < |c.vecs| ==> Headroom(ctx, c.vecs[p])
  }

  ghost predicate ValidWork(ctx: Context, w: Work) {
    match w
    case Idle => true
    case Warming(c, i) => Fits(ctx, c) && 1 <= i <= 20 && Selected(c) != []
                          && FetchStop(ctx.V, i - 1) < ctx.V
    case Reading(c, v, h, alive) =>
      Fits(ctx, c) && ValidAlive(c, alive) && IsCheckpoint(ctx, v, h) && alive != []
    case Judging(c, v, h, alive, top) =>
      Fits(ctx, c) && ValidAlive(c, alive) && IsCheckpoint(ctx, v, h) && alive != []
    case Merging(c, alive) =>
      Fits(ctx, c) && ValidAlive(c, alive) && alive != []
  }

  ghost predicate ValidTask(t: Task) {
    (forall i :: 0 <= i < |t.queue| ==> Fits(t.ctx, t.queue[i])) && ValidWork(t.ctx, t.work)
  }

  /** The clusters a task still has to finish all have headroom. */
  ghost predicate RoomyTask(t: Task)
    requires ValidTask(t)
  {
    && (forall i :: 0 <= i < |t.queue| ==> Roomy(t.ctx, t.queue[i]))
    && (!t.work.Idle? ==> Roomy(t.ctx, t.work.c))
  }

  /** One step of a task; `out` is what it loses or what a push makes leave the heap. */
  ghost predicate TaskStep(k: nat, t: Task, h: Heap, t': Task, h': Heap, out: Heap)
    requires ValidTask(t)
  {
    match t.work
    case Idle =>
      && t.queue != [] && h' == h && out == multiset{}
      && t' == Task(t.ctx, t.queue[1..], Begin(t.queue[0]))
    case Warming(c, i) =>
      && |h| > 0 && h' == h && out == multiset{}
      && t' == t.(work := AfterWarming(t.ctx, c, i, TopDistance(h)))
    case Reading(c, v, hd, alive) =>
      && |h| > 0 && h' == h && out == multiset{}
      && t' == t.(work := Judging(c, v, hd, alive, TopDistance(h)))
    case Judging(c, v, hd, alive, top) =>
      && h' == h
      && out == Candidates(t.ctx, c, Sieve(t.ctx, c, v, hd, top, alive, false))
      && t' == t.(work := AfterJudging(t.ctx, c, v, hd, Sieve(t.ctx, c, v, hd, top, alive, true)))
    case Merging(c, alive) =>
      && Absorbed(k, h, CandidateAt(t.ctx, c, alive[0]), h', out)
      && t' == t.(work := if |alive| == 1 then Idle else Merging(c, alive[1..]))
  }

  lemma BeginIsValid(ctx: Context, c: Cluster)
    requires Fits(ctx, c)
    ensures ValidWork(ctx, Begin(c)) && (!Begin(c).Idle? ==> Begin(c).c == c)
  {
    assert CheckpointFrom(ctx, 0, 0, 0, 0);
  }

  lemma AfterWarmingIsValid(ctx: Context, c: Cluster, i: nat, top: real)
    requires ValidWork(ctx, Warming(c, i))
    ensures ValidWork(ctx, AfterWarming(ctx, c, i, top)) && AfterWarming(ctx, c, i, top).c == c
  {
    var dim := FetchStop(ctx.V, i);
    if dim < ctx.V {
      FetchingSizesSuffice(ctx.V, i);
    }
    assert CheckpointFrom(ctx, dim, 0, i, 0);
  }

  lemma AfterJudgingIsValid(ctx: Context, c: Cluster, v: nat, h: nat, rest: seq<nat>)
    requires Fits(ctx, c) && ValidAlive(c, rest) && IsCheckpoint(ctx, v, h)
    ensures var w := AfterJudging(ctx, c, v, h, rest); ValidWork(ctx, w) && (!w.Idle? ==> w.c == c)
  {
    NextCheckpoint(ctx, v, h);
  }

  lemma TaskStepKeepsValid(k: nat, t: Task, h: Heap, t': Task, h': Heap, out: Heap)
    requires ValidTask(t) && TaskStep(k, t, h, t', h', out)
    ensures ValidTask(t') && t'.ctx == t.ctx
    ensures RoomyTask(t) ==> RoomyTask(t')
  {
    match t.work
    case Idle =>
      BeginIsValid(t.ctx, t.queue[0]);
    case Warming(c, i) =>
      AfterWarmingIsValid(t.ctx, c, i, TopDistance(h));
    case Reading(c, v, hd, alive) =>
    case Judging(c, v, hd, alive, top) =>
      AfterJudgingIsValid(t.ctx, c, v, hd, Sieve(t.ctx, c, v, hd, top, alive, true));
    case Merging(c, alive) =>
  }

  lemma NextCheckpoint(ctx: Context, v: nat, h: nat)
    requires IsCheckpoint(ctx, v, h)
    ensures h < ctx.H ==> IsCheckpoint(ctx, v, h + H_DIM_SIZE)
    ensures h == ctx.H && v < ctx.V ==> IsCheckpoint(ctx, Min(v + H_DIM_SIZE, ctx.V), h)
  {
    var i: nat, j: nat :| CheckpointFrom(ctx, v, h, i, j);
    if h < ctx.H {
      assert CheckpointFrom(ctx, v, h + H_DIM_SIZE, i, j);
    } else if v < ctx.V {
      assert CheckpointFrom(ctx, Min(v + H_DIM_SIZE, ctx.V), h, i, j + 1);
    }
  }

  // ---------------------------------------------------------------- what a task still holds

  ghost function QueueCandidates(ctx: Context, queue: seq<Cluster>): Heap
    requires forall i :: 0 <= i < |queue| ==> Fits(ctx, queue[i])
  {
    if queue == [] then multiset{}
    else Candidates(ctx, queue[0], Selected(queue[0])) + QueueCandidates(ctx, queue[1..])
  }

  ghost function WorkCandidates(ctx: Context, w: Work): Heap
    requires ValidWork(ctx, w)
  {
    match w
    case Idle => multiset{}
    case Warming(c, _) => Candidates(ctx, c, Selected(c))
    case Reading(c, _, _, alive) => Candidates(ctx, c, alive)
    case Judging(c, _, _, alive, _) => Candidates(ctx, c, alive)
    case Merging(c, alive) => Candidates(ctx, c, alive)
  }

  ghost function Held(t: Task): Heap
    requires ValidTask(t)
  {
    QueueCandidates(t.ctx, t.queue) + WorkCandidates(t.ctx, t.work)
  }

  lemma PushConserves(k: nat, ctx: Context, c: Cluster, alive: seq<nat>, h: Heap, h': Heap, out: Heap)
    requires Fits(ctx, c) && ValidAlive(c, alive) && alive != []
    requires Absorbed(k, h, CandidateAt(ctx, c, alive[0]), h', out)
    ensures h + Candidates(ctx, c, alive) == h' + Candidates(ctx, c, alive[1..]) + out
  {
    CandidatesFirst(ctx, c, alive);
    AbsorbedConserves(k, h, CandidateAt(ctx, c, alive[0]), h', out);
    var x, rest := multiset{CandidateAt(ctx, c, alive[0])}, Candidates(ctx, c, alive[1..]);
    assert h + (x + rest) == (h + x) + rest;
  }

  lemma HeldAfterJudging(ctx: Context, c: Cluster, v: nat, h: nat, rest: seq<nat>)
    requires Fits(ctx, c) && ValidAlive(c, rest) && ValidWork(ctx, AfterJudging(ctx, c, v, h, rest))
    ensures WorkCandidates(ctx, AfterJudging(ctx, c, v, h, rest)) == Candidates(ctx, c, rest)
  {
  }

  /** Judging moves candidates from the task to what is lost. */
  lemma JudgeConserves(k: nat, t: Task, h: Heap, t': Task, h': Heap, out: Heap)
    requires ValidTask(t) && TaskStep(k, t, h, t', h', out) && ValidTask(t') && t.work.Judging?
    ensures h' == h && t'.queue == t.queue
    ensures WorkCandidates(t.ctx, t.work) == WorkCandidates(t'.ctx, t'.work) + out
  {
    var w := t.work;
    SieveSplits(t.ctx, w.c, w.v, w.h, w.top, w.alive);
    HeldAfterJudging(t.ctx, w.c, w.v, w.h, Sieve(t.ctx, w.c, w.v, w.h, w.top, w.alive, true));
  }

  lemma ReadConserves(k: nat, t: Task, h: Heap, t': Task, h': Heap, out: Heap)
    requires ValidTask(t) && TaskStep(k, t, h, t', h', out) && ValidTask(t') && (t.work.Warming? || t.work.Reading?)
    ensures h' == h && t'.queue == t.queue && out == multiset{}
    ensures WorkCandidates(t.ctx, t.work) == WorkCandidates(t'.ctx, t'.work)
  {
  }

  lemma MergeConserves(k: nat, t: Task, h: Heap, t': Task, h': Heap, out: Heap)
    requires ValidTask(t) && TaskStep(k, t, h, t', h', out) && ValidTask(t') && t.work.Merging?
    ensures t'.queue == t.queue
    ensures h + WorkCandidates(t.ctx, t.work) == h' + WorkCandidates(t'.ctx, t'.work) + out
  {
    PushConserves(k, t.ctx, t.work.c, t.work.alive, h, h', out);
  }

  lemma WorkStepConserves(k: nat, t: Task, h: Heap, t': Task, h': Heap, out: Heap)
    requires ValidTask(t) && TaskStep(k, t, h, t', h', out) && ValidTask(t') && !t.work.Idle?
    ensures t'.queue == t.queue
    ensures h + WorkCandidates(t.ctx, t.work) == h' + WorkCandidates(t'.ctx, t'.work) + out
  {
    if t.work.Judging? {
      JudgeConserves(k, t, h, t', h', out);
    } else if t.work.Merging? {
      MergeConserves(k, t, h, t', h', out);
    } else {
      ReadConserves(k, t, h, t', h', out);
    }
  }

  lemma Regroup(h: Heap, q: Heap, w: Heap, h': Heap, w': Heap, out: Heap)
    requires h + w == h' + w' + out
    ensures h + (q + w) == h' + (q + w') + out
  {
    assert h + (q + w) == (h + w) + q;
  }

  /** Conservation: a step moves candidates between the task, the heap and `out`. */
  lemma TaskStepConserves(k: nat, t: Task, h: Heap, t': Task, h': Heap, out: Heap)
    requires ValidTask(t) && TaskStep(k, t, h, t', h', out) && ValidTask(t')
    ensures h + Held(t) == h' + Held(t') + out
  {
    if t.work.Idle? {
      BeginConserves(t.ctx, t.queue);
    } else {
      WorkStepConserves(k, t, h, t', h', out);
      Regroup(h, QueueCandidates(t.ctx, t.queue), WorkCandidates(t.ctx, t.work),
              h', WorkCandidates(t'.ctx, t'.work), out);
    }
  }

  lemma BeginConserves(ctx: Context, queue: seq<Cluster>)
    requires queue != [] && ValidTask(Task(ctx, queue, Idle))
    requires ValidTask(Task(ctx, queue[1..], Begin(queue[0])))
    ensures Held(Task(ctx, queue, Idle)) == Held(Task(ctx, queue[1..], Begin(queue[0])))
  {
  }
}
