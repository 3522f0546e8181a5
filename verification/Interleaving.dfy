/** Row-group tasks sharing one heap under every interleaving: what every step keeps, that every
    run ends, and what the heap holds when it does. */
module Interleaving {
  import opened Common
  import opened Distances
  import opened KnnHeap
  import opened Multisets
  import opened SearchMachine
  import Runs

  /** `lost` is a history variable: the candidates dropped, rejected or pushed out so far. */
  datatype State = State(heap: Heap, tasks: seq<Task>, lost: Heap)

  ghost predicate ValidTasks(tasks: seq<Task>) {
    forall i :: 0 <= i < |tasks| ==> ValidTask(tasks[i]) && RoomyTask(tasks[i])
  }

  ghost predicate StepOf(k: nat, s: State, i: nat, s': State, out: Heap)
    requires i < |s.tasks| && ValidTask(s.tasks[i])
  {
    && |s'.tasks| == |s.tasks|
    && s'.tasks == s.tasks[i := s'.tasks[i]]
    && TaskStep(k, s.tasks[i], s.heap, s'.tasks[i], s'.heap, out)
    && s'.lost == s.lost + out
  }

  ghost predicate Next(k: nat, s: State, s': State)
    requires ValidTasks(s.tasks)
  {
    exists i, out :: 0 <= i < |s.tasks| && StepOf(k, s, i, s', out)
  }

  // ---------------------------------------------------------------- conservation

  ghost function Sum(hs: seq<Heap>): Heap {
    if hs == [] then multiset{} else Sum(hs[..|hs| - 1]) + hs[|hs| - 1]
  }

  ghost function Shares(tasks: seq<Task>): seq<Heap>
    requires ValidTasks(tasks)
  {
    seq(|tasks|, i requires 0 <= i < |tasks| => Held(tasks[i]))
  }

  /** Everything the tasks still hold together. */
  ghost function HeldBy(tasks: seq<Task>): Heap
    requires ValidTasks(tasks)
  {
    Sum(Shares(tasks))
  }

  lemma SumOfOne(hs: seq<Heap>)
    requires |hs| == 1
    ensures Sum(hs) == hs[0]
  {
    assert Sum(hs[..0]) == multiset{};
  }

  lemma {:induction false} SumAfterUpdate(hs: seq<Heap>, i: nat, x: Heap)
    requires i < |hs|
    ensures Sum(hs[i := x]) + hs[i] == Sum(hs) + x
    decreases |hs|
  {
    var n := |hs| - 1;
    if i == n {
      assert hs[i := x][..n] == hs[..n];
    } else {
      SumAfterUpdate(hs[..n], i, x);
      assert hs[i := x][..n] == hs[..n][i := x];
      Swap(Sum(hs[..n][i := x]), hs[i], Sum(hs[..n]), x, hs[n]);
    }
  }

  lemma ValidAfterUpdate(tasks: seq<Task>, i: nat, t: Task)
    requires ValidTasks(tasks) && i < |tasks| && ValidTask(t) && RoomyTask(t)
    ensures ValidTasks(tasks[i := t])
  {
  }

  lemma HeldAfterUpdate(tasks: seq<Task>, i: nat, t: Task)
    requires ValidTasks(tasks) && i < |tasks| && ValidTask(t) && RoomyTask(t)
    ensures ValidTasks(tasks[i := t])
    ensures HeldBy(tasks[i := t]) + Held(tasks[i]) == HeldBy(tasks) + Held(t)
  {
    ValidAfterUpdate(tasks, i, t);
    assert Shares(tasks[i := t]) == Shares(tasks)[i := Held(t)];
    SumAfterUpdate(Shares(tasks), i, Held(t));
  }

  lemma Swap(a: Heap, b: Heap, c: Heap, d: Heap, e: Heap)
    requires a + b == c + d
    ensures (a + e) + b == (c + e) + d
  {
    assert (a + e) + b == (a + b) + e;
    assert (c + e) + d == (c + d) + e;
  }

  // ---------------------------------------------------------------- the invariant

  /** The distances a threshold read can see: the initialization element's or a candidate's. */
  ghost predicate IsDistance(all: Heap, r: real) {
    r == FLT_MAX || exists x :: x in all && x.distance == r
  }

  ghost predicate AllFinite(all: Heap) {
    forall x | x in all :: x.distance < FLT_MAX
  }

  /** A threshold read earlier may be stale, but it is never below the current top. */
  ghost predicate StaleOnlyUpwards(h: Heap, all: Heap, t: Task)
    requires |h| > 0
  {
    t.work.Judging? ==> TopDistance(h) <= t.work.top && IsDistance(all, t.work.top)
  }

  ghost predicate Inv(k: nat, s: State, all: Heap) {
    && AllFinite(all)
    && ValidTasks(s.tasks)
    && Accounted(k, s.heap, s.lost)
    && s.heap + s.lost + HeldBy(s.tasks) == all + multiset{SENTINEL}
    && forall i :: 0 <= i < |s.tasks| ==> StaleOnlyUpwards(s.heap, all, s.tasks[i])
  }

  lemma TopIsDistance(k: nat, s: State, all: Heap)
    requires Inv(k, s, all)
    ensures IsDistance(all, TopDistance(s.heap)) && TopDistance(s.heap) <= FLT_MAX
    ensures SENTINEL in s.heap ==> TopDistance(s.heap) == FLT_MAX
  {
    TopFromBooks(s.heap, s.lost, HeldBy(s.tasks), all);
  }

  lemma TopFromBooks(h: Heap, lost: Heap, held: Heap, all: Heap)
    requires |h| > 0 && AllFinite(all)
    requires h + lost + held == all + multiset{SENTINEL}
    ensures IsDistance(all, TopDistance(h)) && TopDistance(h) <= FLT_MAX
    ensures SENTINEL in h ==> TopDistance(h) == FLT_MAX
  {
    var r := TopDistance(h);
    var x :| IsTop(h, x) && x.distance == r;
    assert x in h + lost + held;
  }

  /** With the initialization element still in the heap, no vector is ever dropped. */
  lemma NothingDroppedBeforeFull(ctx: Context, c: Cluster, v: nat, h: nat, alive: seq<nat>)
    requires Fits(ctx, c) && Roomy(ctx, c) && ValidAlive(c, alive) && IsCheckpoint(ctx, v, h)
    ensures Sieve(ctx, c, v, h, FLT_MAX, alive, false) == []
  {
    var gone := Sieve(ctx, c, v, h, FLT_MAX, alive, false);
    if gone != [] {
      var p := gone[0];
      assert Headroom(ctx, c.vecs[p]);
      PartialBelowFull(ctx, c.vecs[p], v, h);
      assert false;
    }
  }

  /** Dropping keeps the account. */
  lemma JudgeKeepsAccount(k: nat, s: State, i: nat, s': State, out: Heap, all: Heap)
    requires Inv(k, s, all) && i < |s.tasks| && StepOf(k, s, i, s', out) && s.tasks[i].work.Judging?
    ensures s'.heap == s.heap && Accounted(k, s.heap, s.lost + out)
  {
    var t := s.tasks[i];
    var w := t.work;
    if SENTINEL in s.heap {
      TopIsDistance(k, s, all);
      assert StaleOnlyUpwards(s.heap, all, t);
      assert w.top == FLT_MAX;
      NothingDroppedBeforeFull(t.ctx, w.c, w.v, w.h, w.alive);
      assert s.lost + out == multiset{};
    }
  }

  lemma PushedIsFinite(t: Task)
    requires ValidTask(t) && RoomyTask(t) && t.work.Merging?
    ensures CandidateAt(t.ctx, t.work.c, t.work.alive[0]).distance < FLT_MAX
  {
    assert Headroom(t.ctx, t.work.c.vecs[t.work.alive[0]]);
  }

  lemma StepKeepsAccount(k: nat, s: State, i: nat, s': State, out: Heap, all: Heap)
    requires Inv(k, s, all) && i < |s.tasks| && StepOf(k, s, i, s', out)
    ensures Accounted(k, s'.heap, s'.lost)
    ensures TopDistance(s'.heap) <= TopDistance(s.heap)
  {
    var t := s.tasks[i];
    if t.work.Judging? {
      JudgeKeepsAccount(k, s, i, s', out, all);
    } else if t.work.Merging? {
      PushedIsFinite(t);
      AbsorbedKeepsAccount(k, s.heap, s.lost, CandidateAt(t.ctx, t.work.c, t.work.alive[0]), s'.heap, out);
    } else {
      assert s.lost + out == s.lost;
    }
  }

  lemma StepKeepsBooks(k: nat, s: State, i: nat, s': State, out: Heap, all: Heap)
    requires Inv(k, s, all) && i < |s.tasks| && StepOf(k, s, i, s', out)
    ensures ValidTasks(s'.tasks)
    ensures s'.heap + s'.lost + HeldBy(s'.tasks) == all + multiset{SENTINEL}
  {
    var t, t' := s.tasks[i], s'.tasks[i];
    TaskStepKeepsValid(k, t, s.heap, t', s'.heap, out);
    TaskStepConserves(k, t, s.heap, t', s'.heap, out);
    HeldAfterUpdate(s.tasks, i, t');
    Rebalance(s.heap, s.lost, HeldBy(s.tasks), Held(t), s'.heap, out, HeldBy(s'.tasks), Held(t'));
  }

  lemma Rebalance(h: Heap, lost: Heap, held: Heap, one: Heap, h': Heap, out: Heap, held': Heap, one': Heap)
    requires h + one == h' + one' + out
    requires held' + one == held + one'
    ensures h' + (lost + out) + held' == h + lost + held
  {
    assert (h' + (lost + out) + held') + (one + one') == (h + lost + held) + (one + one') by {
      assert (h' + (lost + out) + held') + (one + one') == (h' + one' + out) + (held' + one) + lost;
      assert (h + lost + held) + (one + one') == (h + one) + (held + one') + lost;
    }
    Cancel(h' + (lost + out) + held', h + lost + held, one + one');
  }

  lemma StepKeepsStaleness(k: nat, s: State, i: nat, s': State, out: Heap, all: Heap, j: nat)
    requires Inv(k, s, all) && i < |s.tasks| && StepOf(k, s, i, s', out) && j < |s.tasks|
    ensures |s'.heap| > 0 && StaleOnlyUpwards(s'.heap, all, s'.tasks[j])
  {
    StepKeepsAccount(k, s, i, s', out, all);
    TopIsDistance(k, s, all);
    assert StaleOnlyUpwards(s.heap, all, s.tasks[j]);
    if j == i && s'.tasks[i].work.Judging? {
      JudgingComesFromReading(k, s.tasks[i], s.heap, s'.tasks[i], s'.heap, out);
    }
  }

  lemma JudgingComesFromReading(k: nat, t: Task, h: Heap, t': Task, h': Heap, out: Heap)
    requires ValidTask(t) && TaskStep(k, t, h, t', h', out) && t'.work.Judging?
    ensures |h| > 0 && t'.work.top == TopDistance(h)
  {
    match t.work
    case Idle =>
    case Warming(c, i) =>
    case Reading(c, v, hd, alive) =>
    case Judging(c, v, hd, alive, top) =>
    case Merging(c, alive) =>
  }

  /** Every step of every task keeps the invariant. */
  lemma StepKeepsInv(k: nat, s: State, s': State, all: Heap)
    requires Inv(k, s, all) && Next(k, s, s')
    ensures Inv(k, s', all)
    ensures TopDistance(s'.heap) <= TopDistance(s.heap)
  {
    var i, out :| 0 <= i < |s.tasks| && StepOf(k, s, i, s', out);
    StepKeepsAccount(k, s, i, s', out, all);
    StepKeepsBooks(k, s, i, s', out, all);
    forall j | 0 <= j < |s'.tasks| ensures StaleOnlyUpwards(s'.heap, all, s'.tasks[j]) {
      StepKeepsStaleness(k, s, i, s', out, all, j);
    }
  }

  // ---------------------------------------------------------------- order

  /** A vector at distance `d`, if there is headroom for it, may be dropped at this checkpoint. */
  ghost predicate Reaches(ctx: Context, v: nat, h: nat, top: real, d: nat) {
    && v + h <= ctx.D && Threshold(ctx, top, v + h) <= d as real < Threshold(ctx, FLT_MAX, v + h)
    && (ctx.quant.U8? ==> ByteDistance(ctx.D, d))
  }

  /** At every checkpoint, a distance that reaches the threshold derived from `top` is a distance
      of at least `top`, up to `slack`. */
  ghost predicate Faithful(ctx: Context, top: real, slack: real) {
    forall v, h, d :: IsCheckpoint(ctx, v, h) && Reaches(ctx, v, h, top, d) ==> Published(ctx, d) + slack >= top
  }

  ghost predicate AllFaithful(tasks: seq<Task>, all: Heap, slack: real) {
    forall i, top :: 0 <= i < |tasks| && IsDistance(all, top) ==> Faithful(tasks[i].ctx, top, slack)
  }

  lemma OneDroppedLiesAbove(ctx: Context, c: Cluster, v: nat, h: nat, top: real, slack: real, p: nat)
    requires Fits(ctx, c) && p < |c.vecs| && IsCheckpoint(ctx, v, h) && Headroom(ctx, c.vecs[p])
    requires Faithful(ctx, top, slack) && !Survives(ctx, c, v, h, top, p)
    ensures CandidateAt(ctx, c, p).distance + slack >= top
  {
    PartialBelowFull(ctx, c.vecs[p], v, h);
    assert Reaches(ctx, v, h, top, Full(ctx, c.vecs[p]));
  }

  lemma DroppedLiesAbove(ctx: Context, c: Cluster, v: nat, h: nat, alive: seq<nat>, top: real, slack: real,
                         x: Candidate)
    requires Fits(ctx, c) && Roomy(ctx, c) && ValidAlive(c, alive) && IsCheckpoint(ctx, v, h)
    requires Faithful(ctx, top, slack)
    requires x in Candidates(ctx, c, Sieve(ctx, c, v, h, top, alive, false))
    ensures x.distance + slack >= top
  {
    var gone := Sieve(ctx, c, v, h, top, alive, false);
    var i := CandidateIn(ctx, c, gone, x);
    OneDroppedLiesAbove(ctx, c, v, h, top, slack, gone[i]);
  }

  lemma QuietStep(k: nat, t: Task, h: Heap, t': Task, h': Heap, out: Heap)
    requires ValidTask(t) && TaskStep(k, t, h, t', h', out) && !t.work.Judging? && !t.work.Merging?
    ensures h' == h && out == multiset{}
  {
  }

  lemma JudgeKeepsOrder(k: nat, s: State, i: nat, s': State, out: Heap, all: Heap, slack: real)
    requires Inv(k, s, all) && i < |s.tasks| && StepOf(k, s, i, s', out) && s.tasks[i].work.Judging?
    requires AllFaithful(s.tasks, all, slack) && Ordered(s.heap, s.lost, slack)
    ensures s'.heap == s.heap && Ordered(s.heap, s.lost + out, slack)
  {
    var t := s.tasks[i];
    var w := t.work;
    assert StaleOnlyUpwards(s.heap, all, t);
    forall x: Candidate | x in out ensures TopDistance(s.heap) <= x.distance + slack {
      DroppedLiesAbove(t.ctx, w.c, w.v, w.h, w.alive, w.top, slack, x);
    }
  }

  lemma StepOfKeepsOrder(k: nat, s: State, i: nat, s': State, out: Heap, all: Heap, slack: real)
    requires Inv(k, s, all) && i < |s.tasks| && StepOf(k, s, i, s', out) && slack >= 0.0
    requires AllFaithful(s.tasks, all, slack) && Ordered(s.heap, s.lost, slack)
    ensures |s'.heap| > 0 && Ordered(s'.heap, s'.lost, slack)
  {
    var t := s.tasks[i];
    if t.work.Judging? {
      JudgeKeepsOrder(k, s, i, s', out, all, slack);
    } else if t.work.Merging? {
      PushedIsFinite(t);
      AbsorbedKeepsOrder(k, s.heap, s.lost, CandidateAt(t.ctx, t.work.c, t.work.alive[0]), s'.heap, out, slack);
    } else {
      QuietStep(k, t, s.heap, s'.tasks[i], s'.heap, out);
      assert s.lost + out == s.lost;
    }
  }

  lemma StepKeepsFaithful(k: nat, s: State, i: nat, s': State, out: Heap, all: Heap, slack: real)
    requires ValidTasks(s.tasks) && i < |s.tasks| && StepOf(k, s, i, s', out)
    requires AllFaithful(s.tasks, all, slack)
    ensures AllFaithful(s'.tasks, all, slack)
  {
    TaskStepKeepsValid(k, s.tasks[i], s.heap, s'.tasks[i], s'.heap, out);
    forall j, top | 0 <= j < |s'.tasks| && IsDistance(all, top) ensures Faithful(s'.tasks[j].ctx, top, slack) {
      assert s'.tasks[j].ctx == s.tasks[j].ctx;
    }
  }

  /** Every step keeps the order between what is kept and what is lost. */
  lemma StepKeepsOrder(k: nat, s: State, s': State, all: Heap, slack: real)
    requires Inv(k, s, all) && Next(k, s, s') && slack >= 0.0
    requires AllFaithful(s.tasks, all, slack) && Ordered(s.heap, s.lost, slack)
    ensures Inv(k, s', all) && AllFaithful(s'.tasks, all, slack) && Ordered(s'.heap, s'.lost, slack)
  {
    var i, out :| 0 <= i < |s.tasks| && StepOf(k, s, i, s', out);
    StepOfKeepsOrder(k, s, i, s', out, all, slack);
    StepKeepsFaithful(k, s, i, s', out, all, slack);
    StepKeepsInv(k, s, s', all);
  }

  // ---------------------------------------------------------------- runs

  ghost predicate IsRun(k: nat, run: seq<State>) {
    |run| > 0 && forall i :: 0 <= i < |run| - 1 ==> NextAt(k, run, i)
  }

  ghost predicate NextAt(k: nat, run: seq<State>, i: int)
    requires 0 <= i < |run| - 1
  {
    ValidTasks(run[i].tasks) && Next(k, run[i], run[i + 1])
  }

  ghost predicate Done(s: State) {
    forall i :: 0 <= i < |s.tasks| ==> s.tasks[i].work.Idle? && s.tasks[i].queue == []
  }

  ghost function NextOf(k: nat): (State, State) -> bool {
    (s: State, s': State) => ValidTasks(s.tasks) && Next(k, s, s')
  }

  lemma RunSteps(k: nat, run: seq<State>)
    requires IsRun(k, run)
    ensures forall i :: 0 <= i < |run| - 1 ==> Runs.Steps(run, NextOf(k), i)
  {
    forall i | 0 <= i < |run| - 1 ensures Runs.Steps(run, NextOf(k), i) {
      assert NextAt(k, run, i);
    }
  }

  ghost function InvOf(k: nat, all: Heap): State -> bool {
    (s: State) => Inv(k, s, all)
  }

  /** Every state of a run satisfies the invariant. */
  lemma RunKeepsInv(k: nat, run: seq<State>, all: Heap, n: nat)
    requires IsRun(k, run) && n < |run| && Inv(k, run[0], all)
    ensures Inv(k, run[n], all)
  {
    RunSteps(k, run);
    forall s, s' | InvOf(k, all)(s) && NextOf(k)(s, s') ensures InvOf(k, all)(s') {
      StepKeepsInv(k, s, s', all);
    }
    Runs.HoldsAlong(run, NextOf(k), InvOf(k, all), n);
  }

  ghost predicate OrderInv(k: nat, s: State, all: Heap, slack: real) {
    && Inv(k, s, all) && AllFaithful(s.tasks, all, slack)
    && Ordered(s.heap, s.lost, slack)
  }

  ghost function OrderInvOf(k: nat, all: Heap, slack: real): State -> bool {
    (s: State) => OrderInv(k, s, all, slack)
  }

  lemma StepKeepsOrderInv(k: nat, s: State, s': State, all: Heap, slack: real)
    requires OrderInv(k, s, all, slack) && slack >= 0.0 && Next(k, s, s')
    ensures OrderInv(k, s', all, slack)
  {
    StepKeepsOrder(k, s, s', all, slack);
  }

  lemma RunKeepsOrder(k: nat, run: seq<State>, all: Heap, slack: real, n: nat)
    requires IsRun(k, run) && n < |run| && slack >= 0.0 && OrderInv(k, run[0], all, slack)
    ensures OrderInv(k, run[n], all, slack)
  {
    RunSteps(k, run);
    forall s, s' | OrderInvOf(k, all, slack)(s) && NextOf(k)(s, s') ensures OrderInvOf(k, all, slack)(s') {
      StepKeepsOrderInv(k, s, s', all, slack);
    }
    Runs.HoldsAlong(run, NextOf(k), OrderInvOf(k, all, slack), n);
  }

  /** The initial state of a search: every task idle, only the initialization element in the heap. */
  ghost predicate Initial(k: nat, s: State) {
    && k >= 1
    && s.heap == multiset{SENTINEL} && s.lost == multiset{}
    && ValidTasks(s.tasks)
    && forall i :: 0 <= i < |s.tasks| ==> s.tasks[i].work.Idle?
  }

  lemma {:induction false} SumIsFinite(hs: seq<Heap>)
    requires forall i :: 0 <= i < |hs| ==> AllFinite(hs[i])
    ensures AllFinite(Sum(hs))
  {
    if hs != [] {
      SumIsFinite(hs[..|hs| - 1]);
    }
  }

  lemma HeldIsFinite(tasks: seq<Task>)
    requires ValidTasks(tasks) && forall i :: 0 <= i < |tasks| ==> tasks[i].work.Idle?
    ensures AllFinite(HeldBy(tasks))
  {
    forall i | 0 <= i < |tasks| ensures AllFinite(Shares(tasks)[i]) {
      QueueIsFinite(tasks[i].ctx, tasks[i].queue);
    }
    SumIsFinite(Shares(tasks));
  }

  lemma {:induction false} QueueIsFinite(ctx: Context, queue: seq<Cluster>)
    requires forall i :: 0 <= i < |queue| ==> Fits(ctx, queue[i]) && Roomy(ctx, queue[i])
    ensures AllFinite(QueueCandidates(ctx, queue))
  {
    if queue != [] {
      QueueIsFinite(ctx, queue[1..]);
      var c := queue[0];
      forall x: Candidate | x in Candidates(ctx, c, Selected(c)) ensures x.distance < FLT_MAX {
        var i := CandidateIn(ctx, c, Selected(c), x);
        assert Headroom(ctx, c.vecs[Selected(c)[i]]);
      }
    }
  }

  lemma InitialInv(k: nat, s: State)
    requires Initial(k, s)
    ensures Inv(k, s, HeldBy(s.tasks))
    ensures Ordered(s.heap, s.lost, 0.0)
  {
    HeldIsFinite(s.tasks);
    assert SENTINEL in s.heap;
  }

  lemma {:induction false} SumOfEmpty(hs: seq<Heap>)
    requires forall i :: 0 <= i < |hs| ==> hs[i] == multiset{}
    ensures Sum(hs) == multiset{}
  {
    if hs != [] {
      SumOfEmpty(hs[..|hs| - 1]);
    }
  }

  lemma DoneHoldsNothing(s: State)
    requires ValidTasks(s.tasks) && Done(s)
    ensures HeldBy(s.tasks) == multiset{}
  {
    SumOfEmpty(Shares(s.tasks));
  }

  // ---------------------------------------------------------------- results

  /** The real candidates in the heap. */
  ghost function Kept(h: Heap): Heap {
    h - multiset{SENTINEL}
  }

  /** `kept` are min(k, |all|) of the candidates in `all`. */
  ghost predicate CountsRight(k: nat, kept: Heap, all: Heap) {
    kept <= all && |kept| == Min(k, |all|)
  }

  /** ... and none of the others is closer than any of them, up to `slack`. */
  ghost predicate NearestUpTo(k: nat, kept: Heap, all: Heap, slack: real) {
    CountsRight(k, kept, all) && forall x, y | x in all - kept && y in kept :: y.distance <= x.distance + slack
  }

  lemma BooksCount(k: nat, h: Heap, lost: Heap, all: Heap)
    requires Accounted(k, h, lost) && AllFinite(all)
    requires h + lost == all + multiset{SENTINEL}
    ensures CountsRight(k, Kept(h), all)
    ensures all - Kept(h) == lost - multiset{SENTINEL}
  {
    assert SENTINEL !in all;
    if SENTINEL in h {
      assert h + lost == h;
      assert Kept(h) == all;
    } else {
      FullBooks(h, lost, all);
    }
  }

  lemma FullBooks(h: Heap, lost: Heap, all: Heap)
    requires h + lost == all + multiset{SENTINEL} && SENTINEL !in h && SENTINEL !in all
    ensures Kept(h) == h && h <= all && all - h == lost - multiset{SENTINEL}
  {
    var l := lost - multiset{SENTINEL};
    assert (h + lost)[SENTINEL] == 1;
    assert lost == l + multiset{SENTINEL};
    Associate(h, l, multiset{SENTINEL});
    Cancel(h + l, all, multiset{SENTINEL});
  }

  lemma DoneCounts(k: nat, s: State, all: Heap)
    requires Inv(k, s, all) && Done(s)
    ensures CountsRight(k, Kept(s.heap), all)
    ensures all - Kept(s.heap) == s.lost - multiset{SENTINEL}
  {
    DoneHoldsNothing(s);
    assert s.heap + s.lost + multiset{} == s.heap + s.lost;
    BooksCount(k, s.heap, s.lost, all);
  }

  /** Whatever the pruner's ratios are, every complete run ends with exactly min(k, n) real
      candidates of the n selected vectors that were scheduled. */
  lemma EveryRunCounts(k: nat, run: seq<State>)
    requires IsRun(k, run) && Initial(k, run[0]) && Done(run[|run| - 1])
    ensures ValidTasks(run[0].tasks)
    ensures CountsRight(k, Kept(run[|run| - 1].heap), HeldBy(run[0].tasks))
  {
    var all := HeldBy(run[0].tasks);
    InitialInv(k, run[0]);
    RunKeepsInv(k, run, all, |run| - 1);
    DoneCounts(k, run[|run| - 1], all);
  }

  /** With faithful thresholds every complete run ends with a k-nearest set, up to `slack`. */
  lemma EveryRunIsNearest(k: nat, run: seq<State>, slack: real)
    requires IsRun(k, run) && Initial(k, run[0]) && Done(run[|run| - 1]) && slack >= 0.0
    requires AllFaithful(run[0].tasks, HeldBy(run[0].tasks), slack)
    ensures NearestUpTo(k, Kept(run[|run| - 1].heap), HeldBy(run[0].tasks), slack)
  {
    var all, last := HeldBy(run[0].tasks), run[|run| - 1];
    InitialInv(k, run[0]);
    RunKeepsOrder(k, run, all, slack, |run| - 1);
    DoneCounts(k, last, all);
    forall x, y | x in all - Kept(last.heap) && y in Kept(last.heap) ensures y.distance <= x.distance + slack {
      assert x in last.lost && y in last.heap;
    }
  }

  // ---------------------------------------------------------------- termination

  ghost function WorkMeasure(ctx: Context, w: Work): nat
    requires ValidWork(ctx, w)
  {
    match w
    case Idle => 0
    case Warming(c, i) => 2 * ctx.D + |c.vecs| + 23 - i
    case Reading(_, v, h, alive) => 2 * (ctx.D - v - h) + |alive| + 2
    case Judging(_, v, h, alive, _) => 2 * (ctx.D - v - h) + |alive| + 1
    case Merging(_, alive) => |alive|
  }

  ghost function QueueMeasure(ctx: Context, queue: seq<Cluster>): nat {
    if queue == [] then 0 else 2 * ctx.D + |queue[0].vecs| + 24 + QueueMeasure(ctx, queue[1..])
  }

  ghost function TaskMeasure(t: Task): nat
    requires ValidTask(t)
  {
    QueueMeasure(t.ctx, t.queue) + WorkMeasure(t.ctx, t.work)
  }

  ghost function Measure(tasks: seq<Task>): nat
    requires ValidTasks(tasks)
  {
    if tasks == [] then 0 else Measure(tasks[..|tasks| - 1]) + TaskMeasure(tasks[|tasks| - 1])
  }

  lemma TaskStepProgresses(k: nat, t: Task, h: Heap, t': Task, h': Heap, out: Heap)
    requires ValidTask(t) && TaskStep(k, t, h, t', h', out) && ValidTask(t')
    ensures TaskMeasure(t') < TaskMeasure(t)
  {
    match t.work
    case Idle =>
    case Warming(c, i) =>
    case Reading(c, v, hd, alive) =>
    case Judging(c, v, hd, alive, top) =>
    case Merging(c, alive) =>
  }

  lemma {:induction false} MeasureAfterUpdate(tasks: seq<Task>, i: nat, t: Task)
    requires ValidTasks(tasks) && i < |tasks| && ValidTask(t) && RoomyTask(t)
    ensures ValidTasks(tasks[i := t])
    ensures Measure(tasks[i := t]) + TaskMeasure(tasks[i]) == Measure(tasks) + TaskMeasure(t)
    decreases |tasks|
  {
    var n := |tasks| - 1;
    var updated := tasks[i := t];
    if i == n {
      assert updated[..n] == tasks[..n];
    } else {
      MeasureAfterUpdate(tasks[..n], i, t);
      assert updated[..n] == tasks[..n][i := t];
    }
  }

  lemma StepProgresses(k: nat, s: State, s': State)
    requires ValidTasks(s.tasks) && Next(k, s, s')
    ensures ValidTasks(s'.tasks) && Measure(s'.tasks) < Measure(s.tasks)
  {
    var i, out :| 0 <= i < |s.tasks| && StepOf(k, s, i, s', out);
    TaskStepKeepsValid(k, s.tasks[i], s.heap, s'.tasks[i], s'.heap, out);
    TaskStepProgresses(k, s.tasks[i], s.heap, s'.tasks[i], s'.heap, out);
    MeasureAfterUpdate(s.tasks, i, s'.tasks[i]);
  }

  /** No run is longer than the measure of its first state, whatever the scheduler does. */
  lemma {:induction false} EveryRunEnds(k: nat, run: seq<State>, n: nat)
    requires IsRun(k, run) && n < |run| && ValidTasks(run[0].tasks)
    ensures ValidTasks(run[n].tasks) && n + Measure(run[n].tasks) <= Measure(run[0].tasks)
    decreases n
  {
    if n > 0 {
      EveryRunEnds(k, run, n - 1);
      RunProgresses(k, run, n - 1);
    }
  }

  lemma RunProgresses(k: nat, run: seq<State>, i: nat)
    requires IsRun(k, run) && i < |run| - 1
    ensures ValidTasks(run[i].tasks) && ValidTasks(run[i + 1].tasks)
    ensures Measure(run[i + 1].tasks) < Measure(run[i].tasks)
  {
    assert NextAt(k, run, i);
    StepProgresses(k, run[i], run[i + 1]);
  }

  /** No deadlock: as long as some task is not finished, some step is possible. */
  lemma NeverStuck(k: nat, s: State, all: Heap)
    requires Inv(k, s, all) && !Done(s)
    ensures exists s' :: Next(k, s, s')
  {
    var i :| 0 <= i < |s.tasks| && !(s.tasks[i].work.Idle? && s.tasks[i].queue == []);
    var t', h', out := TaskCanStep(k, s.tasks[i], s.heap);
    NextByTask(k, s, i, t', h', out);
  }

  lemma NextByTask(k: nat, s: State, i: nat, t': Task, h': Heap, out: Heap)
    requires ValidTasks(s.tasks) && i < |s.tasks| && TaskStep(k, s.tasks[i], s.heap, t', h', out)
    ensures Next(k, s, State(h', s.tasks[i := t'], s.lost + out))
  {
    assert StepOf(k, s, i, State(h', s.tasks[i := t'], s.lost + out), out);
  }

  lemma TaskCanStep(k: nat, t: Task, h: Heap) returns (t': Task, h': Heap, out: Heap)
    requires ValidTask(t) && |h| > 0 && !(t.work.Idle? && t.queue == [])
    ensures TaskStep(k, t, h, t', h', out)
  {
    h', out := h, multiset{};
    match t.work
    case Idle =>
      t' := Task(t.ctx, t.queue[1..], Begin(t.queue[0]));
    case Warming(c, i) =>
      t' := t.(work := AfterWarming(t.ctx, c, i, TopDistance(h)));
    case Reading(c, v, hd, alive) =>
      t' := t.(work := Judging(c, v, hd, alive, TopDistance(h)));
    case Judging(c, v, hd, alive, top) =>
      out := Candidates(t.ctx, c, Sieve(t.ctx, c, v, hd, top, alive, false));
      t' := t.(work := AfterJudging(t.ctx, c, v, hd, Sieve(t.ctx, c, v, hd, top, alive, true)));
    case Merging(c, alive) =>
      h', out := AbsorbedExists(k, h, CandidateAt(t.ctx, c, alive[0]));
      t' := t.(work := if |alive| == 1 then Idle else Merging(c, alive[1..]));
  }

  // ---------------------------------------------------------------- where a candidate comes from

  lemma {:induction false} InSomeCluster(ctx: Context, queue: seq<Cluster>, x: Candidate) returns (i: nat)
    requires forall i :: 0 <= i < |queue| ==> Fits(ctx, queue[i])
    requires x in QueueCandidates(ctx, queue)
    ensures i < |queue| && x in Candidates(ctx, queue[i], Selected(queue[i]))
    decreases |queue|
  {
    if x in Candidates(ctx, queue[0], Selected(queue[0])) {
      i := 0;
    } else {
      var j := InSomeCluster(ctx, queue[1..], x);
      i := j + 1;
    }
  }
}
