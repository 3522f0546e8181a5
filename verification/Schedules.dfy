/** Schedules that let one task run after the other, and searches of two vectors that lose the nearer
    one. They show that a condition for exactness is necessary. */
module Schedules {
  import opened Common
  import opened KnnHeap
  import opened Multisets
  import opened SearchMachine
  import opened Interleaving

  lemma AppendNext(k: nat, run: seq<State>, s': State)
    requires IsRun(k, run) && ValidTasks(run[|run| - 1].tasks) && Next(k, run[|run| - 1], s')
    ensures IsRun(k, run + [s'])
  {
    var run' := run + [s'];
    forall j | 0 <= j < |run'| - 1 ensures NextAt(k, run', j) {
      assert j < |run| - 1 ==> NextAt(k, run, j);
    }
  }

  lemma Extend(k: nat, run: seq<State>, i: nat, t': Task, h': Heap, out: Heap, all: Heap) returns (run': seq<State>)
    requires IsRun(k, run) && Inv(k, run[|run| - 1], all)
    requires var s := run[|run| - 1]; i < |s.tasks| && TaskStep(k, s.tasks[i], s.heap, t', h', out)
    ensures |run'| > 0 && IsRun(k, run') && run'[0] == run[0] && Inv(k, run'[|run'| - 1], all)
    ensures var s, s' := run[|run| - 1], run'[|run'| - 1]; s'.heap == h' && s'.tasks == s.tasks[i := t']
  {
    var s := run[|run| - 1];
    var s' := State(h', s.tasks[i := t'], s.lost + out);
    NextByTask(k, s, i, t', h', out);
    StepKeepsInv(k, s, s', all);
    AppendNext(k, run, s');
    run' := run + [s'];
  }

  // ---------------------------------------------------------------- one task at a time

  predicate EndsWith(queue: seq<Cluster>, rest: seq<Cluster>) {
    |rest| <= |queue| && queue[|queue| - |rest|..] == rest
  }

  /** Every step of a task keeps a property of the task and the heap. */
  ghost predicate KeptByAllSteps(k: nat, keep: (Task, Heap) -> bool) {
    forall t, h, t', h', out :: ValidTask(t) && keep(t, h) && TaskStep(k, t, h, t', h', out) ==> keep(t', h')
  }

  lemma StepInQueue(k: nat, t: Task, h: Heap, t': Task, h': Heap, out: Heap, rest: seq<Cluster>)
    requires ValidTask(t) && TaskStep(k, t, h, t', h', out) && EndsWith(t.queue, rest)
    requires !(t.work.Idle? && t.queue == rest)
    ensures EndsWith(t'.queue, rest) && t'.ctx == t.ctx
  {
    if t.work.Idle? {
      assert |t.queue| > |rest|;
      assert t.queue[1..][|t.queue| - 1 - |rest|..] == t.queue[|t.queue| - |rest|..];
    }
  }

  /** Where a run stands once task `i` has dealt with all clusters but the last few. */
  ghost predicate RanTo(k: nat, run: seq<State>, run': seq<State>, i: nat, rest: seq<Cluster>, all: Heap)
    requires |run| > 0 && i < |run[|run| - 1].tasks|
  {
    && |run'| > 0 && IsRun(k, run') && run'[0] == run[0] && Inv(k, run'[|run'| - 1], all)
    && var s := run[|run| - 1];
       run'[|run'| - 1].tasks == s.tasks[i := Task(s.tasks[i].ctx, rest, Idle)]
  }

  /** A task that keeps a property and still has clusters to deal with. */
  ghost predicate AtWork(k: nat, s: State, i: nat, rest: seq<Cluster>, keep: (Task, Heap) -> bool, all: Heap) {
    && Inv(k, s, all) && i < |s.tasks| && EndsWith(s.tasks[i].queue, rest) && keep(s.tasks[i], s.heap)
    && KeptByAllSteps(k, keep)
  }

  lemma WorkOn(k: nat, run: seq<State>, i: nat, rest: seq<Cluster>, keep: (Task, Heap) -> bool, all: Heap)
      returns (run': seq<State>, t': Task)
    requires IsRun(k, run) && AtWork(k, run[|run| - 1], i, rest, keep, all)
    requires var t := run[|run| - 1].tasks[i]; !(t.work.Idle? && t.queue == rest)
    ensures |run'| > 0 && IsRun(k, run') && run'[0] == run[0] && AtWork(k, run'[|run'| - 1], i, rest, keep, all)
    ensures var s, s' := run[|run| - 1], run'[|run'| - 1];
            && s'.tasks == s.tasks[i := t'] && t'.ctx == s.tasks[i].ctx
            && ValidTask(s.tasks[i]) && ValidTask(t') && TaskMeasure(t') < TaskMeasure(s.tasks[i])
  {
    var s := run[|run| - 1];
    var t := s.tasks[i];
    var h', out;
    t', h', out := TaskCanStep(k, t, s.heap);
    TaskStepKeepsValid(k, t, s.heap, t', h', out);
    StepInQueue(k, t, s.heap, t', h', out, rest);
    run' := Extend(k, run, i, t', h', out, all);
    TaskStepProgresses(k, t, s.heap, t', h', out);
  }

  /** Any task can run on its own until it has dealt with all clusters but the last few. */
  lemma {:induction false} RunTask(k: nat, run: seq<State>, i: nat, rest: seq<Cluster>, keep: (Task, Heap) -> bool,
                                   all: Heap)
      returns (run': seq<State>)
    requires IsRun(k, run) && AtWork(k, run[|run| - 1], i, rest, keep, all)
    ensures RanTo(k, run, run', i, rest, all) && KeptAtEnd(run', i, keep)
    decreases TaskMeasure(run[|run| - 1].tasks[i])
  {
    var s := run[|run| - 1];
    var t := s.tasks[i];
    if t.work.Idle? && t.queue == rest {
      run' := run;
      assert t == Task(t.ctx, rest, Idle);
      assert s.tasks[i := t] == s.tasks;
    } else {
      var longer, t' := WorkOn(k, run, i, rest, keep, all);
      run' := RunTask(k, longer, i, rest, keep, all);
      UpdatedTwice(s.tasks, i, t', Task(t.ctx, rest, Idle));
    }
  }

  ghost predicate KeptAtEnd(run: seq<State>, i: nat, keep: (Task, Heap) -> bool) {
    |run| > 0 && var s := run[|run| - 1]; i < |s.tasks| && keep(s.tasks[i], s.heap)
  }

  lemma UpdatedTwice(tasks: seq<Task>, i: nat, a: Task, b: Task)
    requires i < |tasks|
    ensures tasks[i := a][i := b] == tasks[i := b]
  {
  }

  // ---------------------------------------------------------------- two vectors

  /** A cluster of one selected vector. */
  function One(id: nat, x: seq<int>): Cluster {
    Cluster([id], [x], [true])
  }

  lemma OneFacts(ctx: Context, id: nat, x: seq<int>)
    requires |x| == ctx.D
    ensures Fits(ctx, One(id, x)) && Selected(One(id, x)) == [0]
    ensures Candidates(ctx, One(id, x), [0]) == multiset{CandidateAt(ctx, One(id, x), 0)}
    ensures Headroom(ctx, x) ==> Roomy(ctx, One(id, x))
  {
    var c := One(id, x);
    assert SelectedBelow(c, 1) == SelectedBelow(c, 0) + [0];
    assert [0 as nat][..0] == [];
    assert Candidates(ctx, c, []) == multiset{};
  }

  lemma TopOfOne(x: Candidate)
    ensures TopDistance(multiset{x}) == x.distance
  {
    assert IsTop(multiset{x}, x);
    TopIsUnique(multiset{x}, x);
  }

  /** The state of a search before it starts. */
  ghost function StartOf(tasks: seq<Task>): State {
    State(multiset{SENTINEL}, tasks, multiset{})
  }

  /** All row groups are idle; `j` is to search the cluster `first` and then, if it is the same one,
      `i` the cluster `second`; the others have nothing to do. */
  ghost predicate Pair(tasks: seq<Task>, j: nat, first: Cluster, i: nat, second: Cluster) {
    && j < |tasks| && i < |tasks|
    && forall t :: 0 <= t < |tasks| ==>
         tasks[t].work.Idle?
         && tasks[t].queue == (if t == j then [first] else []) + (if t == i then [second] else [])
  }

  lemma HeldFirst(ctx: Context, c: Cluster, rest: seq<Cluster>)
    requires Fits(ctx, c) && ValidTask(Task(ctx, [c] + rest, Idle))
    ensures ValidTask(Task(ctx, rest, Idle))
    ensures Held(Task(ctx, [c] + rest, Idle)) == Candidates(ctx, c, Selected(c)) + Held(Task(ctx, rest, Idle))
  {
    assert ([c] + rest)[1..] == rest && ([c] + rest)[0] == c;
    forall i | 0 <= i < |rest| ensures Fits(ctx, rest[i]) {
      assert ([c] + rest)[i + 1] == rest[i];
    }
  }

  lemma PushedFirst(h: Heap, lost: Heap, a: Candidate, s: Candidate, held: Heap, held': Heap, all: Heap)
    requires h + lost + held' == all + multiset{s}
    requires multiset{s} + held == all + multiset{s}
    requires held == multiset{a} + held'
    ensures h + lost == multiset{a} + multiset{s}
  {
    assert held == all by {
      Cancel(held, all, multiset{s});
    }
    assert (h + lost) + held' == (multiset{a} + multiset{s}) + held';
    Cancel(h + lost, multiset{a} + multiset{s}, held');
  }

  lemma OnlyFirstKept(h: Heap, lost: Heap, a: Candidate)
    requires Accounted(1, h, lost) && h + lost == multiset{a} + multiset{SENTINEL} && a.distance < FLT_MAX
    ensures h == multiset{a}
  {
    assert |h + lost| == 2;
    assert lost != multiset{};
    assert SENTINEL !in h;
    var x :| x in h;
    assert x in multiset{a} + multiset{SENTINEL};
    assert |h - multiset{x}| == 0;
  }

  lemma HeldWithout(tasks: seq<Task>, j: nat, c: Cluster, rest: seq<Cluster>, a: Candidate)
    requires ValidTasks(tasks) && j < |tasks| && tasks[j] == Task(tasks[j].ctx, [c] + rest, Idle)
    requires Fits(tasks[j].ctx, c) && Candidates(tasks[j].ctx, c, Selected(c)) == multiset{a}
    requires ValidTasks(tasks[j := Task(tasks[j].ctx, rest, Idle)])
    ensures HeldBy(tasks) == multiset{a} + HeldBy(tasks[j := Task(tasks[j].ctx, rest, Idle)])
  {
    var t := Task(tasks[j].ctx, rest, Idle);
    assert tasks[j := t][j] == t;
    HeldFirst(tasks[j].ctx, c, rest);
    HeldAfterUpdate(tasks, j, t);
    Cancel(HeldBy(tasks), multiset{a} + HeldBy(tasks[j := t]), Held(t));
  }

  /** A search for one neighbour that starts with one vector keeps it. */
  lemma FirstIsKept(s: State, j: nat, c: Cluster, rest: seq<Cluster>, a: Candidate) returns (run: seq<State>)
    requires Initial(1, s) && j < |s.tasks| && s.tasks[j].queue == [c] + rest
    requires Fits(s.tasks[j].ctx, c) && Candidates(s.tasks[j].ctx, c, Selected(c)) == multiset{a}
    requires a.distance < FLT_MAX
    ensures RanTo(1, [s], run, j, rest, HeldBy(s.tasks)) && run[|run| - 1].heap == multiset{a}
  {
    var all := HeldBy(s.tasks);
    InitialInv(1, s);
    run := RunTask(1, [s], j, rest, (t: Task, h: Heap) => true, all);
    var s' := run[|run| - 1];
    HeldWithout(s.tasks, j, c, rest, a);
    PushedFirst(s'.heap, s'.lost, a, SENTINEL, HeldBy(s.tasks), HeldBy(s'.tasks), all);
    OnlyFirstKept(s'.heap, s'.lost, a);
  }

  ghost predicate CompleteRun(k: nat, run: seq<State>) {
    IsRun(k, run) && Initial(k, run[0]) && Done(run[|run| - 1])
  }

  lemma AfterFirst(tasks: seq<Task>, j: nat, first: Cluster, i: nat, second: Cluster)
    requires Pair(tasks, j, first, i, second)
    ensures var rest := if i == j then [second] else [];
            && tasks[j].queue == [first] + rest
            && i < |tasks[j := Task(tasks[j].ctx, rest, Idle)]|
            && tasks[j := Task(tasks[j].ctx, rest, Idle)][i] == Task(tasks[i].ctx, [second], Idle)
  {
    assert tasks[i].queue == (if i == j then [first] else []) + [second];
  }

  lemma AfterBoth(tasks: seq<Task>, j: nat, first: Cluster, i: nat, second: Cluster, s: State)
    requires Pair(tasks, j, first, i, second)
    requires var rest := if i == j then [second] else [];
             s.tasks == tasks[j := Task(tasks[j].ctx, rest, Idle)][i := Task(tasks[i].ctx, [], Idle)]
    ensures Done(s) && s.tasks[i] == Task(tasks[i].ctx, [], Idle)
  {
  }

  /** The first of two vectors is kept, then the other task runs as long as it keeps a property. */
  lemma PairRun(tasks: seq<Task>, j: nat, first: Cluster, i: nat, second: Cluster, a: Candidate,
                keep: (Task, Heap) -> bool)
      returns (run: seq<State>)
    requires Pair(tasks, j, first, i, second) && Initial(1, StartOf(tasks)) && a.distance < FLT_MAX
    requires Fits(tasks[j].ctx, first) && Candidates(tasks[j].ctx, first, Selected(first)) == multiset{a}
    requires KeptByAllSteps(1, keep) && keep(Task(tasks[i].ctx, [second], Idle), multiset{a})
    ensures |run| > 0 && CompleteRun(1, run) && run[0] == StartOf(tasks)
    ensures keep(Task(tasks[i].ctx, [], Idle), run[|run| - 1].heap)
  {
    var rest := if i == j then [second] else [];
    AfterFirst(tasks, j, first, i, second);
    var half := FirstIsKept(StartOf(tasks), j, first, rest, a);
    assert half[|half| - 1].tasks[i] == Task(tasks[i].ctx, [second], Idle);
    run := RunTask(1, half, i, [], keep, HeldBy(tasks));
    AfterBoth(tasks, j, first, i, second, run[|run| - 1]);
  }

  lemma {:induction false} ShareIsPart(hs: seq<Heap>, i: nat)
    requires i < |hs|
    ensures hs[i] <= Sum(hs)
    decreases |hs|
  {
    if i < |hs| - 1 {
      ShareIsPart(hs[..|hs| - 1], i);
    }
  }

  lemma HeldIsPart(tasks: seq<Task>, i: nat)
    requires ValidTasks(tasks) && i < |tasks|
    ensures Held(tasks[i]) <= HeldBy(tasks)
  {
    ShareIsPart(Interleaving.Shares(tasks), i);
  }

  lemma NearerIsLost(a: Candidate, b: Candidate, all: Heap)
    requires b in all && b.distance < a.distance < FLT_MAX
    ensures !NearestUpTo(1, Kept(multiset{a}), all, 0.0)
  {
    assert Kept(multiset{a}) == multiset{a};
    assert a in multiset{a};
    assert b in all - multiset{a};
  }

  lemma SecondIsHeld(tasks: seq<Task>, j: nat, first: Cluster, i: nat, second: Cluster, b: Candidate)
    requires Pair(tasks, j, first, i, second) && ValidTasks(tasks)
    requires Fits(tasks[i].ctx, second) && b in Candidates(tasks[i].ctx, second, Selected(second))
    ensures b in HeldBy(tasks)
  {
    var ctx := tasks[i].ctx;
    HeldIsPart(tasks, i);
    assert ValidTask(Task(ctx, [second], Idle));
    HeldFirst(ctx, second, []);
    if i == j {
      assert tasks[i] == Task(ctx, [first] + [second], Idle);
      HeldFirst(ctx, first, [second]);
    } else {
      assert tasks[i] == Task(ctx, [second] + [], Idle);
      assert [second] + [] == [second];
    }
  }
}
