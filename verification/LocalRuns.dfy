/** What one task sees of a run: its own steps, and pushes of other tasks in between. The
    imperative search is proved to produce only such local runs; every run of the whole machine,
    seen from one task, is one. */
module LocalRuns {
  import opened Common
  import opened KnnHeap
  import opened SearchMachine
  import opened Interleaving
  import Runs

  /** The state of one task together with the shared heap. */
  datatype Moment = Moment(task: Task, heap: Heap)

  ghost predicate OwnStep(k: nat, m: Moment, m': Moment) {
    ValidTask(m.task) && exists out :: TaskStep(k, m.task, m.heap, m'.task, m'.heap, out)
  }

  /** Another task pushes a candidate. */
  ghost predicate ForeignPush(k: nat, m: Moment, m': Moment) {
    m'.task == m.task && exists c: Candidate, out :: c.distance < FLT_MAX && Absorbed(k, m.heap, c, m'.heap, out)
  }

  /** Where a local run starts, and whether the task has the heap to itself. */
  datatype Origin = Origin(moment: Moment, alone: bool)

  ghost predicate LocalNext(k: nat, alone: bool, m: Moment, m': Moment) {
    m' == m || OwnStep(k, m, m') || (!alone && ForeignPush(k, m, m'))
  }

  ghost predicate IsLocalRun(k: nat, alone: bool, run: seq<Moment>) {
    |run| > 0 && forall i :: 0 < i < |run| ==> StepTo(k, alone, run, i)
  }

  ghost predicate StepTo(k: nat, alone: bool, run: seq<Moment>, i: int)
    requires 0 < i < |run|
  {
    LocalNext(k, alone, run[i - 1], run[i])
  }

  /** `b` can be reached by own steps and, unless the task is alone, foreign pushes. */
  ghost predicate Leads(k: nat, a: Origin, b: Moment) {
    exists run :: IsLocalRun(k, a.alone, run) && run[0] == a.moment && run[|run| - 1] == b
  }

  lemma LeadsToItself(k: nat, a: Origin)
    ensures Leads(k, a, a.moment)
  {
    assert IsLocalRun(k, a.alone, [a.moment]) && [a.moment][0] == a.moment;
  }

  lemma LeadsOn(k: nat, a: Origin, b: Moment, c: Moment)
    requires Leads(k, a, b) && LocalNext(k, a.alone, b, c)
    ensures Leads(k, a, c)
  {
    var run :| IsLocalRun(k, a.alone, run) && run[0] == a.moment && run[|run| - 1] == b;
    var longer := run + [c];
    forall i | 0 < i < |longer| ensures StepTo(k, a.alone, longer, i) {
      assert i < |run| ==> StepTo(k, a.alone, run, i);
    }
    assert IsLocalRun(k, a.alone, longer) && longer[|longer| - 1] == c;
  }

  lemma LeadsByOwnStep(k: nat, a: Origin, b: Moment, t': Task, h': Heap, out: Heap)
    requires Leads(k, a, b) && ValidTask(b.task) && TaskStep(k, b.task, b.heap, t', h', out)
    ensures Leads(k, a, Moment(t', h')) && ValidTask(t')
  {
    TaskStepKeepsValid(k, b.task, b.heap, t', h', out);
    assert OwnStep(k, b, Moment(t', h'));
    LeadsOn(k, a, b, Moment(t', h'));
  }

  lemma LeadsByForeignPush(k: nat, a: Origin, b: Moment, c: Candidate, h': Heap, out: Heap)
    requires !a.alone && Leads(k, a, b) && c.distance < FLT_MAX && Absorbed(k, b.heap, c, h', out)
    ensures Leads(k, a, Moment(b.task, h'))
  {
    assert ForeignPush(k, b, Moment(b.task, h'));
    LeadsOn(k, a, b, Moment(b.task, h'));
  }

  /** What task `j` sees of a step of the whole machine. */
  lemma StepSeenByTask(k: nat, s: State, s': State, all: Heap, j: nat)
    requires Inv(k, s, all) && Next(k, s, s') && j < |s.tasks|
    ensures |s'.tasks| == |s.tasks|
    ensures LocalNext(k, false, Moment(s.tasks[j], s.heap), Moment(s'.tasks[j], s'.heap))
  {
    var i, out :| 0 <= i < |s.tasks| && StepOf(k, s, i, s', out);
    var a, b := Moment(s.tasks[j], s.heap), Moment(s'.tasks[j], s'.heap);
    if i == j {
      assert OwnStep(k, a, b);
    } else if s.tasks[i].work.Merging? {
      PushedIsFinite(s.tasks[i]);
      assert ForeignPush(k, a, b);
    } else {
      NotMergingKeepsHeap(k, s.tasks[i], s.heap, s'.tasks[i], s'.heap, out);
    }
  }

  lemma NotMergingKeepsHeap(k: nat, t: Task, h: Heap, t': Task, h': Heap, out: Heap)
    requires ValidTask(t) && TaskStep(k, t, h, t', h', out) && !t.work.Merging?
    ensures h' == h
  {
  }

  /** Task `j` has come from `a` to where it is in `s`. */
  ghost predicate SeenFrom(k: nat, all: Heap, n: nat, j: nat, a: Origin, s: State) {
    Inv(k, s, all) && j < n == |s.tasks| && !a.alone && Leads(k, a, Moment(s.tasks[j], s.heap))
  }

  ghost function Sees(k: nat, all: Heap, n: nat, j: nat, a: Origin): State -> bool {
    (s: State) => SeenFrom(k, all, n, j, a, s)
  }

  lemma StepKeepsSeen(k: nat, all: Heap, n: nat, j: nat, a: Origin, s: State, s': State)
    requires SeenFrom(k, all, n, j, a, s) && Next(k, s, s')
    ensures SeenFrom(k, all, n, j, a, s')
  {
    StepKeepsInv(k, s, s', all);
    StepSeenByTask(k, s, s', all, j);
    LeadsOn(k, a, Moment(s.tasks[j], s.heap), Moment(s'.tasks[j], s'.heap));
  }

  /** Every run of the machine, seen from task `j`, is a local run: what the imperative search is
      proved against covers everything the other tasks can do to it. */
  lemma EveryRunSeenByTask(k: nat, run: seq<State>, all: Heap, j: nat, n: nat)
    requires IsRun(k, run) && Inv(k, run[0], all) && j < |run[0].tasks| && n < |run|
    ensures |run[n].tasks| == |run[0].tasks|
    ensures Leads(k, Origin(Moment(run[0].tasks[j], run[0].heap), false), Moment(run[n].tasks[j], run[n].heap))
  {
    var a, count := Origin(Moment(run[0].tasks[j], run[0].heap), false), |run[0].tasks|;
    LeadsToItself(k, a);
    RunSteps(k, run);
    forall s, s' | Sees(k, all, count, j, a)(s) && NextOf(k)(s, s') ensures Sees(k, all, count, j, a)(s') {
      StepKeepsSeen(k, all, count, j, a, s, s');
    }
    Runs.HoldsAlong(run, NextOf(k), Sees(k, all, count, j, a), n);
  }
}
