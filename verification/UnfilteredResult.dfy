/** What the unfiltered scan returns for any number of row groups: the result of a complete parallel
    search, drained from the shared heap and emitted in chunks. */
module UnfilteredResult {
  import opened Common
  import opened KnnHeap
  import opened SearchMachine
  import opened Interleaving
  import opened Exactness
  import opened SharedHeaps
  import opened Schedules
  import FilteredScan
  import UnfilteredScan

  /** The heap of a complete search, drained: exactly min(k, n) of the n selected vectors in the probed
      clusters, nearest first. */
  lemma DrainedRunCounts(k: nat, run: seq<State>, result: seq<Candidate>)
    requires CompleteRun(k, run) && FilteredScan.IsResult(k, run[|run| - 1].heap, result)
    ensures multiset(result) == Kept(run[|run| - 1].heap)
    ensures CountsRight(k, multiset(result), HeldBy(run[0].tasks)) && SortedByDistance(result)
  {
    var n := |run| - 1;
    InitialInv(k, run[0]);
    RunKeepsInv(k, run, HeldBy(run[0].tasks), n);
    FilteredScan.ResultIsAllKept(k, run[n], HeldBy(run[0].tasks), result);
    EveryRunCounts(k, run);
  }

  /** With faithful thresholds these are the nearest ones. */
  lemma DrainedRunIsNearest(k: nat, run: seq<State>, result: seq<Candidate>, slack: real)
    requires CompleteRun(k, run) && FilteredScan.IsResult(k, run[|run| - 1].heap, result) && slack >= 0.0
    requires AllFaithful(run[0].tasks, HeldBy(run[0].tasks), slack)
    ensures NearestUpTo(k, multiset(result), HeldBy(run[0].tasks), slack) && SortedByDistance(result)
  {
    DrainedRunCounts(k, run, result);
    EveryRunIsNearest(k, run, slack);
  }

  // ---------------------------------------------------------------- the scan and its search

  /** The source operator and the search it starts. */
  datatype Scanning = Scanning(source: UnfilteredScan.State, search: State)

  predicate IsDone(t: Task) {
    t.work.Idle? && t.queue == []
  }

  /** A task that has been scheduled and has not finished makes a step of the search. */
  ghost predicate TaskAdvances(k: nat, s: Scanning, s': Scanning)
    requires ValidTasks(s.search.tasks)
  {
    && s'.source == s.source
    && exists r, out :: r in s.source.running && r < |s.search.tasks| && StepOf(k, s.search, r, s'.search, out)
  }

  /** What the search allows the operator to do: a task finishes when it has dealt with all its clusters,
      and the rows that are stored are drained from the heap. */
  ghost predicate Permits(k: nat, search: State, a: UnfilteredScan.Action) {
    match a
    case FinishTask(r) => r < |search.tasks| && IsDone(search.tasks[r])
    case StoreResult(answer) => Drains(k, search.heap, answer)
    case _ => true
  }

  ghost predicate Drains(k: nat, h: Heap, answer: seq<nat>) {
    exists result :: FilteredScan.IsResult(k, h, result) && answer == RowIds(result)
  }

  ghost predicate SourceAdvances(k: nat, c: UnfilteredScan.Scan, s: Scanning, s': Scanning) {
    && s'.search == s.search
    && exists a :: Permits(k, s.search, a) && UnfilteredScan.Enabled(c, s.source, a)
                   && s'.source == UnfilteredScan.Apply(c, s.source, a)
  }

  ghost predicate Advances(k: nat, c: UnfilteredScan.Scan, s: Scanning, s': Scanning)
    requires ValidTasks(s.search.tasks)
  {
    TaskAdvances(k, s, s') || SourceAdvances(k, c, s, s')
  }

  /** A scan for `k` rows by `nThreads` threads; every row group has a task. */
  ghost predicate IsStart(k: nat, c: UnfilteredScan.Scan, nThreads: nat, s: Scanning) {
    && s.source == UnfilteredScan.Start(nThreads) && Initial(k, s.search)
    && c == UnfilteredScan.Scan(|s.search.tasks|, k)
  }

  ghost predicate AdvancesAt(k: nat, c: UnfilteredScan.Scan, run: seq<Scanning>, i: int)
    requires 0 <= i < |run| - 1
  {
    ValidTasks(run[i].search.tasks) && Advances(k, c, run[i], run[i + 1])
  }

  ghost predicate IsScan(k: nat, c: UnfilteredScan.Scan, nThreads: nat, run: seq<Scanning>) {
    && |run| > 0 && IsStart(k, c, nThreads, run[0])
    && forall i :: 0 <= i < |run| - 1 ==> AdvancesAt(k, c, run, i)
  }

  // ---------------------------------------------------------------- its invariant

  /** A run of the search from `s0` to `s`. */
  ghost predicate SearchReaches(k: nat, s0: State, s: State) {
    exists run :: IsSearch(k, run, s0, s)
  }

  ghost predicate IsSearch(k: nat, run: seq<State>, s0: State, s: State) {
    IsRun(k, run) && |run| > 0 && run[0] == s0 && run[|run| - 1] == s
  }

  ghost predicate SearchedAreDone(s: Scanning) {
    forall r :: r in s.source.searched ==> r < |s.search.tasks| && IsDone(s.search.tasks[r])
  }

  /** The result that has been stored is drained from the heap as it still is. */
  ghost predicate StoredIsDrained(k: nat, s: Scanning) {
    s.source.rowIds.Some? ==> Drains(k, s.search.heap, s.source.rowIds.value)
  }

  ghost predicate ScanInv(k: nat, c: UnfilteredScan.Scan, s0: Scanning, s: Scanning) {
    && UnfilteredScan.Inv(c, s.source) && |s.search.tasks| == c.rowGroups
    && SearchReaches(k, s0.search, s.search) && SearchedAreDone(s) && StoredIsDrained(k, s)
  }

  lemma StartKeepsScan(k: nat, c: UnfilteredScan.Scan, nThreads: nat, s: Scanning)
    requires IsStart(k, c, nThreads, s)
    ensures ScanInv(k, c, s, s)
  {
    UnfilteredScan.StartKeepsInv(c, nThreads);
    assert IsSearch(k, [s.search], s.search, s.search);
  }

  lemma SearchReachesNext(k: nat, s0: State, s: State, s': State)
    requires SearchReaches(k, s0, s) && ValidTasks(s.tasks) && Next(k, s, s')
    ensures SearchReaches(k, s0, s')
  {
    var run :| IsSearch(k, run, s0, s);
    AppendNext(k, run, s');
    assert IsSearch(k, run + [s'], s0, s');
  }

  lemma TaskKeepsScan(k: nat, c: UnfilteredScan.Scan, s0: Scanning, s: Scanning, s': Scanning)
    requires ScanInv(k, c, s0, s) && ValidTasks(s.search.tasks) && TaskAdvances(k, s, s')
    ensures ScanInv(k, c, s0, s')
  {
    var r, out :| r in s.source.running && r < |s.search.tasks| && StepOf(k, s.search, r, s'.search, out);
    SearchReachesNext(k, s0.search, s.search, s'.search);
    assert UnfilteredScan.TasksInv(c, s.source) && UnfilteredScan.FinishInv(c, s.source);
    assert r !in s.source.searched;
  }

  lemma SourceKeepsDone(k: nat, c: UnfilteredScan.Scan, s: Scanning, a: UnfilteredScan.Action,
                        source: UnfilteredScan.State)
    requires SearchedAreDone(s) && Permits(k, s.search, a) && UnfilteredScan.Enabled(c, s.source, a)
    requires source == UnfilteredScan.Apply(c, s.source, a)
    ensures SearchedAreDone(Scanning(source, s.search))
  {
  }

  lemma SourceKeepsStored(k: nat, c: UnfilteredScan.Scan, s: Scanning, a: UnfilteredScan.Action,
                          source: UnfilteredScan.State)
    requires StoredIsDrained(k, s) && Permits(k, s.search, a) && UnfilteredScan.Enabled(c, s.source, a)
    requires source == UnfilteredScan.Apply(c, s.source, a)
    ensures StoredIsDrained(k, Scanning(source, s.search))
  {
  }

  lemma SourceKeepsScan(k: nat, c: UnfilteredScan.Scan, s0: Scanning, s: Scanning, s': Scanning)
    requires ScanInv(k, c, s0, s) && SourceAdvances(k, c, s, s')
    ensures ScanInv(k, c, s0, s')
  {
    var a :| Permits(k, s.search, a) && UnfilteredScan.Enabled(c, s.source, a)
             && s'.source == UnfilteredScan.Apply(c, s.source, a);
    assert UnfilteredScan.Steps(c, s.source, s'.source);
    UnfilteredScan.StepKeepsInv(c, s.source, s'.source);
    SourceKeepsDone(k, c, s, a, s'.source);
    SourceKeepsStored(k, c, s, a, s'.source);
  }

  lemma {:induction false} EveryScanIsSound(k: nat, c: UnfilteredScan.Scan, nThreads: nat, run: seq<Scanning>, i: nat)
    requires IsScan(k, c, nThreads, run) && i < |run|
    ensures ScanInv(k, c, run[0], run[i])
    decreases i
  {
    if i == 0 {
      StartKeepsScan(k, c, nThreads, run[0]);
    } else {
      EveryScanIsSound(k, c, nThreads, run, i - 1);
      assert AdvancesAt(k, c, run, i - 1);
      if TaskAdvances(k, run[i - 1], run[i]) {
        TaskKeepsScan(k, c, run[0], run[i - 1], run[i]);
      } else {
        SourceKeepsScan(k, c, run[0], run[i - 1], run[i]);
      }
    }
  }

  // ---------------------------------------------------------------- what it guarantees

  /** Once a result is stored the search is complete. */
  lemma StoredAfterSearch(k: nat, c: UnfilteredScan.Scan, s0: Scanning, s: Scanning)
    requires ScanInv(k, c, s0, s) && s.source.rowIds.Some?
    ensures Done(s.search)
  {
    assert UnfilteredScan.TasksInv(c, s.source) && UnfilteredScan.FinishInv(c, s.source);
    forall r | 0 <= r < |s.search.tasks| ensures IsDone(s.search.tasks[r]) {
      assert r in s.source.running + s.source.searched;
    }
  }

  /** The stored rows are those of a complete search of all row groups: exactly min(k, n) of the n selected
      vectors in the probed clusters, nearest first, and without loss the nearest. */
  lemma StoredIsResult(k: nat, c: UnfilteredScan.Scan, s0: Scanning, s: Scanning) returns (result: seq<Candidate>)
    requires ScanInv(k, c, s0, s) && Initial(k, s0.search) && s.source.rowIds.Some?
    ensures s.source.rowIds.value == RowIds(result)
    ensures IsScanResult(k, s0.search.tasks, result)
  {
    StoredAfterSearch(k, c, s0, s);
    var search :| IsSearch(k, search, s0.search, s.search);
    result :| FilteredScan.IsResult(k, s.search.heap, result) && s.source.rowIds.value == RowIds(result);
    DrainedRunCounts(k, search, result);
    assert |multiset(result)| == |result|;
    if LosslessTasks(s0.search.tasks) && CommonUnits(s0.search.tasks) {
      ParallelSearchIsExact(k, search);
    }
  }

  ghost predicate IsScanResult(k: nat, tasks: seq<Task>, result: seq<Candidate>)
    requires ValidTasks(tasks)
  {
    && multiset(result) <= HeldBy(tasks) && |result| == Min(k, |HeldBy(tasks)|)
    && (forall i, j :: 0 <= i < j < |result| ==> result[i].distance <= result[j].distance)
    && (LosslessTasks(tasks) && CommonUnits(tasks) ==> NearestUpTo(k, multiset(result), HeldBy(tasks), 0.0))
  }

  /** Whatever the threads, the tasks and the finishing event do in whatever order: a result is stored only
      when the task of every row group has dealt with all its clusters, what has been emitted is the first
      part of its rows in order, and all of them once a thread has been told that the source is exhausted. */
  lemma ScanEmitsResult(k: nat, c: UnfilteredScan.Scan, nThreads: nat, run: seq<Scanning>, i: nat)
      returns (result: seq<Candidate>)
    requires IsScan(k, c, nThreads, run) && i < |run|
    ensures run[i].source.rowIds.None? ==> run[i].source.emitted == []
    ensures run[i].source.rowIds.Some? ==>
              && (forall r :: 0 <= r < |run[i].search.tasks| ==>
                    run[i].search.tasks[r].work.Idle? && run[i].search.tasks[r].queue == [])
              && |run[i].search.tasks| == |run[0].search.tasks|
              && IsScanResult(k, run[0].search.tasks, result)
              && UnfilteredScan.Concat(run[i].source.emitted) <= RowIds(result)
    ensures (exists t :: 0 <= t < |run[i].source.threads| && run[i].source.threads[t].Done?) ==>
              run[i].source.rowIds.Some? && UnfilteredScan.Concat(run[i].source.emitted) == RowIds(result)
  {
    result := [];
    EveryScanIsSound(k, c, nThreads, run, i);
    UnfilteredScan.SoundIsInOrder(c, run[i].source);
    if run[i].source.rowIds.Some? {
      StoredAfterSearch(k, c, run[0], run[i]);
      result := StoredIsResult(k, c, run[0], run[i]);
    }
  }

  // ---------------------------------------------------------------- progress

  lemma InvOfReached(k: nat, s0: State, s: State)
    requires Initial(k, s0) && SearchReaches(k, s0, s)
    ensures Inv(k, s, HeldBy(s0.tasks))
  {
    var run :| IsSearch(k, run, s0, s);
    InitialInv(k, s0);
    RunKeepsInv(k, run, HeldBy(s0.tasks), |run| - 1);
  }

  lemma TaskGoesOn(k: nat, s: Scanning, r: nat, all: Heap)
    requires Inv(k, s.search, all) && r in s.source.running && r < |s.search.tasks|
    requires !IsDone(s.search.tasks[r])
    ensures exists s' :: TaskAdvances(k, s, s')
  {
    var t', h', out := TaskCanStep(k, s.search.tasks[r], s.search.heap);
    var search := State(h', s.search.tasks[r := t'], s.search.lost + out);
    assert StepOf(k, s.search, r, search, out);
    assert TaskAdvances(k, s, Scanning(s.source, search));
  }

  lemma SourceGoesOn(k: nat, c: UnfilteredScan.Scan, s: Scanning, a: UnfilteredScan.Action)
    requires UnfilteredScan.Enabled(c, s.source, a) && Permits(k, s.search, a)
    ensures exists s' :: SourceAdvances(k, c, s, s')
  {
    assert SourceAdvances(k, c, s, Scanning(UnfilteredScan.Apply(c, s.source, a), s.search));
  }

  lemma ResultCanBeStored(k: nat, c: UnfilteredScan.Scan, s: Scanning, all: Heap)
    requires Inv(k, s.search, all) && c.limit == k && UnfilteredScan.Enabled(c, s.source, UnfilteredScan.StoreResult([]))
    ensures exists s' :: SourceAdvances(k, c, s, s')
  {
    var result := FilteredScan.ResultExists(k, s.search, all);
    assert |RowIds(result)| <= k;
    assert Drains(k, s.search.heap, RowIds(result));
    SourceGoesOn(k, c, s, UnfilteredScan.StoreResult(RowIds(result)));
  }

  lemma SoundGoesOn(k: nat, c: UnfilteredScan.Scan, s: Scanning, t: nat, all: Heap)
    requires UnfilteredScan.Inv(c, s.source) && Inv(k, s.search, all) && c == UnfilteredScan.Scan(|s.search.tasks|, k)
    requires t < |s.source.threads| && !s.source.threads[t].Done?
    ensures exists s' :: Advances(k, c, s, s')
  {
    var a := UnfilteredScan.ProgressOf(c, s.source, t);
    ActionGoesOn(k, c, s, a, all);
  }

  lemma ActionGoesOn(k: nat, c: UnfilteredScan.Scan, s: Scanning, a: UnfilteredScan.Action, all: Heap)
    requires Inv(k, s.search, all) && c.limit == k && UnfilteredScan.Enabled(c, s.source, a)
    requires a.FinishTask? ==> a.r < |s.search.tasks|
    ensures exists s' :: Advances(k, c, s, s')
  {
    if a.FinishTask? && !IsDone(s.search.tasks[a.r]) {
      TaskGoesOn(k, s, a.r, all);
      var s' :| TaskAdvances(k, s, s');
      assert Advances(k, c, s, s');
    } else {
      if a.StoreResult? {
        ResultCanBeStored(k, c, s, all);
      } else {
        SourceGoesOn(k, c, s, a);
      }
      var s' :| SourceAdvances(k, c, s, s');
      assert Advances(k, c, s, s');
    }
  }

  /** As long as some thread has not been told that the source is exhausted, a step is possible. */
  lemma ScanNeverStuck(k: nat, c: UnfilteredScan.Scan, nThreads: nat, run: seq<Scanning>, i: nat)
    requires IsScan(k, c, nThreads, run) && i < |run| && !UnfilteredScan.Finished(run[i].source)
    ensures ValidTasks(run[i].search.tasks) && exists s' :: Advances(k, c, run[i], s')
  {
    EveryScanIsSound(k, c, nThreads, run, i);
    InvOfReached(k, run[0].search, run[i].search);
    var t :| 0 <= t < |run[i].source.threads| && !run[i].source.threads[t].Done?;
    SoundGoesOn(k, c, run[i], t, HeldBy(run[0].search.tasks));
  }

  ghost function ScanMeasure(c: UnfilteredScan.Scan, s: Scanning): int
    requires ValidTasks(s.search.tasks)
  {
    UnfilteredScan.Measure(c, s.source) + Measure(s.search.tasks)
  }

  lemma AdvancesDescends(k: nat, c: UnfilteredScan.Scan, s: Scanning, s': Scanning)
    requires ValidTasks(s.search.tasks) && UnfilteredScan.Inv(c, s.source) && Advances(k, c, s, s')
    ensures ValidTasks(s'.search.tasks) && ScanMeasure(c, s') < ScanMeasure(c, s)
  {
    if TaskAdvances(k, s, s') {
      StepProgresses(k, s.search, s'.search);
    } else {
      var a :| Permits(k, s.search, a) && UnfilteredScan.Enabled(c, s.source, a)
               && s'.source == UnfilteredScan.Apply(c, s.source, a);
      UnfilteredScan.StepDescends(c, s.source, a);
    }
  }

  lemma SourceIsSound(k: nat, c: UnfilteredScan.Scan, nThreads: nat, run: seq<Scanning>, i: nat)
    requires IsScan(k, c, nThreads, run) && i < |run|
    ensures UnfilteredScan.Inv(c, run[i].source)
  {
    EveryScanIsSound(k, c, nThreads, run, i);
  }

  lemma DescendsAt(k: nat, c: UnfilteredScan.Scan, nThreads: nat, run: seq<Scanning>, i: nat)
    requires IsScan(k, c, nThreads, run) && i < |run| - 1
    ensures ValidTasks(run[i].search.tasks) && ValidTasks(run[i + 1].search.tasks)
    ensures ScanMeasure(c, run[i + 1]) < ScanMeasure(c, run[i])
  {
    SourceIsSound(k, c, nThreads, run, i);
    assert AdvancesAt(k, c, run, i);
    AdvancesDescends(k, c, run[i], run[i + 1]);
  }

  lemma {:induction false} ScanDescends(k: nat, c: UnfilteredScan.Scan, nThreads: nat, run: seq<Scanning>, i: nat)
    requires IsScan(k, c, nThreads, run) && i < |run|
    ensures ValidTasks(run[0].search.tasks) && ValidTasks(run[i].search.tasks)
    ensures i + ScanMeasure(c, run[i]) <= ScanMeasure(c, run[0])
    decreases i
  {
    if i > 0 {
      ScanDescends(k, c, nThreads, run, i - 1);
      DescendsAt(k, c, nThreads, run, i - 1);
    }
  }

  /** No scan goes on forever, so by ScanNeverStuck and ScanEmitsResult every one that is continued as long
      as possible emits a whole result. */
  lemma EveryScanEnds(k: nat, c: UnfilteredScan.Scan, nThreads: nat, run: seq<Scanning>)
    requires IsScan(k, c, nThreads, run)
    ensures ValidTasks(run[0].search.tasks)
    ensures |run| <= 15 * nThreads + 6 * k + |run[0].search.tasks| + 5 + Measure(run[0].search.tasks)
  {
    var n := |run| - 1;
    ScanDescends(k, c, nThreads, run, n);
    EveryScanIsSound(k, c, nThreads, run, n);
    UnfilteredScan.MeasureIsNatural(c, run[n].source);
    UnfilteredScan.RanksAtStart(UnfilteredScan.Start(nThreads).threads);
  }
}
