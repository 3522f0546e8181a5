/** The unfiltered index scan as a source operator: any number of threads call GetData, the first one
    starts the search, calls block until the search has finished and then emit its result in chunks.
    Every atomic access, every acquisition of the lock and every use of the shared state under the lock
    is a step of its own, and the steps of all threads and of the search interleave freely. The rows the
    search leaves in the heap are open here; `UnfilteredResult` adds the search itself. */
module UnfilteredScan {

  const STANDARD_VECTOR_SIZE := 2048

  type Row = nat

  datatype Option<T> = None | Some(value: T)

  /** Where a thread is: about to call GetData, in one of its parts, blocked, or told that the source
      is exhausted. */
  datatype Thread = Entering | Scheduling | Locking | Checking | Advancing(chunk: seq<Row>) | Blocked | Done

  /** How far FinishEvent is. */
  datatype Finish = Pending | Stored | Completed | Locked | Unblocked

  datatype Owner = Free | ByThread(t: nat) | ByFinisher

  /** The number of row groups and the limit on the rows of the result. */
  datatype Scan = Scan(rowGroups: nat, limit: nat)

  /** `running` and `searched`: the row groups whose tasks have been scheduled but have not finished, and
      those whose tasks have finished. */
  datatype State = State(
    started: bool,
    completed: bool,
    rowIds: Option<seq<Row>>,
    rowIdsIdx: nat,
    owner: Owner,
    blocked: set<nat>,
    threads: seq<Thread>,
    events: nat,
    running: set<nat>,
    searched: set<nat>,
    finish: Finish,
    emitted: seq<seq<Row>>)

  datatype Action =
    | Exchange(t: nat) | Schedule(t: nat) | Acquire(t: nat) | Check(t: nat) | Advance(t: nat)
    | FinishTask(r: nat) | StoreResult(answer: seq<Row>) | SetCompleted | LockToUnblock | Unblock

  // ---------------------------------------------------------------- steps

  predicate At(s: State, t: nat, where: Thread) {
    t < |s.threads| && s.threads[t] == where
  }

  predicate Enabled(c: Scan, s: State, a: Action) {
    match a
    case Exchange(t) => At(s, t, Entering)
    case Schedule(t) => At(s, t, Scheduling)
    case Acquire(t) => At(s, t, Locking) && s.owner.Free?
    case Check(t) => At(s, t, Checking)
    case Advance(t) => t < |s.threads| && s.threads[t].Advancing?
    case FinishTask(r) => r in s.running
    case StoreResult(answer) => s.events > 0 && s.running == {} && s.finish.Pending? && |answer| <= c.limit
    case SetCompleted => s.finish.Stored?
    case LockToUnblock => s.finish.Completed? && s.owner.Free?
    case Unblock => s.finish.Locked?
  }

  function Put(s: State, t: nat, where: Thread): (threads: seq<Thread>)
    requires t < |s.threads|
    ensures |threads| == |s.threads|
  {
    s.threads[t := where]
  }

  function Rows(s: State): seq<Row> {
    if s.rowIds.Some? then s.rowIds.value else []
  }

  /** The rows the next call hands out. */
  function NextChunk(s: State): seq<Row> {
    var left := |Rows(s)| - s.rowIdsIdx;
    if left <= 0 then [] else Rows(s)[s.rowIdsIdx..][..if left < STANDARD_VECTOR_SIZE then left else STANDARD_VECTOR_SIZE]
  }

  /** What a call does under the lock: block, report the end, or copy the next chunk. */
  function Checked(s: State, t: nat): State
    requires t < |s.threads|
  {
    if !s.completed then
      s.(blocked := s.blocked + {t}, threads := Put(s, t, Blocked), owner := Free)
    else if NextChunk(s) == [] then
      s.(threads := Put(s, t, Done), owner := Free)
    else
      s.(threads := Put(s, t, Advancing(NextChunk(s))))
  }

  function Advanced(s: State, t: nat): State
    requires t < |s.threads| && s.threads[t].Advancing?
  {
    var chunk := s.threads[t].chunk;
    s.(rowIdsIdx := s.rowIdsIdx + |chunk|, emitted := s.emitted + [chunk], threads := Put(s, t, Entering), owner := Free)
  }

  /** The blocked calls return and will be made again. */
  function Woken(threads: seq<Thread>, blocked: set<nat>): (r: seq<Thread>)
    ensures |r| == |threads|
    ensures forall t :: 0 <= t < |threads| ==> r[t] == if t in blocked then Entering else threads[t]
  {
    seq(|threads|, t requires 0 <= t < |threads| => if t in blocked then Entering else threads[t])
  }

  /** A task for every row group. */
  function Tasks(rowGroups: nat): (tasks: set<nat>)
    ensures forall r: nat :: r in tasks <==> r < rowGroups
    ensures |tasks| == rowGroups
  {
    if rowGroups == 0 then {} else Tasks(rowGroups - 1) + {rowGroups - 1}
  }

  function Apply(c: Scan, s: State, a: Action): State
    requires Enabled(c, s, a)
  {
    match a
    case Exchange(t) => s.(started := true, threads := Put(s, t, if s.started then Locking else Scheduling))
    case Schedule(t) =>
      s.(events := s.events + 1, running := s.running + Tasks(c.rowGroups), threads := Put(s, t, Locking))
    case Acquire(t) => s.(owner := ByThread(t), threads := Put(s, t, Checking))
    case Check(t) => Checked(s, t)
    case Advance(t) => Advanced(s, t)
    case FinishTask(r) => s.(running := s.running - {r}, searched := s.searched + {r})
    case StoreResult(answer) => s.(rowIds := Some(answer), finish := Stored)
    case SetCompleted => s.(completed := true, finish := Completed)
    case LockToUnblock => s.(owner := ByFinisher, finish := Locked)
    case Unblock => s.(threads := Woken(s.threads, s.blocked), blocked := {}, owner := Free, finish := Unblocked)
  }

  function Start(nThreads: nat): State {
    State(false, false, None, 0, Free, {}, seq(nThreads, t => Entering), 0, {}, {}, Pending, [])
  }

  ghost predicate IsRun(c: Scan, nThreads: nat, run: seq<State>) {
    && |run| > 0 && run[0] == Start(nThreads)
    && forall i :: 0 <= i < |run| - 1 ==> StepsAt(c, run, i)
  }

  ghost predicate StepsAt(c: Scan, run: seq<State>, i: int)
    requires 0 <= i < |run| - 1
  {
    Steps(c, run[i], run[i + 1])
  }

  ghost predicate Steps(c: Scan, s: State, s': State) {
    exists a :: Enabled(c, s, a) && s' == Apply(c, s, a)
  }

  // ---------------------------------------------------------------- the invariant

  function Concat(chunks: seq<seq<Row>>): seq<Row> {
    if chunks == [] then [] else Concat(chunks[..|chunks| - 1]) + chunks[|chunks| - 1]
  }

  predicate HoldsLock(where: Thread) {
    where.Checking? || where.Advancing?
  }

  ghost predicate LockInv(s: State) {
    && (forall t :: 0 <= t < |s.threads| ==> (HoldsLock(s.threads[t]) <==> s.owner == ByThread(t)))
    && (s.owner.ByThread? ==> s.owner.t < |s.threads|)
    && (s.owner.ByFinisher? <==> s.finish.Locked?)
  }

  /** The search is started by the one thread that found the flag unset. */
  ghost predicate StartInv(s: State) {
    && s.events <= 1 && (s.events == 1 ==> s.started)
    && (!s.started ==> forall t :: 0 <= t < |s.threads| ==> s.threads[t].Entering?)
    && (s.started && s.events == 0 ==> exists t :: 0 <= t < |s.threads| && s.threads[t].Scheduling?)
    && (forall t :: 0 <= t < |s.threads| && s.threads[t].Scheduling? ==> s.events == 0)
    && (forall t, u :: 0 <= t < u < |s.threads| ==> !(s.threads[t].Scheduling? && s.threads[u].Scheduling?))
  }

  ghost predicate FinishInv(c: Scan, s: State) {
    && (s.completed <==> s.finish.Completed? || s.finish.Locked? || s.finish.Unblocked?)
    && (s.rowIds.None? <==> s.finish.Pending?) && |Rows(s)| <= c.limit
    && (!s.finish.Pending? ==> s.events == 1 && s.running == {})
  }

  /** From its start on the search deals with all row groups, each of them once. */
  ghost predicate TasksInv(c: Scan, s: State) {
    && s.running !! s.searched
    && s.running + s.searched == if s.events == 0 then {} else Tasks(c.rowGroups)
  }

  ghost predicate BlockedInv(s: State) {
    && (forall t :: t in s.blocked ==> t < |s.threads|)
    && (forall t :: 0 <= t < |s.threads| ==> (t in s.blocked <==> s.threads[t].Blocked?))
    && (s.finish.Unblocked? ==> s.blocked == {})
  }

  /** What has been emitted is the result up to the cursor, and a chunk in flight continues it. */
  ghost predicate EmitInv(s: State) {
    && s.rowIdsIdx <= |Rows(s)| && Concat(s.emitted) == Rows(s)[..s.rowIdsIdx]
    && (forall t :: 0 <= t < |s.threads| && s.threads[t].Advancing? ==>
          s.completed && s.threads[t].chunk != [] && s.threads[t].chunk <= Rows(s)[s.rowIdsIdx..])
    && (forall t :: 0 <= t < |s.threads| && s.threads[t].Done? ==> s.completed && s.rowIdsIdx == |Rows(s)|)
  }

  /** All chunks are full, but for one that ends the result. */
  ghost predicate ChunkInv(s: State) {
    && (forall t :: 0 <= t < |s.threads| && s.threads[t].Advancing? ==>
          IsChunk(s.threads[t].chunk, |Rows(s)| - s.rowIdsIdx))
    && (forall i :: 0 <= i < |s.emitted| - 1 ==> |s.emitted[i]| == STANDARD_VECTOR_SIZE)
    && (s.emitted != [] ==> IsChunk(s.emitted[|s.emitted| - 1],
                                    |Rows(s)| - s.rowIdsIdx + |s.emitted[|s.emitted| - 1]|))
  }

  predicate IsChunk(chunk: seq<Row>, left: int) {
    |chunk| > 0 && |chunk| == if left < STANDARD_VECTOR_SIZE then left else STANDARD_VECTOR_SIZE
  }

  ghost predicate Inv(c: Scan, s: State) {
    && LockInv(s) && StartInv(s) && FinishInv(c, s) && TasksInv(c, s) && BlockedInv(s) && EmitInv(s)
    && ChunkInv(s)
  }

  lemma StepKeepsLock(c: Scan, s: State, a: Action)
    requires LockInv(s) && BlockedInv(s) && Enabled(c, s, a)
    ensures LockInv(Apply(c, s, a))
  {
  }

  lemma StepKeepsFinish(c: Scan, s: State, a: Action)
    requires StartInv(s) && FinishInv(c, s) && Enabled(c, s, a)
    ensures FinishInv(c, Apply(c, s, a))
  {
  }

  lemma StepKeepsBlocked(c: Scan, s: State, a: Action)
    requires FinishInv(c, s) && BlockedInv(s) && Enabled(c, s, a)
    ensures BlockedInv(Apply(c, s, a))
  {
  }

  lemma StepKeepsStart(c: Scan, s: State, a: Action)
    requires StartInv(s) && BlockedInv(s) && Enabled(c, s, a)
    ensures StartInv(Apply(c, s, a))
  {
    var s' := Apply(c, s, a);
    if a.Exchange? && !s.started {
      assert s'.threads[a.t].Scheduling?;
    } else if s.started && s.events == 0 && !a.Schedule? {
      var t :| 0 <= t < |s.threads| && s.threads[t].Scheduling?;
      assert s'.threads[t].Scheduling?;
    }
  }

  lemma StepKeepsTasks(c: Scan, s: State, a: Action)
    requires StartInv(s) && TasksInv(c, s) && Enabled(c, s, a)
    ensures TasksInv(c, Apply(c, s, a))
  {
    match a
    case Schedule(t) => ScheduleKeepsTasks(c, s, t);
    case FinishTask(r) => MoveTask(s.running, s.searched, r);
    case _ => assert Apply(c, s, a).running == s.running && Apply(c, s, a).searched == s.searched;
  }

  lemma ScheduleKeepsTasks(c: Scan, s: State, t: nat)
    requires StartInv(s) && TasksInv(c, s) && At(s, t, Scheduling)
    ensures TasksInv(c, Apply(c, s, Schedule(t)))
  {
    assert s.running + s.searched == {};
    assert s.running == {} && s.searched == {};
  }

  lemma MoveTask(running: set<nat>, searched: set<nat>, r: nat)
    requires running !! searched && r in running
    ensures (running - {r}) !! (searched + {r}) && (running - {r}) + (searched + {r}) == running + searched
  {
  }

  lemma StepKeepsEmit(c: Scan, s: State, a: Action)
    requires Inv(c, s) && Enabled(c, s, a)
    ensures EmitInv(Apply(c, s, a))
  {
    if a.Advance? {
      AdvanceKeepsEmit(s, a.t);
    } else if a.Check? {
      CheckKeepsEmit(c, s, a.t);
    }
  }

  lemma StepKeepsChunks(c: Scan, s: State, a: Action)
    requires Inv(c, s) && Enabled(c, s, a)
    ensures ChunkInv(Apply(c, s, a))
  {
    if a.Advance? {
      AdvanceKeepsChunks(s, a.t);
    } else if a.Check? {
      CheckKeepsChunks(s, a.t);
    } else if a.StoreResult? {
      StoreKeepsChunks(c, s, a);
    } else {
      OtherKeepsChunks(s, Apply(c, s, a));
    }
  }

  lemma CheckKeepsChunks(s: State, t: nat)
    requires ChunkInv(s) && t < |s.threads|
    ensures ChunkInv(Checked(s, t))
  {
  }

  lemma AdvanceKeepsChunks(s: State, t: nat)
    requires LockInv(s) && EmitInv(s) && ChunkInv(s) && t < |s.threads| && s.threads[t].Advancing?
    requires s.emitted != [] ==> |s.emitted[|s.emitted| - 1]| == STANDARD_VECTOR_SIZE
    ensures ChunkInv(Advanced(s, t))
  {
  }

  /** Nothing has been emitted before there is a result. */
  lemma StoreKeepsChunks(c: Scan, s: State, a: Action)
    requires FinishInv(c, s) && EmitInv(s) && ChunkInv(s) && Enabled(c, s, a) && a.StoreResult?
    ensures ChunkInv(Apply(c, s, a))
  {
    NothingEmitted(s);
  }

  lemma NothingEmitted(s: State)
    requires EmitInv(s) && ChunkInv(s) && s.rowIds.None?
    ensures s.emitted == []
  {
  }

  lemma OtherKeepsChunks(s: State, s': State)
    requires ChunkInv(s) && s'.rowIds == s.rowIds && s'.rowIdsIdx == s.rowIdsIdx && s'.emitted == s.emitted
    requires |s'.threads| == |s.threads|
    requires forall t :: 0 <= t < |s.threads| ==> s'.threads[t] == s.threads[t] || !s'.threads[t].Advancing?
    ensures ChunkInv(s')
  {
  }

  lemma CheckKeepsEmit(c: Scan, s: State, t: nat)
    requires FinishInv(c, s) && EmitInv(s) && Enabled(c, s, Check(t))
    ensures EmitInv(Checked(s, t))
  {
  }

  lemma AdvanceKeepsEmit(s: State, t: nat)
    requires LockInv(s) && EmitInv(s) && t < |s.threads| && s.threads[t].Advancing?
    ensures EmitInv(Advanced(s, t))
  {
    var s', chunk := Advanced(s, t), s.threads[t].chunk;
    EmittedOneMore(s.emitted, chunk, Rows(s), s.rowIdsIdx);
    assert s'.emitted == s.emitted + [chunk];
  }

  lemma EmittedOneMore(emitted: seq<seq<Row>>, chunk: seq<Row>, answer: seq<Row>, i: nat)
    requires i <= |answer| && chunk <= answer[i..] && Concat(emitted) == answer[..i]
    ensures i + |chunk| <= |answer| && Concat(emitted + [chunk]) == answer[..i + |chunk|]
  {
    assert (emitted + [chunk])[..|emitted|] == emitted;
    assert answer[..i + |chunk|] == answer[..i] + chunk;
  }

  lemma StartKeepsInv(c: Scan, nThreads: nat)
    ensures Inv(c, Start(nThreads))
  {
  }

  lemma StepKeepsInv(c: Scan, s: State, s': State)
    requires Inv(c, s) && Steps(c, s, s')
    ensures Inv(c, s') && |s'.threads| == |s.threads|
  {
    var a :| Enabled(c, s, a) && s' == Apply(c, s, a);
    ActionKeepsInv(c, s, a);
  }

  lemma ActionKeepsInv(c: Scan, s: State, a: Action)
    requires Inv(c, s) && Enabled(c, s, a)
    ensures Inv(c, Apply(c, s, a)) && |Apply(c, s, a).threads| == |s.threads|
  {
    StepKeepsLock(c, s, a);
    StepKeepsStart(c, s, a);
    StepKeepsFinish(c, s, a);
    StepKeepsBlocked(c, s, a);
    StepKeepsTasks(c, s, a);
    StepKeepsEmit(c, s, a);
    StepKeepsChunks(c, s, a);
  }

  lemma {:induction false} EveryStateIsSound(c: Scan, nThreads: nat, run: seq<State>, i: nat)
    requires IsRun(c, nThreads, run) && i < |run|
    ensures Inv(c, run[i]) && |run[i].threads| == nThreads
  {
    if i == 0 {
      StartKeepsInv(c, nThreads);
    } else {
      EveryStateIsSound(c, nThreads, run, i - 1);
      assert StepsAt(c, run, i - 1);
      StepKeepsInv(c, run[i - 1], run[i]);
    }
  }

  // ---------------------------------------------------------------- what every run guarantees

  /** Whatever the interleaving, at most one search event is ever scheduled. */
  lemma SearchStartsAtMostOnce(c: Scan, nThreads: nat, run: seq<State>, i: nat)
    requires IsRun(c, nThreads, run) && i < |run|
    ensures run[i].events <= 1
  {
    EveryStateIsSound(c, nThreads, run, i);
  }

  /** The result is stored only after every row group has been searched. */
  lemma AllRowGroupsSearched(c: Scan, nThreads: nat, run: seq<State>, i: nat)
    requires IsRun(c, nThreads, run) && i < |run| && run[i].rowIds.Some?
    ensures forall r: nat :: r < c.rowGroups <==> r in run[i].searched
    ensures run[i].running == {}
  {
    EveryStateIsSound(c, nThreads, run, i);
    var s := run[i];
    assert TasksInv(c, s) && FinishInv(c, s);
    forall r: nat ensures r < c.rowGroups <==> r in s.searched {
      assert r in s.running + s.searched <==> r in Tasks(c.rowGroups);
    }
  }

  /** Step `j` of the run is the end of the task of row group `r`, and of no other. */
  ghost predicate FinishesAt(run: seq<State>, j: nat, r: nat)
    requires j + 1 < |run|
  {
    r !in run[j].searched && run[j + 1].searched == run[j].searched + {r}
  }

  lemma SearchedOnly(c: Scan, s: State, s': State, r: nat)
    requires Steps(c, s, s') && r in s'.searched && r !in s.searched
    ensures s'.searched == s.searched + {r}
  {
  }

  lemma {:induction false} StaysSearched(c: Scan, nThreads: nat, run: seq<State>, i: nat, j: nat)
    requires IsRun(c, nThreads, run) && i <= j < |run|
    ensures run[i].searched <= run[j].searched
    decreases j
  {
    if i < j {
      StaysSearched(c, nThreads, run, i, j - 1);
      assert StepsAt(c, run, j - 1);
    }
  }

  /** Up to a state in which the result is stored, the task of every row group has finished in exactly one
      step of its own. */
  lemma EachRowGroupOnce(c: Scan, nThreads: nat, run: seq<State>, i: nat, r: nat) returns (j: nat)
    requires IsRun(c, nThreads, run) && i < |run| && run[i].rowIds.Some? && r < c.rowGroups
    ensures j < i && FinishesAt(run, j, r)
    ensures forall j' :: 0 <= j' < |run| - 1 && FinishesAt(run, j', r) ==> j' == j
  {
    AllRowGroupsSearched(c, nThreads, run, i);
    j := FinishOf(c, nThreads, run, i, r);
    forall j' | 0 <= j' < |run| - 1 && FinishesAt(run, j', r) ensures j' == j {
      if j' < j {
        StaysSearched(c, nThreads, run, j' + 1, j);
      } else if j < j' {
        StaysSearched(c, nThreads, run, j + 1, j');
      }
    }
  }

  lemma {:induction false} FinishOf(c: Scan, nThreads: nat, run: seq<State>, i: nat, r: nat) returns (j: nat)
    requires IsRun(c, nThreads, run) && i < |run| && r in run[i].searched
    ensures j < i && FinishesAt(run, j, r)
    decreases i
  {
    if r in run[i - 1].searched {
      j := FinishOf(c, nThreads, run, i - 1, r);
    } else {
      j := i - 1;
      assert StepsAt(c, run, j);
      SearchedOnly(c, run[j], run[i], r);
    }
  }

  /** A call that gets past the check finds every row group searched, the result stored and the cursor
      within it, and no other call is at the result at the same time. */
  lemma ResultIsThereWhenRead(c: Scan, nThreads: nat, run: seq<State>, i: nat, t: nat)
    requires IsRun(c, nThreads, run) && i < |run|
    requires t < nThreads && |run[i].threads| == nThreads && HoldsLock(run[i].threads[t]) && run[i].completed
    ensures forall r: nat :: r < c.rowGroups <==> r in run[i].searched
    ensures run[i].rowIds.Some? && run[i].rowIdsIdx <= |run[i].rowIds.value|
    ensures forall u :: 0 <= u < nThreads && u != t ==> !HoldsLock(run[i].threads[u])
  {
    EveryStateIsSound(c, nThreads, run, i);
    AllRowGroupsSearched(c, nThreads, run, i);
  }

  /** Once the search has unblocked the waiting calls, no call is blocked, then or later. */
  lemma NobodyStaysBlocked(c: Scan, nThreads: nat, run: seq<State>, i: nat)
    requires IsRun(c, nThreads, run) && i < |run| && run[i].finish.Unblocked?
    ensures forall t :: 0 <= t < |run[i].threads| ==> !run[i].threads[t].Blocked?
  {
    EveryStateIsSound(c, nThreads, run, i);
  }

  /** What has been emitted is always the first part of the stored result, in order, in chunks that are
      full but for the last; when a thread has been told that the source is exhausted, it is all of it. */
  lemma EmittedInOrder(c: Scan, nThreads: nat, run: seq<State>, i: nat)
    requires IsRun(c, nThreads, run) && i < |run|
    ensures InOrder(run[i])
    ensures forall j :: 0 <= j < |run[i].emitted| ==>
              0 < |run[i].emitted[j]| <= 2048 && (j < |run[i].emitted| - 1 ==> |run[i].emitted[j]| == 2048)
  {
    EveryStateIsSound(c, nThreads, run, i);
    SoundIsInOrder(c, run[i]);
  }

  ghost predicate InOrder(s: State) {
    && (s.rowIds.None? ==> s.emitted == [])
    && (s.rowIds.Some? ==> Concat(s.emitted) <= s.rowIds.value)
    && ((exists t :: 0 <= t < |s.threads| && s.threads[t].Done?) ==> s.rowIds == Some(Concat(s.emitted)))
  }

  lemma SoundIsInOrder(c: Scan, s: State)
    requires Inv(c, s)
    ensures InOrder(s)
  {
    if s.rowIds.None? {
      NothingEmitted(s);
    }
    assert Rows(s)[..|Rows(s)|] == Rows(s);
  }

  lemma StoredStays(c: Scan, s: State, s': State)
    requires FinishInv(c, s) && Steps(c, s, s') && s.rowIds.Some?
    ensures s'.rowIds == s.rowIds
  {
  }

  /** The stored result never changes. */
  lemma {:induction false} ResultStays(c: Scan, nThreads: nat, run: seq<State>, i: nat, j: nat)
    requires IsRun(c, nThreads, run) && i <= j < |run| && run[i].rowIds.Some?
    ensures run[j].rowIds == run[i].rowIds
    decreases j
  {
    if i < j {
      ResultStays(c, nThreads, run, i, j - 1);
      EveryStateIsSound(c, nThreads, run, j - 1);
      assert StepsAt(c, run, j - 1);
      StoredStays(c, run[j - 1], run[j]);
    }
  }

  // ---------------------------------------------------------------- progress

  ghost predicate Finished(s: State) {
    forall t :: 0 <= t < |s.threads| ==> s.threads[t].Done?
  }

  /** As long as some thread has not been told that the source is exhausted, a step is possible. */
  lemma NeverStuck(c: Scan, nThreads: nat, run: seq<State>, i: nat)
    requires IsRun(c, nThreads, run) && i < |run| && !Finished(run[i])
    ensures exists a :: Enabled(c, run[i], a)
  {
    EveryStateIsSound(c, nThreads, run, i);
    var s := run[i];
    var t :| 0 <= t < |s.threads| && !s.threads[t].Done?;
    var a := ProgressOf(c, s, t);
    assert Enabled(c, s, a);
  }

  lemma HolderCanStep(c: Scan, s: State)
    requires LockInv(s) && !s.owner.Free?
    ensures if s.owner.ByFinisher? then Enabled(c, s, Unblock)
            else Enabled(c, s, Check(s.owner.t)) || Enabled(c, s, Advance(s.owner.t))
  {
  }

  /** The search can proceed while a thread waits for it. */
  lemma SearchCanStep(c: Scan, s: State) returns (a: Action)
    requires Inv(c, s) && s.started && s.owner.Free? && !s.finish.Unblocked?
    ensures Enabled(c, s, a)
  {
    if s.events == 0 {
      var t :| 0 <= t < |s.threads| && s.threads[t].Scheduling?;
      a := Schedule(t);
    } else if s.running != {} {
      var r :| r in s.running;
      a := FinishTask(r);
    } else {
      a := if s.finish.Pending? then StoreResult([]) else if s.finish.Stored? then SetCompleted else LockToUnblock;
    }
  }

  lemma ProgressOf(c: Scan, s: State, t: nat) returns (a: Action)
    requires Inv(c, s) && t < |s.threads| && !s.threads[t].Done?
    ensures Enabled(c, s, a)
  {
    if !s.owner.Free? {
      HolderCanStep(c, s);
      a := if s.owner.ByFinisher? then Unblock
           else if Enabled(c, s, Check(s.owner.t)) then Check(s.owner.t) else Advance(s.owner.t);
    } else if s.threads[t].Blocked? {
      a := SearchCanStep(c, s);
    } else {
      a := if s.threads[t].Entering? then Exchange(t) else if s.threads[t].Scheduling? then Schedule(t) else Acquire(t);
    }
  }

  /** A bound on the steps a thread can still take before it emits rows. */
  function Rank(where: Thread, finish: Finish): nat {
    var again := if finish.Unblocked? then 0 else 10;
    match where
    case Entering => 5 + again
    case Scheduling => 4 + again
    case Locking => 3 + again
    case Checking => 2 + again
    case Advancing(_) => 1 + again
    case Blocked => 8
    case Done => 0
  }

  function Ranks(threads: seq<Thread>, finish: Finish): nat {
    if threads == [] then 0
    else Ranks(threads[..|threads| - 1], finish) + Rank(threads[|threads| - 1], finish)
  }

  function FinishRank(finish: Finish): nat {
    match finish
    case Pending => 4
    case Stored => 3
    case Completed => 2
    case Locked => 1
    case Unblocked => 0
  }

  /** How many rows may still be emitted. */
  function RowsLeft(c: Scan, s: State): int {
    (if s.rowIds.None? then c.limit else |s.rowIds.value|) - s.rowIdsIdx
  }

  function Measure(c: Scan, s: State): int {
    Ranks(s.threads, s.finish) + 6 * RowsLeft(c, s) + FinishRank(s.finish) + |s.running|
    + (if s.events == 0 then c.rowGroups else 0)
  }

  lemma {:induction false} RanksAfterPut(threads: seq<Thread>, t: nat, where: Thread, finish: Finish)
    requires t < |threads|
    ensures Ranks(threads[t := where], finish) == Ranks(threads, finish) - Rank(threads[t], finish) + Rank(where, finish)
  {
    var n := |threads| - 1;
    if t < n {
      RanksAfterPut(threads[..n], t, where, finish);
      assert threads[t := where][..n] == threads[..n][t := where];
    } else {
      assert threads[t := where][..n] == threads[..n];
    }
  }

  /** Unless the finish reaches its last phase, ranks do not depend on it. */
  lemma {:induction false} RanksOfSame(threads: seq<Thread>, f: Finish, g: Finish)
    requires !f.Unblocked? && !g.Unblocked?
    ensures Ranks(threads, f) == Ranks(threads, g)
  {
    if threads != [] {
      RanksOfSame(threads[..|threads| - 1], f, g);
    }
  }

  lemma {:induction false} RanksWhenWoken(threads: seq<Thread>, blocked: set<nat>)
    requires forall t :: 0 <= t < |threads| && t in blocked ==> threads[t].Blocked?
    ensures Ranks(Woken(threads, blocked), Unblocked) <= Ranks(threads, Locked)
  {
    if threads != [] {
      var n := |threads| - 1;
      RanksWhenWoken(threads[..n], blocked);
      assert Woken(threads, blocked)[..n] == Woken(threads[..n], blocked);
    }
  }

  lemma CallDescends(c: Scan, s: State, a: Action)
    requires Enabled(c, s, a) && (a.Exchange? || a.Acquire?)
    ensures Measure(c, Apply(c, s, a)) < Measure(c, s)
  {
    var where := if a.Acquire? then Checking else if !s.started then Scheduling else Locking;
    PutDescends(c, s, Apply(c, s, a), a.t, where);
  }

  lemma ScheduleDescends(c: Scan, s: State, t: nat)
    requires At(s, t, Scheduling) && s.events == 0 && s.running == {}
    ensures Measure(c, Apply(c, s, Schedule(t))) < Measure(c, s)
  {
    RanksAfterPut(s.threads, t, Locking, s.finish);
    assert s.running + Tasks(c.rowGroups) == Tasks(c.rowGroups);
  }

  lemma CheckDescends(c: Scan, s: State, t: nat)
    requires FinishInv(c, s) && At(s, t, Checking)
    ensures Measure(c, Checked(s, t)) < Measure(c, s)
  {
    var where := if !s.completed then Blocked else if NextChunk(s) == [] then Done else Advancing(NextChunk(s));
    assert Checked(s, t).threads == Put(s, t, where);
    PutDescends(c, s, Checked(s, t), t, where);
  }

  /** A thread that goes on to a place of a lower rank, with everything else that counts unchanged. */
  lemma PutDescends(c: Scan, s: State, s': State, t: nat, where: Thread)
    requires t < |s.threads| && s'.threads == Put(s, t, where)
    requires Rank(where, s.finish) < Rank(s.threads[t], s.finish)
    requires s'.finish == s.finish && s'.rowIds == s.rowIds && s'.rowIdsIdx == s.rowIdsIdx
    requires s'.running == s.running && s'.events == s.events
    ensures Measure(c, s') < Measure(c, s)
  {
    RanksAfterPut(s.threads, t, where, s.finish);
  }

  lemma AdvanceDescends(c: Scan, s: State, t: nat)
    requires FinishInv(c, s) && EmitInv(s) && t < |s.threads| && s.threads[t].Advancing?
    ensures Measure(c, Advanced(s, t)) < Measure(c, s)
  {
    RanksAfterPut(s.threads, t, Entering, s.finish);
    assert |s.threads[t].chunk| >= 1;
  }

  lemma SearchDescends(c: Scan, s: State, a: Action)
    requires FinishInv(c, s) && BlockedInv(s) && Enabled(c, s, a)
    requires a.FinishTask? || a.StoreResult? || a.SetCompleted? || a.LockToUnblock? || a.Unblock?
    ensures Measure(c, Apply(c, s, a)) < Measure(c, s)
  {
    if a.Unblock? {
      RanksWhenWoken(s.threads, s.blocked);
    } else if !a.FinishTask? {
      RanksOfSame(s.threads, s.finish, Apply(c, s, a).finish);
    }
  }

  lemma StepDescends(c: Scan, s: State, a: Action)
    requires Inv(c, s) && Enabled(c, s, a)
    ensures Measure(c, Apply(c, s, a)) < Measure(c, s)
  {
    match a
    case Exchange(_) => CallDescends(c, s, a);
    case Schedule(t) => ScheduleDescends(c, s, t);
    case Acquire(_) => CallDescends(c, s, a);
    case Check(t) => CheckDescends(c, s, t);
    case Advance(t) => AdvanceDescends(c, s, t);
    case _ => SearchDescends(c, s, a);
  }

  lemma StepsDescend(c: Scan, s: State, s': State)
    ensures Inv(c, s) && Steps(c, s, s') ==> Measure(c, s') < Measure(c, s)
  {
    if Inv(c, s) && Steps(c, s, s') {
      var a :| Enabled(c, s, a) && s' == Apply(c, s, a);
      StepDescends(c, s, a);
    }
  }

  lemma MeasureIsNatural(c: Scan, s: State)
    requires Inv(c, s)
    ensures Measure(c, s) >= 0
  {
  }

  lemma DescendsAt(c: Scan, nThreads: nat, run: seq<State>, i: nat)
    requires IsRun(c, nThreads, run) && i < |run| - 1
    ensures Measure(c, run[i + 1]) < Measure(c, run[i])
  {
    EveryStateIsSound(c, nThreads, run, i);
    assert StepsAt(c, run, i);
    StepsDescend(c, run[i], run[i + 1]);
  }

  lemma {:induction false} RunDescends(c: Scan, nThreads: nat, run: seq<State>, i: nat)
    requires IsRun(c, nThreads, run) && i < |run|
    ensures Measure(c, run[i]) <= Measure(c, run[0]) - i
  {
    if i > 0 {
      RunDescends(c, nThreads, run, i - 1);
      DescendsAt(c, nThreads, run, i - 1);
    }
  }

  lemma {:induction false} RanksAtStart(threads: seq<Thread>)
    requires forall t :: 0 <= t < |threads| ==> threads[t] == Entering
    ensures Ranks(threads, Pending) == 15 * |threads|
  {
    if threads != [] {
      RanksAtStart(threads[..|threads| - 1]);
    }
  }

  /** No run is longer than its threads, row groups and result rows allow, so together with NeverStuck
      every run that is continued as long as possible ends with all threads told that the source is
      exhausted, and by EmittedInOrder with the whole result emitted. */
  lemma EveryRunEnds(c: Scan, nThreads: nat, run: seq<State>)
    requires IsRun(c, nThreads, run)
    ensures |run| <= 15 * nThreads + 6 * c.limit + c.rowGroups + 5
  {
    RunDescends(c, nThreads, run, |run| - 1);
    EveryStateIsSound(c, nThreads, run, |run| - 1);
    MeasureIsNatural(c, run[|run| - 1]);
    RanksAtStart(Start(nThreads).threads);
  }
}
