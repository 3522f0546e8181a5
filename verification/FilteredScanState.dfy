/** The global state of the filtered-scan operator: the iteration counters, the decision to emit or
    to go on, and the emission of the result in chunks. */
module FilteredScanState {
  import opened Common
  import opened KnnHeap
  import opened SharedHeaps
  import opened FilteredScan

  const STANDARD_VECTOR_SIZE: nat := 2048

  class GlobalSinkState {
    const limit: nat
    const globalHeap: SharedHeap
    var partitionsToProbeOnFirstIteration: nat
    var iterationsPerformed: nat
    const maxIterations: nat
    /** The row ids of the result, once there is one, and how many have been emitted. */
    var rowIds: seq<nat>
    var hasRowIds: bool
    var rowIdsIdx: nat

    /** The bound is a member initialised before the constructor's body runs, so it is computed while
        the number of clusters on the first iteration still is 0. */
    constructor (limit: nat, nProbe: nat, clustersPerRowGroup: nat, others: seq<seq<Candidate>>)
      ensures globalHeap.items == multiset{SENTINEL} && iterationsPerformed == 0 && !hasRowIds && rowIdsIdx == 0
      ensures this.limit == limit && fresh(globalHeap) && globalHeap.others == others
      ensures partitionsToProbeOnFirstIteration
              == if nProbe == 0 || nProbe > clustersPerRowGroup then clustersPerRowGroup else nProbe
      ensures maxIterations == MaxProbeIterations(0, clustersPerRowGroup) >= 1
      ensures Scheduled(partitionsToProbeOnFirstIteration, maxIterations - 1) >= clustersPerRowGroup
    {
      this.limit := limit;
      var first := 0;
      maxIterations := MaxProbeIterations(first, clustersPerRowGroup);
      iterationsPerformed, rowIds, hasRowIds, rowIdsIdx := 0, [], false, 0;
      var heap := new SharedHeap(others);
      globalHeap := heap;
      first := if nProbe == 0 || nProbe > clustersPerRowGroup then clustersPerRowGroup else nProbe;
      partitionsToProbeOnFirstIteration := first;
      BoundCoversAllClusters(0, first, clustersPerRowGroup);
    }

    /** `Finalize` and the `FinishEvent` of a search iteration: counts the iteration, and either
        prepares the emission or asks for another iteration. */
    method FinishIteration() returns (again: bool)
      requires |globalHeap.items| > 0 && iterationsPerformed < maxIterations && !hasRowIds
      modifies this, globalHeap`items
      ensures iterationsPerformed == old(iterationsPerformed) + 1 && rowIdsIdx == old(rowIdsIdx)
      ensures partitionsToProbeOnFirstIteration == old(partitionsToProbeOnFirstIteration)
      ensures again <==> (|old(globalHeap.items)| != limit || TopDistance(old(globalHeap.items)) == FLT_MAX)
                         && iterationsPerformed != maxIterations
      ensures again ==> globalHeap.items == old(globalHeap.items) && !hasRowIds && iterationsPerformed < maxIterations
      ensures !again ==> hasRowIds
                         && exists result :: IsResult(limit, old(globalHeap.items), result) && rowIds == RowIds(result)
    {
      iterationsPerformed := iterationsPerformed + 1;
      again := TryFinalizeSinkPhase();
    }

    method TryFinalizeSinkPhase() returns (again: bool)
      requires |globalHeap.items| > 0 && iterationsPerformed <= maxIterations && !hasRowIds
      modifies this`rowIds, this`hasRowIds, globalHeap`items
      ensures again <==> (|old(globalHeap.items)| != limit || TopDistance(old(globalHeap.items)) == FLT_MAX)
                         && iterationsPerformed != maxIterations
      ensures again ==> globalHeap.items == old(globalHeap.items) && !hasRowIds
      ensures !again ==> hasRowIds
                         && exists result :: IsResult(limit, old(globalHeap.items), result) && rowIds == RowIds(result)
    {
      var top := globalHeap.Top();
      TopIsUnique(globalHeap.items, top);
      var initializationElementOnTop := top.distance == SENTINEL.distance;
      var filledWithValidResults := |globalHeap.items| == limit && !initializationElementOnTop;
      var allPartitionsProbed := iterationsPerformed == maxIterations;
      if filledWithValidResults || allPartitionsProbed {
        StoreResult();
        again := false;
      } else {
        again := true;
      }
    }

    /** Drains the heap into the row ids to emit. */
    method StoreResult()
      modifies this`rowIds, this`hasRowIds, globalHeap`items
      ensures hasRowIds
      ensures exists result :: IsResult(limit, old(globalHeap.items), result) && rowIds == RowIds(result)
    {
      var result;
      ghost var proper;
      result, proper := globalHeap.BuildResultSet(limit);
      assert IsResult(limit, old(globalHeap.items), result);
      rowIds, hasRowIds := RowIds(result), true;
    }

    /** One call of the source: the next chunk of row ids, empty when all have been emitted. */
    method GetData() returns (chunk: seq<nat>)
      requires hasRowIds && rowIdsIdx <= |rowIds|
      modifies this`rowIdsIdx
      ensures rowIdsIdx == Min(old(rowIdsIdx) + 2048, |rowIds|)
      ensures chunk == rowIds[old(rowIdsIdx)..rowIdsIdx]
    {
      var n := Min(STANDARD_VECTOR_SIZE, |rowIds| - rowIdsIdx);
      chunk := [];
      var i := 0;
      while i < n
        invariant i <= n && chunk == rowIds[rowIdsIdx..rowIdsIdx + i]
      {
        chunk := chunk + [rowIds[rowIdsIdx + i]];
        i := i + 1;
      }
      rowIdsIdx := rowIdsIdx + n;
    }

    /** Draining the source emits the result, in order and completely. */
    method Drain() returns (emitted: seq<nat>)
      requires hasRowIds && rowIdsIdx == 0
      modifies this`rowIdsIdx
      ensures emitted == rowIds
    {
      emitted := [];
      var chunk := GetData();
      while |chunk| != 0
        invariant rowIdsIdx <= |rowIds| && emitted + chunk == rowIds[..rowIdsIdx]
        invariant |chunk| == 0 ==> rowIdsIdx == |rowIds|
        decreases |rowIds| - rowIdsIdx, |chunk|
      {
        emitted := emitted + chunk;
        chunk := GetData();
      }
    }
  }
}
