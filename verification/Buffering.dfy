/** How the parallel sinks of index creation and of the filtered scan gather a thread's chunks into
    row groups, and hand each row group over once it is complete. */
module Buffering {
  import opened Common
  import opened RowGroups

  /** One row group handed over: set up for indexing, or initialised for filtered search. */
  datatype Call = Call(rowGroup: nat, rows: seq<nat>)

  /** A thread's buffer: the row group being gathered, its rows so far, and the calls made. */
  datatype Buffer = Buffer(current: nat, rows: seq<nat>, calls: seq<Call>)

  function Empty(): Buffer {
    Buffer(0, [], [])
  }

  /** One chunk. */
  function Sunk(b: Buffer, chunk: seq<nat>): Buffer {
    if chunk == [] then b
    else
      var g := GetRowGroupId(chunk[0]);
      if g > b.current && b.rows != [] then Buffer(g, chunk, b.calls + [Call(b.current, b.rows)])
      else Buffer(g, b.rows + chunk, b.calls)
  }

  /** The calls after the thread's last chunk. */
  function Combined(b: Buffer): seq<Call> {
    if b.rows == [] then b.calls else b.calls + [Call(b.current, b.rows)]
  }

  function SunkAll(chunks: seq<seq<nat>>): Buffer {
    if chunks == [] then Empty() else Sunk(SunkAll(chunks[..|chunks| - 1]), chunks[|chunks| - 1])
  }

  // ---------------------------------------------------------------- what a thread receives

  function Flatten(chunks: seq<seq<nat>>): seq<nat> {
    if chunks == [] then [] else Flatten(chunks[..|chunks| - 1]) + chunks[|chunks| - 1]
  }

  function RowsOf(calls: seq<Call>): seq<nat> {
    if calls == [] then [] else RowsOf(calls[..|calls| - 1]) + calls[|calls| - 1].rows
  }

  predicate InGroup(rows: seq<nat>, g: nat) {
    forall i :: 0 <= i < |rows| ==> GetRowGroupId(rows[i]) == g
  }

  /** The environment: no chunk straddles row groups, and a thread's row groups never go back. */
  predicate ValidStream(chunks: seq<seq<nat>>) {
    && (forall i :: 0 <= i < |chunks| && chunks[i] != [] ==> InGroup(chunks[i], GetRowGroupId(chunks[i][0])))
    && (forall i, j :: 0 <= i < j < |chunks| && chunks[i] != [] && chunks[j] != [] ==>
          GetRowGroupId(chunks[i][0]) <= GetRowGroupId(chunks[j][0]))
  }

  /** Complete row groups, each once, in increasing order. */
  predicate ProperCalls(calls: seq<Call>) {
    && (forall i :: 0 <= i < |calls| ==> calls[i].rows != [] && InGroup(calls[i].rows, calls[i].rowGroup))
    && (forall i, j :: 0 <= i < j < |calls| ==> calls[i].rowGroup < calls[j].rowGroup)
  }

  predicate ProperBuffer(b: Buffer) {
    && ProperCalls(b.calls) && InGroup(b.rows, b.current)
    && (forall i :: 0 <= i < |b.calls| ==> b.calls[i].rowGroup < b.current)
  }

  lemma RowsOfSnoc(calls: seq<Call>, call: Call)
    ensures RowsOf(calls + [call]) == RowsOf(calls) + call.rows
  {
    assert (calls + [call])[..|calls|] == calls;
  }

  /** The buffer stands at the row group of some chunk received, and none received is beyond it. */
  ghost predicate AtLatest(chunks: seq<seq<nat>>, b: Buffer) {
    && (forall i :: 0 <= i < |chunks| && chunks[i] != [] ==> GetRowGroupId(chunks[i][0]) <= b.current)
    && (b == Empty() || exists i :: IsGroupOf(chunks, i, b.current))
  }

  ghost predicate IsGroupOf(chunks: seq<seq<nat>>, i: int, g: nat) {
    0 <= i < |chunks| && chunks[i] != [] && g == GetRowGroupId(chunks[i][0])
  }

  /** The buffer after a stream: proper, complete, and at the row group of the last chunk. */
  lemma {:induction false} StreamIsBuffered(chunks: seq<seq<nat>>)
    requires ValidStream(chunks)
    ensures var b := SunkAll(chunks);
            ProperBuffer(b) && RowsOf(b.calls) + b.rows == Flatten(chunks) && AtLatest(chunks, b)
  {
    if chunks != [] {
      var n := |chunks| - 1;
      var before, chunk := SunkAll(chunks[..n]), chunks[n];
      StreamIsBuffered(chunks[..n]);
      LatestAdvances(chunks, n, before);
      if chunk != [] {
        SunkIsProper(before, chunk);
        SunkIsComplete(before, chunk, Flatten(chunks[..n]));
      }
    }
  }

  lemma LatestAdvances(chunks: seq<seq<nat>>, n: nat, before: Buffer)
    requires ValidStream(chunks) && n == |chunks| - 1 && AtLatest(chunks[..n], before)
    ensures chunks[n] != [] ==> before == Empty() || before.current <= GetRowGroupId(chunks[n][0])
    ensures AtLatest(chunks, Sunk(before, chunks[n]))
  {
    if before != Empty() {
      var i :| IsGroupOf(chunks[..n], i, before.current);
      assert IsGroupOf(chunks, i, before.current);
    }
    if chunks[n] != [] {
      assert IsGroupOf(chunks, n, Sunk(before, chunks[n]).current);
    }
    forall i | 0 <= i < |chunks| && chunks[i] != []
      ensures GetRowGroupId(chunks[i][0]) <= Sunk(before, chunks[n]).current
    {
      if i < n {
        assert chunks[..n][i] == chunks[i];
      }
    }
  }

  lemma SunkIsProper(b: Buffer, chunk: seq<nat>)
    requires ProperBuffer(b) && chunk != [] && InGroup(chunk, GetRowGroupId(chunk[0]))
    requires b == Empty() || b.current <= GetRowGroupId(chunk[0])
    ensures ProperBuffer(Sunk(b, chunk))
  {
    var g := GetRowGroupId(chunk[0]);
    if b.rows != [] {
      if g > b.current {
        FlushIsProper(b);
      } else {
        JoinedInGroup(b.rows, chunk, g);
      }
    } else {
      assert b.rows + chunk == chunk;
    }
  }

  lemma FlushIsProper(b: Buffer)
    requires ProperBuffer(b) && b.rows != []
    ensures ProperCalls(b.calls + [Call(b.current, b.rows)])
  {
  }

  lemma JoinedInGroup(a: seq<nat>, b: seq<nat>, g: nat)
    requires InGroup(a, g) && InGroup(b, g)
    ensures InGroup(a + b, g)
  {
  }

  lemma SunkIsComplete(b: Buffer, chunk: seq<nat>, received: seq<nat>)
    requires RowsOf(b.calls) + b.rows == received
    ensures var b' := Sunk(b, chunk); RowsOf(b'.calls) + b'.rows == received + chunk
  {
    RowsOfSnoc(b.calls, Call(b.current, b.rows));
  }

  /** For every stream of chunks that do not straddle row groups, a thread hands over every row it
      received, in order, once, in calls of one row group each, and no row group twice. */
  lemma EveryRowIsHandedOverOnce(chunks: seq<seq<nat>>)
    requires ValidStream(chunks)
    ensures var calls := Combined(SunkAll(chunks)); ProperCalls(calls) && RowsOf(calls) == Flatten(chunks)
  {
    StreamIsBuffered(chunks);
    var b := SunkAll(chunks);
    RowsOfSnoc(b.calls, Call(b.current, b.rows));
    assert RowsOf(b.calls) + [] == RowsOf(b.calls);
  }

  // ---------------------------------------------------------------- all threads

  /** Each row group is scanned by one thread. */
  predicate GroupsAreSeparate(streams: seq<seq<seq<nat>>>) {
    forall s, t, x, y :: 0 <= s < t < |streams| && x in Flatten(streams[s]) && y in Flatten(streams[t]) ==>
      GetRowGroupId(x) != GetRowGroupId(y)
  }

  lemma {:induction false} CallHasRow(calls: seq<Call>, i: nat)
    requires ProperCalls(calls) && i < |calls|
    ensures exists x :: x in RowsOf(calls) && GetRowGroupId(x) == calls[i].rowGroup
  {
    var n := |calls| - 1;
    if i == n {
      assert calls[n].rows[0] in RowsOf(calls);
    } else {
      CallHasRow(calls[..n], i);
      var x :| x in RowsOf(calls[..n]) && GetRowGroupId(x) == calls[i].rowGroup;
      assert x in RowsOf(calls);
    }
  }

  /** Over all threads, no row group is handed over by two of them. */
  lemma NoRowGroupTwice(streams: seq<seq<seq<nat>>>, s: nat, t: nat, i: nat, j: nat)
    requires (forall u :: 0 <= u < |streams| ==> ValidStream(streams[u])) && GroupsAreSeparate(streams)
    requires s < t < |streams|
    requires i < |Combined(SunkAll(streams[s]))| && j < |Combined(SunkAll(streams[t]))|
    ensures Combined(SunkAll(streams[s]))[i].rowGroup != Combined(SunkAll(streams[t]))[j].rowGroup
  {
    EveryRowIsHandedOverOnce(streams[s]);
    EveryRowIsHandedOverOnce(streams[t]);
    CallHasRow(Combined(SunkAll(streams[s])), i);
    CallHasRow(Combined(SunkAll(streams[t])), j);
  }

  // ---------------------------------------------------------------- the filtered scan's sink

  /** The thread-local sink of the filtered scan. */
  class FilteredScanLocalSink {
    var currentRowGroupId: nat
    var currentRowGroupPassingRowIds: seq<nat>
    /** The searches initialised and run for one iteration so far. */
    var searched: seq<Call>
    var rowGroupIdsWithPassingTuples: seq<nat>

    ghost function Model(): Buffer
      reads this
    {
      Buffer(currentRowGroupId, currentRowGroupPassingRowIds, searched)
    }

    /** Exactly the row groups searched are remembered for the follow-up iterations. */
    ghost predicate Valid()
      reads this
    {
      && |rowGroupIdsWithPassingTuples| == |searched|
      && forall i :: 0 <= i < |searched| ==> rowGroupIdsWithPassingTuples[i] == searched[i].rowGroup
    }

    constructor ()
      ensures Valid() && Model() == Empty()
    {
      currentRowGroupId, currentRowGroupPassingRowIds, searched, rowGroupIdsWithPassingTuples := 0, [], [], [];
    }

    method InitializeAndSearch()
      requires Valid()
      modifies this
      ensures Valid() && currentRowGroupId == old(currentRowGroupId)
      ensures currentRowGroupPassingRowIds == old(currentRowGroupPassingRowIds)
      ensures searched == old(searched) + [Call(currentRowGroupId, currentRowGroupPassingRowIds)]
    {
      searched := searched + [Call(currentRowGroupId, currentRowGroupPassingRowIds)];
      rowGroupIdsWithPassingTuples := rowGroupIdsWithPassingTuples + [currentRowGroupId];
    }

    method Sink(chunk: seq<nat>)
      requires Valid()
      modifies this
      ensures Valid() && Model() == Sunk(old(Model()), chunk)
    {
      if |chunk| == 0 {
        return;
      }
      var rowGroupId := GetRowGroupId(chunk[0]);
      if rowGroupId > currentRowGroupId && |currentRowGroupPassingRowIds| != 0 {
        InitializeAndSearch();
        currentRowGroupPassingRowIds := [];
      }
      currentRowGroupId := rowGroupId;
      var i := 0;
      ghost var before, searchedBefore := currentRowGroupPassingRowIds, searched;
      while i < |chunk|
        invariant i <= |chunk| && Valid()
        invariant currentRowGroupId == rowGroupId && searched == searchedBefore
        invariant currentRowGroupPassingRowIds == before + chunk[..i]
      {
        currentRowGroupPassingRowIds := currentRowGroupPassingRowIds + [chunk[i]];
        i := i + 1;
      }
      assert chunk[..i] == chunk && [] + chunk == chunk;
    }

    /** Returns what is appended to the global list of row groups. */
    method Combine() returns (rowGroupIds: seq<nat>)
      requires Valid()
      modifies this
      ensures Valid() && searched == Combined(old(Model()))
      ensures |rowGroupIds| == |searched| && forall i :: 0 <= i < |searched| ==> rowGroupIds[i] == searched[i].rowGroup
    {
      if |currentRowGroupPassingRowIds| != 0 {
        InitializeAndSearch();
      }
      rowGroupIds := rowGroupIdsWithPassingTuples;
    }
  }

  // ---------------------------------------------------------------- the buffer suffices

  ghost function Range(a: nat, n: nat): (r: set<nat>)
    ensures forall x :: x in r <==> a <= x < a + n
  {
    if n == 0 then {} else Range(a, n - 1) + {a + n - 1}
  }

  lemma {:induction false} RangeCounts(a: nat, n: nat)
    ensures |Range(a, n)| == n
  {
    if n > 0 {
      RangeCounts(a, n - 1);
    }
  }

  lemma SubsetCounts(a: set<nat>, b: set<nat>)
    requires a <= b
    ensures |a| <= |b|
  {
    assert b == a + (b - a);
  }

  /** Different rows of one row group are no more than a row group can hold. */
  lemma GroupHoldsItsRows(rows: seq<nat>, g: nat)
    requires InGroup(rows, g) && NoRepeats(rows)
    ensures |rows| <= DEFAULT_ROW_GROUP_SIZE
  {
    var low := g * DEFAULT_ROW_GROUP_SIZE;
    NoRepeatsCounts(rows);
    RangeCounts(low, DEFAULT_ROW_GROUP_SIZE);
    forall x | x in SetOf(rows) ensures x in Range(low, DEFAULT_ROW_GROUP_SIZE) {
      var i :| 0 <= i < |rows| && rows[i] == x;
      assert GetRowGroupId(rows[i]) == g;
    }
    SubsetCounts(SetOf(rows), Range(low, DEFAULT_ROW_GROUP_SIZE));
  }

  lemma LastRowsAreDistinct(a: seq<nat>, b: seq<nat>)
    requires NoRepeats(a + b)
    ensures NoRepeats(b)
  {
    forall i, j | 0 <= i < j < |b| ensures b[i] != b[j] {
      assert (a + b)[|a| + i] == b[i] && (a + b)[|a| + j] == b[j];
    }
  }

  /** The source asserts that a buffer of one row group's size suffices; it does for every stream of
      distinct rows. */
  lemma BufferSuffices(chunks: seq<seq<nat>>)
    requires ValidStream(chunks) && NoRepeats(Flatten(chunks))
    ensures |SunkAll(chunks).rows| <= DEFAULT_ROW_GROUP_SIZE
  {
    var b := SunkAll(chunks);
    StreamIsBuffered(chunks);
    LastRowsAreDistinct(RowsOf(b.calls), b.rows);
    GroupHoldsItsRows(b.rows, b.current);
  }

  lemma {:induction false} FlattenPrefix(chunks: seq<seq<nat>>, n: nat)
    requires n <= |chunks|
    ensures Flatten(chunks[..n]) <= Flatten(chunks)
    decreases |chunks|
  {
    if n < |chunks| {
      var init := chunks[..|chunks| - 1];
      FlattenPrefix(init, n);
      assert init[..n] == chunks[..n];
    } else {
      assert chunks[..n] == chunks;
    }
  }

  lemma PrefixSuffices(chunks: seq<seq<nat>>, n: nat)
    requires ValidStream(chunks) && NoRepeats(Flatten(chunks)) && n <= |chunks|
    ensures |SunkAll(chunks[..n]).rows| <= DEFAULT_ROW_GROUP_SIZE
  {
    FlattenPrefix(chunks, n);
    BufferSuffices(chunks[..n]);
  }

  // ---------------------------------------------------------------- the index creation's sink

  type Embedding = seq<int>

  /** The preprocessed embedding of each row of the table. */
  type Table = nat -> Embedding

  function EmbeddingsOf(table: Table, rows: seq<nat>): (r: seq<Embedding>)
    ensures |r| == |rows| && forall i :: 0 <= i < |rows| ==> r[i] == table(rows[i])
  {
    seq(|rows|, i requires 0 <= i < |rows| => table(rows[i]))
  }

  /** The thread-local sink of index creation: fixed buffers filled in place. */
  class CreateIndexLocalSink {
    var rowGroupId: nat
    var rowGroupEmbeddingsCount: nat
    const rowGroupRowIds: array<nat>
    const rowGroupEmbeddingsBuffer: array<Embedding>
    /** The row groups set up so far, and the embeddings each was set up with. */
    var setUp: seq<Call>
    var setUpEmbeddings: seq<seq<Embedding>>

    ghost predicate Valid()
      reads this
    {
      && rowGroupEmbeddingsCount <= DEFAULT_ROW_GROUP_SIZE
      && rowGroupRowIds.Length == DEFAULT_ROW_GROUP_SIZE == rowGroupEmbeddingsBuffer.Length
    }

    ghost function Model(): Buffer
      requires Valid()
      reads this, rowGroupRowIds
    {
      Buffer(rowGroupId, rowGroupRowIds[..rowGroupEmbeddingsCount], setUp)
    }

    /** Every embedding buffered or handed over is that of its row. */
    ghost predicate Matches(table: Table)
      requires Valid()
      reads this, rowGroupRowIds, rowGroupEmbeddingsBuffer
    {
      && rowGroupEmbeddingsBuffer[..rowGroupEmbeddingsCount] == EmbeddingsOf(table, Model().rows)
      && HandedOver(table)
    }

    ghost predicate HandedOver(table: Table)
      reads this
    {
      && |setUpEmbeddings| == |setUp|
      && forall c :: 0 <= c < |setUp| ==> setUpEmbeddings[c] == EmbeddingsOf(table, setUp[c].rows)
    }

    constructor ()
      ensures Valid() && Model() == Empty() && forall table: Table :: Matches(table)
      ensures fresh(rowGroupRowIds) && fresh(rowGroupEmbeddingsBuffer)
    {
      rowGroupId, rowGroupEmbeddingsCount, setUp, setUpEmbeddings := 0, 0, [], [];
      rowGroupRowIds := new nat[DEFAULT_ROW_GROUP_SIZE];
      rowGroupEmbeddingsBuffer := new Embedding[DEFAULT_ROW_GROUP_SIZE](i => []);
    }

    /** Copies a chunk's row ids behind those already buffered. */
    method AppendRowIds(chunk: seq<nat>)
      requires Valid() && rowGroupEmbeddingsCount + |chunk| <= DEFAULT_ROW_GROUP_SIZE
      modifies rowGroupRowIds
      ensures rowGroupRowIds[..rowGroupEmbeddingsCount + |chunk|]
              == old(rowGroupRowIds[..rowGroupEmbeddingsCount]) + chunk
    {
      var count := rowGroupEmbeddingsCount;
      ghost var before := rowGroupRowIds[..count];
      var i := 0;
      while i < |chunk|
        invariant i <= |chunk|
        invariant rowGroupRowIds[..count + i] == before + chunk[..i]
      {
        rowGroupRowIds[count + i] := chunk[i];
        i := i + 1;
      }
      assert chunk[..i] == chunk;
    }

    /** Copies a chunk's embeddings, preprocessed, behind those already buffered. */
    method AppendEmbeddings(embeddings: seq<Embedding>)
      requires Valid() && rowGroupEmbeddingsCount + |embeddings| <= DEFAULT_ROW_GROUP_SIZE
      modifies rowGroupEmbeddingsBuffer
      ensures rowGroupEmbeddingsBuffer[..rowGroupEmbeddingsCount + |embeddings|]
              == old(rowGroupEmbeddingsBuffer[..rowGroupEmbeddingsCount]) + embeddings
    {
      var count := rowGroupEmbeddingsCount;
      ghost var before := rowGroupEmbeddingsBuffer[..count];
      var i := 0;
      while i < |embeddings|
        invariant i <= |embeddings|
        invariant rowGroupEmbeddingsBuffer[..count + i] == before + embeddings[..i]
      {
        rowGroupEmbeddingsBuffer[count + i] := embeddings[i];
        i := i + 1;
      }
      assert embeddings[..i] == embeddings;
    }

    /** Sets up the buffered row group. */
    method SetUp(ghost table: Table)
      requires Valid() && Matches(table)
      modifies this`setUp, this`setUpEmbeddings
      ensures Valid() && Matches(table) && setUp == old(setUp) + [Call(rowGroupId, Model().rows)]
    {
      setUp := setUp + [Call(rowGroupId, rowGroupRowIds[..rowGroupEmbeddingsCount])];
      setUpEmbeddings := setUpEmbeddings + [rowGroupEmbeddingsBuffer[..rowGroupEmbeddingsCount]];
    }

    method Append(chunk: seq<nat>, embeddings: seq<Embedding>, ghost table: Table)
      requires Valid() && rowGroupEmbeddingsCount + |chunk| <= DEFAULT_ROW_GROUP_SIZE
      requires Matches(table) && embeddings == EmbeddingsOf(table, chunk)
      modifies this`rowGroupEmbeddingsCount, rowGroupRowIds, rowGroupEmbeddingsBuffer
      ensures Valid() && Matches(table) && Model() == old(Model()).(rows := old(Model()).rows + chunk)
    {
      AppendEmbeddings(embeddings);
      AppendRowIds(chunk);
      rowGroupEmbeddingsCount := rowGroupEmbeddingsCount + |chunk|;
    }

    /** One chunk. The buffer has to be large enough; by BufferSuffices it is. */
    method Sink(chunk: seq<nat>, embeddings: seq<Embedding>, ghost table: Table)
      requires Valid() && |Sunk(Model(), chunk).rows| <= DEFAULT_ROW_GROUP_SIZE
      requires Matches(table) && embeddings == EmbeddingsOf(table, chunk)
      modifies this, rowGroupRowIds, rowGroupEmbeddingsBuffer
      ensures Valid() && Matches(table) && Model() == Sunk(old(Model()), chunk)
    {
      if |chunk| == 0 {
        return;
      }
      var g := GetRowGroupId(chunk[0]);
      if g > rowGroupId && rowGroupEmbeddingsCount > 0 {
        SetUp(table);
        rowGroupEmbeddingsCount := 0;
      }
      rowGroupId := g;
      Append(chunk, embeddings, table);
    }

    method Combine(ghost table: Table)
      requires Valid() && Matches(table)
      modifies this`setUp, this`setUpEmbeddings
      ensures setUp == Combined(old(Model())) && HandedOver(table)
    {
      if rowGroupEmbeddingsCount > 0 {
        SetUp(table);
      }
    }
  }

  /** What a thread does with its stream: every row group is set up with its rows and their embeddings. */
  method SinkStream(sink: CreateIndexLocalSink, chunks: seq<seq<nat>>, embeddings: seq<seq<Embedding>>,
                    ghost table: Table)
    requires sink.Valid() && sink.Model() == Empty() && sink.Matches(table)
    requires ValidStream(chunks) && NoRepeats(Flatten(chunks)) && |embeddings| == |chunks|
    requires forall i :: 0 <= i < |chunks| ==> embeddings[i] == EmbeddingsOf(table, chunks[i])
    modifies sink, sink.rowGroupRowIds, sink.rowGroupEmbeddingsBuffer
    ensures sink.setUp == Combined(SunkAll(chunks)) && sink.HandedOver(table)
  {
    var i := 0;
    while i < |chunks|
      invariant i <= |chunks| && sink.Valid() && sink.Matches(table) && sink.Model() == SunkAll(chunks[..i])
    {
      PrefixSuffices(chunks, i + 1);
      assert chunks[..i + 1][..i] == chunks[..i];
      sink.Sink(chunks[i], embeddings[i], table);
      i := i + 1;
    }
    assert chunks[..i] == chunks;
    sink.Combine(table);
  }
}
