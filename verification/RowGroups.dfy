/** Building a row group from a k-means assignment, and evaluating a predicate's passing rows
    against it. */
module RowGroups {
  import opened Common
  import opened Layout
  import opened SearchMachine
  import opened PruneSteps

  const DEFAULT_ROW_GROUP_SIZE: nat := 122880

  function GetRowGroupId(rowId: nat): (g: nat)
    ensures g * DEFAULT_ROW_GROUP_SIZE <= rowId < (g + 1) * DEFAULT_ROW_GROUP_SIZE
  {
    rowId / DEFAULT_ROW_GROUP_SIZE
  }

  /** Where a row is stored. */
  datatype RowIdClusterMapping = Mapping(clusterId: nat, indexInCluster: nat)

  // ---------------------------------------------------------------- inverting the assignment

  predicate ValidAssignment(assignment: seq<nat>, numClusters: nat) {
    forall e :: 0 <= e < |assignment| ==> assignment[e] < numClusters
  }

  /** The embeddings below `n` that are assigned to cluster `c`, in order. */
  function MembersBelow(assignment: seq<nat>, n: nat, c: nat): (r: seq<nat>)
    requires n <= |assignment|
    ensures |r| <= n
  {
    if n == 0 then []
    else if assignment[n - 1] == c then MembersBelow(assignment, n - 1, c) + [n - 1]
    else MembersBelow(assignment, n - 1, c)
  }

  function Members(assignment: seq<nat>, c: nat): seq<nat> {
    MembersBelow(assignment, |assignment|, c)
  }

  /** The place of embedding `e` among those of its cluster. */
  function Rank(assignment: seq<nat>, e: nat): nat
    requires e < |assignment|
  {
    |MembersBelow(assignment, e, assignment[e])|
  }

  /** Every embedding has exactly one slot: its rank in its own cluster; and every slot holds
      exactly the embedding of that rank. */
  lemma {:induction false} MembersHaveRanks(assignment: seq<nat>, n: nat, c: nat)
    requires n <= |assignment|
    ensures forall e :: 0 <= e < n && assignment[e] == c ==>
              Rank(assignment, e) < |MembersBelow(assignment, n, c)|
              && MembersBelow(assignment, n, c)[Rank(assignment, e)] == e
    ensures forall i :: 0 <= i < |MembersBelow(assignment, n, c)| ==>
              var e := MembersBelow(assignment, n, c)[i];
              e < n && assignment[e] == c && Rank(assignment, e) == i
  {
    if n > 0 {
      MembersHaveRanks(assignment, n - 1, c);
    }
  }

  /** `members` are the embeddings below `n` assigned to cluster `c`, each once, in increasing order. */
  predicate AreMembers(assignment: seq<nat>, n: nat, c: nat, members: seq<nat>)
    requires n <= |assignment|
  {
    && (forall i :: 0 <= i < |members| ==> members[i] < n && assignment[members[i]] == c)
    && (forall e :: 0 <= e < n && assignment[e] == c ==> e in members)
    && (forall i, j :: 0 <= i < j < |members| ==> members[i] < members[j])
  }

  lemma {:induction false} MembersAre(assignment: seq<nat>, n: nat, c: nat)
    requires n <= |assignment|
    ensures AreMembers(assignment, n, c, MembersBelow(assignment, n, c))
    decreases n
  {
    if n > 0 {
      MembersAre(assignment, n - 1, c);
    }
  }

  method InvertAssignment(assignment: seq<nat>, numClusters: nat) returns (members: seq<seq<nat>>)
    requires numClusters >= 1 && ValidAssignment(assignment, numClusters)
    ensures |members| == numClusters
    ensures forall c :: 0 <= c < numClusters ==> members[c] == Members(assignment, c)
    ensures forall c :: 0 <= c < numClusters ==> AreMembers(assignment, |assignment|, c, members[c])
  {
    members := seq(numClusters, _ => []);
    var e := 0;
    while e < |assignment|
      invariant e <= |assignment| && |members| == numClusters
      invariant forall c :: 0 <= c < numClusters ==> members[c] == MembersBelow(assignment, e, c)
    {
      var c := assignment[e];
      members := members[c := members[c] + [e]];
      e := e + 1;
    }
    forall c | 0 <= c < numClusters ensures AreMembers(assignment, |assignment|, c, members[c]) {
      MembersAre(assignment, |assignment|, c);
    }
  }

  // ---------------------------------------------------------------- storing a row group

  /** No two rows share a place in the row group. */
  predicate DistinctRows(rowIds: seq<nat>) {
    forall i, j :: 0 <= i < j < |rowIds| ==>
      rowIds[i] % DEFAULT_ROW_GROUP_SIZE != rowIds[j] % DEFAULT_ROW_GROUP_SIZE
  }

  function IdsOf(rowIds: seq<nat>, members: seq<nat>): (r: seq<nat>)
    requires forall i :: 0 <= i < |members| ==> members[i] < |rowIds|
    ensures |r| == |members|
  {
    seq(|members|, i requires 0 <= i < |members| => rowIds[members[i]])
  }

  function VectorsOf(embeddings: seq<seq<int>>, members: seq<nat>): (r: seq<seq<int>>)
    requires forall i :: 0 <= i < |members| ==> members[i] < |embeddings|
    ensures |r| == |members|
  {
    seq(|members|, i requires 0 <= i < |members| => embeddings[members[i]])
  }

  /** The mapping of the embeddings already stored: all of the clusters below `c`, and the first
      `n` of cluster `c`. */
  ghost predicate Mapped(assignment: seq<nat>, rowIds: seq<nat>, c: nat, n: nat, metadata: seq<RowIdClusterMapping>)
    requires |assignment| == |rowIds|
  {
    && |metadata| == DEFAULT_ROW_GROUP_SIZE
    && forall e | 0 <= e < |assignment| && (assignment[e] < c || (assignment[e] == c && Rank(assignment, e) < n)) ::
         metadata[rowIds[e] % DEFAULT_ROW_GROUP_SIZE] == Mapping(assignment[e], Rank(assignment, e))
  }

  lemma MappedOneMore(assignment: seq<nat>, rowIds: seq<nat>, c: nat, i: nat, e: nat,
                      metadata: seq<RowIdClusterMapping>)
    requires |assignment| == |rowIds| && DistinctRows(rowIds) && Mapped(assignment, rowIds, c, i, metadata)
    requires e < |assignment| && assignment[e] == c && Rank(assignment, e) == i
    requires forall d :: 0 <= d < |assignment| && assignment[d] == c && Rank(assignment, d) == i ==> d == e
    ensures Mapped(assignment, rowIds, c, i + 1, metadata[rowIds[e] % DEFAULT_ROW_GROUP_SIZE := Mapping(c, i)])
  {
  }

  class RowGroup {
    /** The stored clusters. */
    var clusters: seq<StoredCluster>
    /** For each row of the row group, the cluster and the place where it is stored. */
    const rowIdMetadata: array<RowIdClusterMapping>

    constructor ()
      ensures clusters == [] && fresh(rowIdMetadata) && rowIdMetadata.Length == DEFAULT_ROW_GROUP_SIZE
    {
      clusters := [];
      rowIdMetadata := new RowIdClusterMapping[DEFAULT_ROW_GROUP_SIZE](_ => Mapping(0, 0));
    }

    /** Records where the members of cluster `c` go and gathers their ids and vectors. */
    method GatherCluster(assignment: seq<nat>, c: nat, members: seq<nat>, rowIds: seq<nat>,
                         embeddings: seq<seq<int>>)
        returns (ids: seq<nat>, vectors: seq<seq<int>>)
      requires |assignment| == |rowIds| == |embeddings| && DistinctRows(rowIds)
      requires members == Members(assignment, c)
      requires forall i :: 0 <= i < |members| ==> members[i] < |assignment|
      requires Mapped(assignment, rowIds, c, 0, rowIdMetadata[..])
      modifies rowIdMetadata
      ensures Mapped(assignment, rowIds, c + 1, 0, rowIdMetadata[..])
      ensures ids == IdsOf(rowIds, members) && vectors == VectorsOf(embeddings, members)
    {
      MembersHaveRanks(assignment, |assignment|, c);
      ids, vectors := [], [];
      var i := 0;
      while i < |members|
        invariant i <= |members| == |members[..i]| + |members[i..]|
        invariant Mapped(assignment, rowIds, c, i, rowIdMetadata[..])
        invariant ids == IdsOf(rowIds, members)[..i] && vectors == VectorsOf(embeddings, members)[..i]
      {
        var e := members[i];
        MappedOneMore(assignment, rowIds, c, i, e, rowIdMetadata[..]);
        rowIdMetadata[rowIds[e] % DEFAULT_ROW_GROUP_SIZE] := Mapping(c, i);
        ids := ids + [rowIds[e]];
        vectors := vectors + [embeddings[e]];
        i := i + 1;
      }
    }

    /** Stores the embeddings (the stored values, quantized for U8) under the clusters they are
        assigned to. */
    method SetUp(rowIds: seq<nat>, embeddings: seq<seq<int>>, assignment: seq<nat>, numClusters: nat,
                 quant: Quantization, V: nat, H: nat)
      requires |assignment| == |rowIds| == |embeddings| && numClusters >= 1
      requires ValidAssignment(assignment, numClusters) && DistinctRows(rowIds)
      requires H % H_DIM_SIZE == 0 && IsMatrix(embeddings, |embeddings|, V + H)
      requires clusters == [] && rowIdMetadata.Length == DEFAULT_ROW_GROUP_SIZE
      modifies this, rowIdMetadata
      ensures Mapped(assignment, rowIds, numClusters, 0, rowIdMetadata[..])
      ensures AllStored(clusters, numClusters, rowIds, embeddings, assignment, quant, V, H)
    {
      var members := InvertAssignment(assignment, numClusters);
      var c := 0;
      while c < numClusters
        invariant c <= numClusters && rowIdMetadata.Length == DEFAULT_ROW_GROUP_SIZE
        invariant Mapped(assignment, rowIds, c, 0, rowIdMetadata[..])
        invariant AllStored(clusters, c, rowIds, embeddings, assignment, quant, V, H)
      {
        MembersHaveRanks(assignment, |assignment|, c);
        var ids, vectors := GatherCluster(assignment, c, members[c], rowIds, embeddings);
        var stored := StoreCluster(ids, vectors, quant, V, H);
        OneMoreStored(clusters, c, stored, rowIds, embeddings, assignment, quant, V, H);
        clusters := clusters + [stored];
        c := c + 1;
      }
    }
  }

  /** The first `n` clusters are stored. */
  ghost predicate AllStored(clusters: seq<StoredCluster>, n: nat, rowIds: seq<nat>, embeddings: seq<seq<int>>,
                            assignment: seq<nat>, quant: Quantization, V: nat, H: nat)
    requires |assignment| == |rowIds| == |embeddings| && H % H_DIM_SIZE == 0
  {
    |clusters| == n
    && forall c :: 0 <= c < n ==> StoredAs(clusters[c], rowIds, embeddings, Members(assignment, c), quant, V, H)
  }

  lemma OneMoreStored(clusters: seq<StoredCluster>, n: nat, stored: StoredCluster, rowIds: seq<nat>,
                      embeddings: seq<seq<int>>, assignment: seq<nat>, quant: Quantization, V: nat, H: nat)
    requires |assignment| == |rowIds| == |embeddings| && H % H_DIM_SIZE == 0
    requires AllStored(clusters, n, rowIds, embeddings, assignment, quant, V, H)
    requires StoredAs(stored, rowIds, embeddings, Members(assignment, n), quant, V, H)
    ensures AllStored(clusters + [stored], n + 1, rowIds, embeddings, assignment, quant, V, H)
  {
  }

  /** `st` holds the embeddings `members` under their row ids. */
  ghost predicate StoredAs(st: StoredCluster, rowIds: seq<nat>, embeddings: seq<seq<int>>, members: seq<nat>,
                           quant: Quantization, V: nat, H: nat)
    requires |rowIds| == |embeddings| && H % H_DIM_SIZE == 0
  {
    && (forall i :: 0 <= i < |members| ==> members[i] < |rowIds|)
    && st.ids == IdsOf(rowIds, members)
    && var s: Shape := Shape(quant, V, H, |members|);
       |st.data| == s.D() * s.n && Rows(s, st.data) == VectorsOf(embeddings, members)
  }

  method StoreCluster(ids: seq<nat>, vectors: seq<seq<int>>, quant: Quantization, V: nat, H: nat)
      returns (stored: StoredCluster)
    requires |ids| == |vectors| && H % H_DIM_SIZE == 0 && IsMatrix(vectors, |vectors|, V + H)
    ensures stored.ids == ids
    ensures var s: Shape := Shape(quant, V, H, |vectors|);
            |stored.data| == s.D() * s.n && Rows(s, stored.data) == vectors
  {
    var s: Shape := Shape(quant, V, H, |vectors|);
    var data := new int[s.D() * s.n];
    StoreClusterEmbeddings(s, vectors, data);
    stored := StoredCluster(ids, data[..]);
  }

  // ---------------------------------------------------------------- the mapping as an inverse

  /** The mapping leads from every stored row to its slot. */
  ghost predicate MapsBack(clusters: seq<StoredCluster>, metadata: seq<RowIdClusterMapping>) {
    && |metadata| == DEFAULT_ROW_GROUP_SIZE
    && forall c, i :: 0 <= c < |clusters| && 0 <= i < |clusters[c].ids| ==>
         metadata[clusters[c].ids[i] % DEFAULT_ROW_GROUP_SIZE] == Mapping(c, i)
  }

  /** A row whose slot holds it. */
  predicate Indexed(clusters: seq<StoredCluster>, metadata: seq<RowIdClusterMapping>, row: nat)
    requires |metadata| == DEFAULT_ROW_GROUP_SIZE
  {
    var m := metadata[row % DEFAULT_ROW_GROUP_SIZE];
    m.clusterId < |clusters| && m.indexInCluster < |clusters[m.clusterId].ids|
    && clusters[m.clusterId].ids[m.indexInCluster] == row
  }

  /** Row `row` is stored at the slot the mapping names, in cluster `c`, with vector `x`. */
  ghost predicate StoredWhereMapped(clusters: seq<StoredCluster>, metadata: seq<RowIdClusterMapping>, row: nat,
                                    c: nat, x: seq<int>, quant: Quantization, V: nat, H: nat)
    requires |metadata| == DEFAULT_ROW_GROUP_SIZE && H % H_DIM_SIZE == 0
  {
    && Indexed(clusters, metadata, row)
    && var m := metadata[row % DEFAULT_ROW_GROUP_SIZE];
       var s: Shape := Shape(quant, V, H, |clusters[m.clusterId].ids|);
       m.clusterId == c && |clusters[c].data| == s.D() * s.n && Row(s, clusters[c].data, m.indexInCluster) == x
  }

  /** After the set-up the mapping is the inverse of the clusters' ids, every row of the input is
      indexed, and its slot, in the cluster it was assigned to, holds its embedding. */
  lemma SetUpMapsBack(clusters: seq<StoredCluster>, metadata: seq<RowIdClusterMapping>, rowIds: seq<nat>,
                      embeddings: seq<seq<int>>, assignment: seq<nat>, numClusters: nat,
                      quant: Quantization, V: nat, H: nat)
    requires |assignment| == |rowIds| == |embeddings| && H % H_DIM_SIZE == 0
    requires ValidAssignment(assignment, numClusters) && Mapped(assignment, rowIds, numClusters, 0, metadata)
    requires AllStored(clusters, numClusters, rowIds, embeddings, assignment, quant, V, H)
    ensures MapsBack(clusters, metadata)
    ensures forall e :: 0 <= e < |rowIds| ==>
              StoredWhereMapped(clusters, metadata, rowIds[e], assignment[e], embeddings[e], quant, V, H)
  {
    forall c, i | 0 <= c < |clusters| && 0 <= i < |clusters[c].ids|
      ensures metadata[clusters[c].ids[i] % DEFAULT_ROW_GROUP_SIZE] == Mapping(c, i)
    {
      SlotIsMapped(clusters[c], metadata, rowIds, embeddings, assignment, numClusters, c, i, quant, V, H);
    }
    forall e | 0 <= e < |rowIds|
      ensures StoredWhereMapped(clusters, metadata, rowIds[e], assignment[e], embeddings[e], quant, V, H)
    {
      SlotHoldsEmbedding(clusters[assignment[e]], rowIds, embeddings, assignment, e, quant, V, H);
    }
  }

  lemma SlotIsMapped(st: StoredCluster, metadata: seq<RowIdClusterMapping>, rowIds: seq<nat>,
                     embeddings: seq<seq<int>>, assignment: seq<nat>, numClusters: nat, c: nat, i: nat,
                     quant: Quantization, V: nat, H: nat)
    requires |assignment| == |rowIds| == |embeddings| && H % H_DIM_SIZE == 0 && c < numClusters
    requires Mapped(assignment, rowIds, numClusters, 0, metadata)
    requires StoredAs(st, rowIds, embeddings, Members(assignment, c), quant, V, H) && i < |st.ids|
    ensures metadata[st.ids[i] % DEFAULT_ROW_GROUP_SIZE] == Mapping(c, i)
  {
    MembersHaveRanks(assignment, |assignment|, c);
    var e := Members(assignment, c)[i];
    assert assignment[e] == c && Rank(assignment, e) == i && st.ids[i] == rowIds[e];
  }

  lemma SlotHoldsEmbedding(st: StoredCluster, rowIds: seq<nat>, embeddings: seq<seq<int>>, assignment: seq<nat>,
                           e: nat, quant: Quantization, V: nat, H: nat)
    requires |assignment| == |rowIds| == |embeddings| && H % H_DIM_SIZE == 0 && e < |assignment|
    requires StoredAs(st, rowIds, embeddings, Members(assignment, assignment[e]), quant, V, H)
    ensures var s: Shape := Shape(quant, V, H, |st.ids|); var i := Rank(assignment, e);
            i < |st.ids| && st.ids[i] == rowIds[e] && |st.data| == s.D() * s.n && Row(s, st.data, i) == embeddings[e]
  {
    MembersHaveRanks(assignment, |assignment|, assignment[e]);
    var s: Shape := Shape(quant, V, H, |st.ids|);
    var i := Rank(assignment, e);
    assert Rows(s, st.data)[i] == embeddings[e];
  }

  // ---------------------------------------------------------------- evaluating a predicate

  /** The total number of embeddings in the clusters before `c`. */
  function ClusterOffset(clusters: seq<StoredCluster>, c: nat): nat
    requires c <= |clusters|
  {
    if c == 0 then 0 else ClusterOffset(clusters, c - 1) + |clusters[c - 1].ids|
  }

  lemma {:induction false} OffsetsGrow(clusters: seq<StoredCluster>, c: nat, d: nat)
    requires c <= d <= |clusters|
    ensures ClusterOffset(clusters, c) <= ClusterOffset(clusters, d)
  {
    if c < d {
      OffsetsGrow(clusters, c, d - 1);
    }
  }

  /** Slots of different clusters, or different slots of one, have different offsets. */
  lemma SlotsAreDistinct(clusters: seq<StoredCluster>, c: nat, i: nat, d: nat, j: nat)
    requires c < |clusters| && i < |clusters[c].ids| && d < |clusters| && j < |clusters[d].ids|
    ensures ClusterOffset(clusters, c) + i < ClusterOffset(clusters, |clusters|)
    ensures ClusterOffset(clusters, c) + i == ClusterOffset(clusters, d) + j ==> c == d && i == j
  {
    OffsetsGrow(clusters, c + 1, |clusters|);
    if c < d {
      OffsetsGrow(clusters, c + 1, d);
    } else if d < c {
      OffsetsGrow(clusters, d + 1, c);
    }
  }

  /** How many of the first `n` ids are among the passing rows. */
  function PassingCount(ids: seq<nat>, passing: seq<nat>, n: nat): nat
    requires n <= |ids|
  {
    if n == 0 then 0 else PassingCount(ids, passing, n - 1) + (if ids[n - 1] in passing then 1 else 0)
  }

  lemma {:induction false} OneMorePassing(ids: seq<nat>, passing: seq<nat>, row: nat, slot: nat, n: nat)
    requires n <= |ids| && row !in passing
    requires forall i :: 0 <= i < n ==> (ids[i] == row <==> i == slot)
    ensures PassingCount(ids, passing + [row], n) == PassingCount(ids, passing, n) + (if slot < n then 1 else 0)
  {
    if n > 0 {
      OneMorePassing(ids, passing, row, slot, n - 1);
    }
  }

  class PredicateEvaluator {
    /** The number of passing rows per cluster. */
    const nPassingTuples: array<nat>
    /** One entry per stored row, cluster after cluster: 1 if the row passed. */
    const selectionVector: array<nat>

    constructor (nClusters: nat, totalNumEmbeddings: nat)
      ensures fresh(nPassingTuples) && nPassingTuples.Length == nClusters
      ensures fresh(selectionVector) && selectionVector.Length == totalNumEmbeddings
      ensures nPassingTuples != selectionVector
      ensures forall c :: 0 <= c < nClusters ==> nPassingTuples[c] == 0
      ensures forall p :: 0 <= p < totalNumEmbeddings ==> selectionVector[p] == 0
    {
      nPassingTuples := new nat[nClusters](_ => 0);
      selectionVector := new nat[totalNumEmbeddings](_ => 0);
    }

    ghost predicate Evaluates(clusters: seq<StoredCluster>, passing: seq<nat>)
      reads nPassingTuples, selectionVector
    {
      nPassingTuples != selectionVector && Evaluation(clusters, passing, nPassingTuples[..], selectionVector[..])
    }

    /** Marks one more passing row. */
    method Mark(clusters: seq<StoredCluster>, offsets: seq<nat>, m: RowIdClusterMapping, ghost row: nat,
                ghost passing: seq<nat>)
      requires |offsets| == |clusters| && forall c :: 0 <= c < |clusters| ==> offsets[c] == ClusterOffset(clusters, c)
      requires Evaluates(clusters, passing) && row !in passing
      requires m.clusterId < |clusters| && m.indexInCluster < |clusters[m.clusterId].ids|
      requires OnlySlot(clusters, row, m)
      modifies nPassingTuples, selectionVector
      ensures Evaluates(clusters, passing + [row])
    {
      ghost var counts, selection := nPassingTuples[..], selectionVector[..];
      var c0, i0 := m.clusterId, m.indexInCluster;
      SlotsAreDistinct(clusters, c0, i0, c0, i0);
      MarkedCounts(clusters, passing, row, m, counts);
      MarkedSelection(clusters, passing, row, m, selection);
      nPassingTuples[c0] := nPassingTuples[c0] + 1;
      assert nPassingTuples[..] == counts[c0 := counts[c0] + 1];
      selectionVector[offsets[c0] + i0] := 1;
      assert selectionVector[..] == selection[ClusterOffset(clusters, c0) + i0 := 1];
    }
  }

  function Bit(b: bool): nat {
    if b then 1 else 0
  }

  /** The counts are those of the passing rows, cluster by cluster ... */
  ghost predicate CountsOf(clusters: seq<StoredCluster>, passing: seq<nat>, counts: seq<nat>) {
    && |counts| == |clusters|
    && forall c :: 0 <= c < |clusters| ==> counts[c] == PassingCount(clusters[c].ids, passing, |clusters[c].ids|)
  }

  /** ... and the selection is 1 exactly at their slots. */
  ghost predicate SelectionOf(clusters: seq<StoredCluster>, passing: seq<nat>, selection: seq<nat>) {
    && |selection| == ClusterOffset(clusters, |clusters|)
    && forall c, i :: 0 <= c < |clusters| && 0 <= i < |clusters[c].ids| ==>
         SlotIs(clusters, selection, c, i, Bit(clusters[c].ids[i] in passing))
  }

  ghost predicate Evaluation(clusters: seq<StoredCluster>, passing: seq<nat>, counts: seq<nat>, selection: seq<nat>) {
    CountsOf(clusters, passing, counts) && SelectionOf(clusters, passing, selection)
  }

  ghost predicate SlotIs(clusters: seq<StoredCluster>, selection: seq<nat>, c: nat, i: nat, value: nat)
    requires c < |clusters| && i < |clusters[c].ids|
  {
    var p := ClusterOffset(clusters, c) + i;
    p < |selection| && selection[p] == value
  }

  ghost predicate OnlySlot(clusters: seq<StoredCluster>, row: nat, m: RowIdClusterMapping) {
    forall c, i :: 0 <= c < |clusters| && 0 <= i < |clusters[c].ids| ==>
      (clusters[c].ids[i] == row <==> m == Mapping(c, i))
  }

  lemma MarkedCounts(clusters: seq<StoredCluster>, passing: seq<nat>, row: nat, m: RowIdClusterMapping,
                     counts: seq<nat>)
    requires CountsOf(clusters, passing, counts) && row !in passing && OnlySlot(clusters, row, m)
    requires m.clusterId < |clusters| && m.indexInCluster < |clusters[m.clusterId].ids|
    ensures CountsOf(clusters, passing + [row], counts[m.clusterId := counts[m.clusterId] + 1])
  {
    forall c | 0 <= c < |clusters|
      ensures PassingCount(clusters[c].ids, passing + [row], |clusters[c].ids|)
              == counts[c] + (if c == m.clusterId then 1 else 0)
    {
      var ids := clusters[c].ids;
      var slot := if c == m.clusterId then m.indexInCluster else |ids|;
      assert forall i :: 0 <= i < |ids| ==> (ids[i] == row <==> m == Mapping(c, i));
      OneMorePassing(ids, passing, row, slot, |ids|);
    }
  }

  lemma MarkedSelection(clusters: seq<StoredCluster>, passing: seq<nat>, row: nat, m: RowIdClusterMapping,
                        selection: seq<nat>)
    requires SelectionOf(clusters, passing, selection) && OnlySlot(clusters, row, m)
    requires m.clusterId < |clusters| && m.indexInCluster < |clusters[m.clusterId].ids|
    ensures var p := ClusterOffset(clusters, m.clusterId) + m.indexInCluster;
            p < |selection| && SelectionOf(clusters, passing + [row], selection[p := 1])
  {
    var c0, i0 := m.clusterId, m.indexInCluster;
    var p := ClusterOffset(clusters, c0) + i0;
    SlotsAreDistinct(clusters, c0, i0, c0, i0);
    forall c, i | 0 <= c < |clusters| && 0 <= i < |clusters[c].ids|
      ensures SlotIs(clusters, selection[p := 1], c, i, Bit(clusters[c].ids[i] in passing + [row]))
    {
      SlotsAreDistinct(clusters, c, i, c0, i0);
      assert SlotIs(clusters, selection, c, i, Bit(clusters[c].ids[i] in passing));
    }
  }

  lemma RowHasOneSlot(clusters: seq<StoredCluster>, metadata: seq<RowIdClusterMapping>, row: nat)
    requires MapsBack(clusters, metadata) && Indexed(clusters, metadata, row)
    ensures OnlySlot(clusters, row, metadata[row % DEFAULT_ROW_GROUP_SIZE])
  {
  }

  function SetOf(s: seq<nat>): set<nat> {
    set x | x in s
  }

  lemma {:induction false} NoRepeatsCounts(s: seq<nat>)
    requires NoRepeats(s)
    ensures |SetOf(s)| == |s|
  {
    if s != [] {
      var init, last := s[..|s| - 1], s[|s| - 1];
      NoRepeatsCounts(init);
      assert SetOf(s) == SetOf(init) + {last};
    }
  }

  ghost predicate AllIndexed(clusters: seq<StoredCluster>, metadata: seq<RowIdClusterMapping>, passing: seq<nat>) {
    MapsBack(clusters, metadata) && NoRepeats(passing)
    && forall j :: 0 <= j < |passing| ==> Indexed(clusters, metadata, passing[j])
  }

  /** Evaluates the passing rows of a row group. */
  method CreatePredicateEvaluator(passing: seq<nat>, clusters: seq<StoredCluster>, offsets: seq<nat>,
                                  metadata: seq<RowIdClusterMapping>)
      returns (evaluator: PredicateEvaluator)
    requires |offsets| == |clusters| && forall c :: 0 <= c < |clusters| ==> offsets[c] == ClusterOffset(clusters, c)
    requires AllIndexed(clusters, metadata, passing)
    ensures evaluator.Evaluates(clusters, passing)
    ensures fresh(evaluator.nPassingTuples) && fresh(evaluator.selectionVector)
  {
    evaluator := EmptyEvaluator(clusters, offsets);
    MarkAll(evaluator, passing, clusters, offsets, metadata);
  }

  method MarkAll(evaluator: PredicateEvaluator, passing: seq<nat>, clusters: seq<StoredCluster>, offsets: seq<nat>,
                 metadata: seq<RowIdClusterMapping>)
    requires |offsets| == |clusters| && forall c :: 0 <= c < |clusters| ==> offsets[c] == ClusterOffset(clusters, c)
    requires AllIndexed(clusters, metadata, passing) && evaluator.Evaluates(clusters, [])
    modifies evaluator.nPassingTuples, evaluator.selectionVector
    ensures evaluator.Evaluates(clusters, passing)
  {
    assert passing[..0] == [];
    var j := 0;
    while j < |passing|
      invariant j <= |passing| && evaluator.Evaluates(clusters, passing[..j])
    {
      MarkRow(evaluator, passing, j, clusters, offsets, metadata);
      j := j + 1;
    }
    assert passing[..j] == passing;
  }

  method MarkRow(evaluator: PredicateEvaluator, passing: seq<nat>, j: nat, clusters: seq<StoredCluster>,
                 offsets: seq<nat>, metadata: seq<RowIdClusterMapping>)
    requires |offsets| == |clusters| && forall c :: 0 <= c < |clusters| ==> offsets[c] == ClusterOffset(clusters, c)
    requires AllIndexed(clusters, metadata, passing) && j < |passing|
    requires evaluator.Evaluates(clusters, passing[..j])
    modifies evaluator.nPassingTuples, evaluator.selectionVector
    ensures evaluator.Evaluates(clusters, passing[..j + 1])
  {
    NextPassing(passing, j, clusters, metadata);
    evaluator.Mark(clusters, offsets, metadata[passing[j] % DEFAULT_ROW_GROUP_SIZE], passing[j], passing[..j]);
  }

  lemma NextPassing(passing: seq<nat>, j: nat, clusters: seq<StoredCluster>, metadata: seq<RowIdClusterMapping>)
    requires MapsBack(clusters, metadata) && NoRepeats(passing) && j < |passing|
    requires Indexed(clusters, metadata, passing[j])
    ensures OnlySlot(clusters, passing[j], metadata[passing[j] % DEFAULT_ROW_GROUP_SIZE])
    ensures passing[j] !in passing[..j] && passing[..j + 1] == passing[..j] + [passing[j]]
  {
    RowHasOneSlot(clusters, metadata, passing[j]);
  }

  method EmptyEvaluator(clusters: seq<StoredCluster>, offsets: seq<nat>) returns (evaluator: PredicateEvaluator)
    requires |offsets| == |clusters| && forall c :: 0 <= c < |clusters| ==> offsets[c] == ClusterOffset(clusters, c)
    ensures evaluator.Evaluates(clusters, [])
    ensures fresh(evaluator.nPassingTuples) && fresh(evaluator.selectionVector)
  {
    var total := 0;
    if |clusters| > 0 {
      total := offsets[|clusters| - 1] + |clusters[|clusters| - 1].ids|;
    }
    evaluator := new PredicateEvaluator(|clusters|, total);
    NothingPasses(clusters);
    InitiallyEvaluates(evaluator, clusters);
  }

  lemma NothingPasses(clusters: seq<StoredCluster>)
    ensures forall c :: 0 <= c < |clusters| ==> PassingCount(clusters[c].ids, [], |clusters[c].ids|) == 0
  {
    forall c | 0 <= c < |clusters| ensures PassingCount(clusters[c].ids, [], |clusters[c].ids|) == 0 {
      NonePass(clusters[c].ids, |clusters[c].ids|);
    }
  }

  lemma {:induction false} NonePass(ids: seq<nat>, n: nat)
    requires n <= |ids|
    ensures PassingCount(ids, [], n) == 0
  {
    if n > 0 {
      NonePass(ids, n - 1);
    }
  }

  lemma InitiallyEvaluates(evaluator: PredicateEvaluator, clusters: seq<StoredCluster>)
    requires evaluator.nPassingTuples.Length == |clusters| && evaluator.nPassingTuples != evaluator.selectionVector
    requires evaluator.selectionVector.Length == ClusterOffset(clusters, |clusters|)
    requires forall c :: 0 <= c < |clusters| ==> evaluator.nPassingTuples[c] == 0
    requires forall p :: 0 <= p < evaluator.selectionVector.Length ==> evaluator.selectionVector[p] == 0
    requires forall c :: 0 <= c < |clusters| ==> PassingCount(clusters[c].ids, [], |clusters[c].ids|) == 0
    ensures evaluator.Evaluates(clusters, [])
  {
    var none: seq<nat> := [];
    forall c, i | 0 <= c < |clusters| && 0 <= i < |clusters[c].ids|
      ensures SlotIs(clusters, evaluator.selectionVector[..], c, i, Bit(clusters[c].ids[i] in none))
    {
      SlotsAreDistinct(clusters, c, i, c, i);
    }
    assert evaluator.Evaluates(clusters, none);
  }
}
