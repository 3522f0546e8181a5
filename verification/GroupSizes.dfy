/** How many clusters the row groups of a table get, and which row groups are too small for them. */
module GroupSizes {
  import opened Common
  import opened RowGroups

  /** The same number for every row group of an index over `n` embeddings. */
  function ComputeNumClusters(n: nat): nat {
    if n < 2048 then 1 else if n < DEFAULT_ROW_GROUP_SIZE / 4 then 120 else 480
  }

  /** One cluster below 2048 embeddings, 480 from a quarter of a full row group on, 120 in between. */
  lemma ClusterCounts(n: nat)
    ensures ComputeNumClusters(n) == 1 <==> n < 2048
    ensures ComputeNumClusters(n) == 480 <==> n >= 30720
    ensures ComputeNumClusters(n) in {1, 120, 480}
  {
  }

  /** The number of rows below `n` that belong to row group `g`. */
  function GroupSize(n: nat, g: nat): nat {
    if n <= g * DEFAULT_ROW_GROUP_SIZE then 0
    else Min(n - g * DEFAULT_ROW_GROUP_SIZE, DEFAULT_ROW_GROUP_SIZE)
  }

  /** All row groups of a table of `n` rows hold at least as many rows as they get clusters. */
  ghost predicate EnoughRows(n: nat) {
    forall g: nat :: GroupSize(n, g) > 0 ==> GroupSize(n, g) >= ComputeNumClusters(n)
  }

  lemma LastGroup(n: nat)
    ensures GroupSize(n, n / DEFAULT_ROW_GROUP_SIZE) == n % DEFAULT_ROW_GROUP_SIZE
  {
  }

  lemma OtherGroups(n: nat, g: nat)
    requires g != n / DEFAULT_ROW_GROUP_SIZE
    ensures GroupSize(n, g) == if g < n / DEFAULT_ROW_GROUP_SIZE then DEFAULT_ROW_GROUP_SIZE else 0
  {
  }

  /** The set-up asserts that a row group has at least as many embeddings as clusters. As the number
      of clusters is computed from the whole table, this holds exactly if the last row group is full
      or not too small. */
  lemma LastGroupDecides(n: nat)
    ensures EnoughRows(n)
            <==> n % DEFAULT_ROW_GROUP_SIZE == 0 || n % DEFAULT_ROW_GROUP_SIZE >= ComputeNumClusters(n)
  {
    LastGroup(n);
    forall g: nat | g != n / DEFAULT_ROW_GROUP_SIZE
      ensures GroupSize(n, g) > 0 ==> GroupSize(n, g) >= ComputeNumClusters(n)
    {
      OtherGroups(n, g);
    }
    assert n % DEFAULT_ROW_GROUP_SIZE != 0 ==> GroupSize(n, n / DEFAULT_ROW_GROUP_SIZE) > 0;
  }

  /** One row more than a full row group is enough to violate it. */
  lemma OneRowMore()
    ensures GroupSize(122881, 1) == 1 && ComputeNumClusters(122881) == 480 && !EnoughRows(122881)
  {
    assert GroupSize(122881, 1) == 1;
  }
}
