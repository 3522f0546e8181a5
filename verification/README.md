# Verified model of the PDXearch vector index

PDXearch is an index for k-nearest-neighbour search in DuckDB. Every row group of a table is
clustered, each cluster is stored in a transposed layout, and a query prunes vectors against a
threshold taken from a max-heap that all row groups share. This project models that search and the
operators around it in Dafny and proves what they guarantee.

## What is proved

* **Search under concurrency.** `SearchMachine` and `Interleaving` describe the parallel search as
  a machine whose steps are cut where the code holds the heap mutex: one threshold read, one push.
  Over every interleaving, with thresholds as stale as the code lets them become, a search ends, is
  never stuck, and ends with exactly min(k, n) real candidates, whatever the pruner's ratios are.
  With faithful thresholds it ends with a k-nearest set. `Thresholds` says what a checkpoint does in terms
  of the query, the stored vectors, the table of ratios and the heap alone: which vectors it drops, when
  the warmup goes on, what a survivor goes on to.
* **When the search is exact.** `Exactness` proves that lossless row groups whose stored constants are
  compatible are searched exactly under every schedule. `Truncation` proves that nothing less will do:
  U8 row groups, any number of them, are always searched exactly if and only if their constants are
  compatible. `Rounding` defines the single-precision products this is about, `StoredScales` gives
  constants that are compatible and constants that are not, `NearlyExact` bounds what can be lost, and
  `ShippedPruner` decides exactness with the shipped ratios.
* **The imperative search refines that machine.** `Layout`, `Kernels`, `PruneSteps`, `WarmupPhase`,
  `PrunePhase` and `Searcher` are the loops of the source over arrays and a shared heap. Their
  postconditions state that what they do is a run of the machine (`Leads`), in which every
  acquisition of the mutex may find any pushes of the other tasks in the heap. `ProbedRows` counts what
  they return over the stored clusters and the access order. `LocalRuns` proves
  that every run of the whole machine looks like this to each task. If nobody else uses the heap, the
  postconditions leave no room for foreign pushes, and `OneRowGroup` follows the imperative operators
  of a one-row-group table from the passing rows to the rows returned.
* **Instruction sets.** `SimdLanes` and `SimdKernels` prove the AVX2 and NEON kernels for U8 against
  the same specification as the scalar ones.
* **Operators.** `FilteredScan`, `FilteredScanState` and `FilteredRows` prove the iterative filtered
  scan from the passing rows to the rows it returns, `IterationBound` and `Stopping` how many iterations
  it takes; `UnfilteredScan` the start, block and wake-up protocol of the unfiltered scan,
  `UnfilteredResult` that protocol together with the search it starts, as one machine; `Buffering` how rows reach the index; `RowGroups` how a row group
  is built and how passing rows select vectors. `BuiltRowGroups` and `BuildAndScan` join the two ends:
  from the embeddings of a row group to the rows a filtered scan of it returns.
* **Around the search.** `Quantizer` (error of quantized distances), `BlobCodec` (round trips),
  `Recall` (more probes never lower recall), `AccessOrder`, `Plans`, `ScanOptimizer` and
  `OptimizerReach` (the plan rewriting: that it keeps outputs, and exactly what it rewrites). The single-index variant is in `GlobalStart`, `MaskLimit` and `GlobalSearch`;
  `GlobalExactness` decides when it finds the k nearest.

## Where the code does not do what its documentation or an assertion says

* *U8 thresholds are cut down to whole units.* A threshold is scaled to the row group's own units and
  cut down to a `uint32_t`; the distance it comes from has been scaled back by a stored inverse, in the
  units of its own row group. Both products are rounded. A nearer vector is dropped if a distance comes
  back as fewer whole units than it should. `Truncation.ScalesDecideExactness`: lossless U8 row groups
  are searched exactly on all data, queries and schedules if and only if this happens to none of the
  distances that bytes can have (`Compatible`). One row group can be enough: for a data range of 51 the
  constants are 25.0f and the float nearest to 0.04, five units come back as four, and a vector at four
  units is lost (`StoredScales.FiveUnitsAreFour`). With different scales an exact match can be
  lost (`StoredScales.MatchIsLost`). Constants that are one power of two are exact
  (`StoredScales.PowersOfTwoAreExact`). What is lost is never more than one unit and five roundings
  (`NearlyExact.ParallelSearchIsNearlyExact`).
* *Shipped ratios.* With the shipped aggressiveness the ratios read at checkpoints are at least 1 exactly
  up to 30 dimensions (`Exactness.ShippedIsLosslessUpToThirty`), and this decides exactness: an F32
  search is exact on all data if and only if it has at most 30 dimensions, a U8 search if and only if
  its constants are compatible as well (`ShippedPruner`).
* *Initialisation order.* `max_num_probe_iterations` is a member initialised before the constructor's
  body assigns the number of clusters of the first iteration, so it is computed with 0 in its place.
  `IterationBound.BoundsAgree` says exactly when that makes no difference;
  `IterationBound.MoreIterationsThanDocumented` is a scan of 480 clusters, 24 of them probed first,
  that performs 97 iterations where the comment on the function bounds them by 93. The results about
  the filtered scan hold for any count up to the real one, and so for both readings.
* *Too few rows for the clusters.* The set-up asserts that a row group has at least as many embeddings
  as clusters, but the number of clusters is computed from the whole table:
  `GroupSizes.LastGroupDecides` gives the exact condition, `GroupSizes.OneRowMore` a table that
  violates it. `RowGroups` does not rely on the assertion; clusters may be empty.
* *TopN with an offset.* The plan rewriting reads only the limit. `ScanOptimizer.OffsetDecides`: it
  is right for every database if and only if the offset is 0.
* *Blanked projections.* The comment on the plan rewriting shows the distance replaced by NULL under
  the parallel unfiltered scan as well, but the code matches only the global scan function and the
  filtered scan. The model follows the code; the outputs are the same.
* *Quantizing and encoding far values.* `Quantizer.ConvertibleExactly` and `BlobCodec.WrapsNegative`
  give the values whose conversion to an integer is outside the type. For the blob codec the model
  covers both the saturating conversion (ARM) and the one of x86, where a large positive value is
  restored to the negative end of the range (`BlobCodec.ClampedIsRestored`).
* *Global search discards nearer vectors.* While the heap fills, the rest of a cluster is thrown
  away. `GlobalExactness.SizesDecideExactness`: with n_i eligible vectors in the i-th cluster visited
  and S of them in the clusters before, a lossless search is exact on all data with these numbers if and
  only if 0 < S < k < S + n_i for no i, that is if no cluster overfills a heap that holds something but
  is not full. A nearest eligible vector is found in any case.
* *Masked vectors.* The start of a filtered global search masks unselected vectors with half the
  greatest distance. `MaskLimit.MaskDecides`: they stay out of the first places, however ties are
  broken, if and only if there are none or every selected distance is below the mask. For U8 it always
  is; for F32 it need not be.

## Conventions

* Every finite single-precision number is a multiple of 2^-149, so an F32 coordinate is an integer in
  that unit and a squared distance an integer in the unit 2^-298; F32 arithmetic on them is exact. A U8
  coordinate is an integer in 0..255 and a U8 accumulator is proved never to wrap a `uint32_t`. U8
  thresholds and published distances are computed in single precision, operation by operation as in
  the code: rounded to nearest, ties to even, subnormal numbers included; numbers beyond the largest
  float are rounded as if exponents went on, and `Headroom` keeps distances below it. The two constants
  a U8 row group stores are independent parameters; `IsStored` says what the constructor of the index
  stores. Distances in the heap are reals.
* `std::priority_queue` is a multiset whose top is any element of greatest distance, so every way of
  breaking ties is covered. `std::sort` and `std::partial_sort` are specified by their contracts; the
  access order of the clusters is a parameter of the search, which `AccessOrder` computes.
* What stands in for the environment: chunks do not straddle row groups; a row group is scanned by
  one thread, each with non-decreasing row-group ids; passing row ids are distinct and indexed; no
  embedding is NULL; all row groups have the same number of clusters; k >= 1 (LIMIT 0 does not reach
  the operators); embeddings and queries arrive preprocessed; the executor finishes an event once
  all its tasks have, and there is at least one row group.
* Every distance is below FLT_MAX and below the thresholds derived from it (`Headroom`). For U8,
  with the shipped ratios or lossless ones, this is proved (`ByteHeadroom.BytesAreRoomy`) for all stored
  constants in a wide range (`Sensible`): a squared scale of at least 2^48 / FLT_MAX and at most 2^100,
  and an inverse below FLT_MAX / 2^33.

## Model

| member | source | states |
|---|---|---|
| Common.SplitIsSound | src/include/pdxearch/common.hpp:143-166 | for 1 to 16384 dimensions the split never wraps: H + V = D, V >= 1, H is a multiple of 64, and H = 0 exactly below 128 dimensions |
| Common.SplitIsThreeQuarters | src/include/pdxearch/common.hpp:143-166 | above 128 dimensions H is the one multiple of 64 with -127 <= 4H - 3D <= 128, and so the one nearest to three quarters of the dimensions, rounded down |
| Common.AssertedSplits | src/include/pdxearch/common.hpp:168-196 | the splits the source asserts at compile time, among them 256, 1024 and 1028 dimensions |
| Common.FetchingSizesSuffice | src/include/pdxearch/pdxearch.hpp:216-227 | the warmup loop makes progress with every group and never indexes past the 20 fetching sizes |
| Common.FetchStopAligned | src/include/pdxearch/common.hpp:37-49 | every dimension the warmup stops at lies on a boundary of the interleaved layout |
| Common.FetchStopIsSum | src/include/pdxearch/common.hpp:37-49 | the dimensions the warmup stops at are the running sums of the fetching sizes, cut off at the end of the vertical part |
| Distances.SqDistSplit | src/include/pdxearch/distance_computers/scalar_computers.hpp:36-45 | a squared distance splits at any dimension into the distances over both parts |
| Distances.SqDistOfOne | src/include/pdxearch/distance_computers/scalar_computers.hpp:36-45 | over one dimension it is the square of the difference, which with the split fixes it over all |
| Distances.SqDistAtBytes | src/include/pdxearch/distance_computers/scalar_computers.hpp:91-99 | a distance of bytes over n dimensions is at most 255^2 n |
| KnnHeap.AbsorbedKeepsAccount | src/include/pdxearch/pdxearch.hpp:290-309 | one round of the merge loop loses nothing unaccounted for, never raises the top, keeps the heap within k, and the initialization element leaves only when the heap is full of real candidates |
| KnnHeap.AbsorbedKeepsOrder | src/include/pdxearch/pdxearch.hpp:290-309 | whatever leaves the heap, or is not let in, lies at or above the new top |
| KnnHeap.AbsorbedExactly | src/include/pdxearch/pdxearch.hpp:290-309 | a candidate is let in exactly if there is room or it is nearer than some element of the heap, and then without room a farthest element makes way for it |
| SearchMachine.PartialBelowFull | src/include/pdxearch/pdxearch.hpp:230-288 | the distance over any warmup prefix and any horizontal blocks is at most the full one, and equal to it once all dimensions are visited |
| SearchMachine.SieveSplits | src/include/pdxearch/pdxearch.hpp:118-152 | a checkpoint divides the candidates into those that stay and those that go, none twice, none missing |
| SearchMachine.TaskStepKeepsValid | src/include/pdxearch/pdxearch.hpp:195-309 | every step of a task leads to a state at a reachable checkpoint with valid positions |
| SearchMachine.TaskStepConserves | src/include/pdxearch/pdxearch.hpp:195-309 | every step conserves candidates: heap plus held before is heap plus held plus lost after |
| Rounding.RoundedIsNearest | src/include/pdxearch/pdxearch.hpp:107-112 | the rounding of U8 products: no single-precision number is nearer than the one chosen |
| Mantissas.FloatsAreMantissas | src/include/pdxearch/pdxearch.hpp:107-112 | the numbers rounding keeps are exactly those of 24 significant bits at an exponent from -149 on |
| Mantissas.TiesToEven | src/include/pdxearch/pdxearch.hpp:107-112 | halfway between two of them, subnormal ones included, the one with the even mantissa is chosen |
| Thresholds.PublishedIsRoundedTwice | src/include/pdxearch/pdxearch.hpp:290-309 | a U8 distance is rounded when it is converted and again when it is scaled: 16777217 is published as 16777216, and 16777219 times 3 not as the float nearest to the product |
| Thresholds.ReadsFarthest | src/include/pdxearch/pdxearch.hpp:101-116 | a threshold read sees the distance of a farthest candidate of the heap at that moment |
| Thresholds.FloatsAreDropped | src/include/pdxearch/pruners/adsampling.hpp:50-55 | at a checkpoint after v vertical and h horizontal dimensions an F32 vector in play is dropped if and only if its distance over these, in the units of the heap, is at least the top times the ratio tabulated for v + h (times 1 after all dimensions) |
| Thresholds.BytesAreDropped | src/include/pdxearch/pdxearch.hpp:101-116 | a U8 vector is dropped if and only if its distance over these, a whole number, is at least that product in single precision, cut down to a `uint32_t` |
| Thresholds.ShippedFloatsAreDropped | src/include/pdxearch/pruners/adsampling.hpp:72-82 | with the shipped ratios the factor is (sqrt(v + h) + 1.5)^2 / D for all D, stated through the positive square root |
| Thresholds.ShippedBytesAreDropped | src/include/pdxearch/pruners/adsampling.hpp:72-82 | the same factor for U8, in the product that single precision computes |
| Thresholds.MaskIsHalf | src/include/pdxearch/pdxearch.hpp:163-171 | an unselected vector starts with half the greatest distance of its type |
| Thresholds.WarmupGoesOn | src/include/pdxearch/pdxearch.hpp:195-228 | the warmup goes on exactly while vertical dimensions are left and fewer than four fifths of the vectors, masked ones included, have reached the threshold |
| Thresholds.TakesUpNext | src/include/pdxearch/pdxearch.hpp:345-370 | a cluster taken up is skipped if nothing is selected, judged at once if fewer than a fifth are, and else warmed up |
| Thresholds.SurvivorsGoOn | src/include/pdxearch/pdxearch.hpp:230-288 | survivors go on to the next horizontal block of 64, then to the next 64 vertical dimensions, and are merged after the last |
| Interleaving.NothingDroppedBeforeFull | src/include/pdxearch/pruners/adsampling.hpp:50-55 | with the initialization element on top no checkpoint drops any vector, whatever the ratios |
| Interleaving.StepKeepsInv | src/include/pdxearch/pdxearch.hpp:101-116 | every step of every task keeps the accounts and the staleness bound (a threshold read earlier is never below the current top), and never raises the top |
| Interleaving.StepKeepsOrder | src/include/pdxearch/pdxearch.hpp:230-309 | with faithful thresholds every step keeps everything lost at or above the top |
| Interleaving.EveryRunCounts | src/include/pdxearch/pdxearch.hpp:337-370 | for every interleaving and all ratios a complete search ends with exactly min(k, n) of the n selected vectors in the probed clusters |
| Interleaving.EveryRunIsNearest | src/include/pdxearch/pdxearch.hpp:337-370 | for every interleaving, with faithful thresholds, these are a k-nearest set (up to the slack of the thresholds) |
| Interleaving.EveryRunEnds | src/include/pdxearch/pdxearch.hpp:195-370 | no interleaving makes a run longer than a measure of its first state |
| Interleaving.NeverStuck | src/include/pdxearch/pdxearch.hpp:337-370 | as long as some task is not finished some step is possible |
| Exactness.F32Faithful | src/include/pdxearch/pdxearch.hpp:101-116 | F32 thresholds are faithful as soon as every ratio at a checkpoint is at least 1 |
| Exactness.U8Faithful | src/include/pdxearch/pdxearch.hpp:107-112 | a lossless U8 threshold is faithful to every distance that its row group preserves: one that, in whole units, no nearer vector reaches |
| Exactness.ParallelSearchIsExact | src/include/pdxearch/pdxearch.hpp:337-370 | a lossless search of F32 row groups, or of U8 row groups with compatible stored constants, ends with a k-nearest set under every interleaving |
| NearlyExact.U8NearlyFaithful | src/include/pdxearch/pdxearch.hpp:107-112 | whatever constants the row group stores, a lossless U8 threshold is faithful up to one quantization unit and five roundings |
| NearlyExact.ParallelSearchIsNearlyExact | src/include/pdxearch/pdxearch.hpp:101-116 | whatever constants U8 row groups store, equal or not, a lossless search under any schedule is exact up to that loss |
| Exactness.CheckpointsOfSmallD | src/include/pdxearch/pdxearch.hpp:204-288 | up to 30 dimensions the only points where a vector can be dropped are 0, 16 and D |
| Exactness.ShippedIsLosslessUpToThirty | src/include/pdxearch/pruners/adsampling.hpp:72-82 | with aggressiveness 1.5 all ratios read at checkpoints are at least 1 if and only if D <= 30 |
| Exactness.SmallDimensionsSearchExactly | src/include/pdxearch/pruners/adsampling.hpp:50-82 | so up to 30 dimensions every parallel search of F32 row groups, or of U8 row groups with compatible constants, is exact |
| ShippedPruner.ShippedFloatsAreExactUpToThirty | src/include/pdxearch/pruners/adsampling.hpp:50-82 | with the shipped ratios an F32 search is exact on all data, queries and schedules if and only if there are at most 30 dimensions |
| ShippedPruner.ShippedBytesAreExact | src/include/pdxearch/pruners/adsampling.hpp:50-82 | a U8 search is exact on all of them if and only if there are at most 30 dimensions and the stored constants are compatible |
| Truncation.CompatibleIsExact | src/include/pdxearch/pdxearch.hpp:101-116 | lossless U8 row groups, any number of them, with compatible constants are searched exactly on all data, queries and schedules |
| Truncation.BrokenIsLossy | src/include/pdxearch/pdxearch.hpp:101-116 | two distances of bytes of which the greater comes back as too few units give a complete search that loses the nearer vector, whatever the ratios |
| Truncation.ScalesDecideExactness | src/include/pdxearch/pdxearch.hpp:101-116 | any number of lossless U8 row groups, a single one included, is searched exactly on all data, queries and schedules if and only if their stored constants are compatible |
| StoredScales.FiveUnitsAreFour | src/include/pdxearch/index_base/pdx_ivf.hpp:63-74 | the constants stored for a data range of 51, 25.0f and the float nearest to 0.04, are not compatible: already a single row group loses a vector at 4 units for one at 5 |
| StoredScales.MatchIsLost | src/include/pdxearch/index_base/pdx_ivf.hpp:63-74 | if the unit of one row group rounds to less than a unit of another, an exact match in the other can be lost |
| StoredScales.PowersOfTwoAreExact | src/include/pdxearch/index_base/pdx_ivf.hpp:63-74 | row groups that all store the same power of two and its inverse are always searched exactly |
| ByteHeadroom.BytesAreRoomy | src/include/pdxearch/pdxearch.hpp:101-116 | with the shipped or lossless ratios no U8 distance at up to 16384 dimensions reaches a threshold derived from the initialization element, for all constants in the sensible range |
| Layout.BlocksPartition | src/include/index/pdxearch_index_utils.hpp:98-135 | the blocks of the layout are disjoint, in order, and none crosses the end of the vertical part or of the vector |
| Layout.PositionIs | src/include/index/pdxearch_index_utils.hpp:98-135 | where each (vector, dimension) is stored: vertical dimensions column by column or four at a time, the compact tail of U8, horizontal dimensions 64 at a time |
| Layout.PositionIsInjective | src/include/index/pdxearch_index_utils.hpp:98-135 | every (vector, dimension) has a position within the buffer from which both can be recovered, compact tail included |
| Layout.PositionIsSurjective | src/include/index/pdxearch_index_utils.hpp:98-135 | every position of the buffer is that of some (vector, dimension) |
| Layout.ReadBackOfImage | src/include/index/pdxearch_index_utils.hpp:70-135 | reading back a stored cluster gives the embeddings |
| Layout.ImageOfReadBack | src/include/index/pdxearch_index_utils.hpp:70-135 | a buffer is determined by what is read back from it |
| Layout.StoreClusterEmbeddings | src/include/index/pdxearch_index_utils.hpp:66-135 | the storing loops, for F32 and U8, leave a buffer from which exactly the embeddings are read back |
| Kernels.BlockDistance | src/include/pdxearch/distance_computers/scalar_computers.hpp:68-86 | the values the loops read for one vector and one group of dimensions give its squared distance over that group |
| Kernels.VerticalF32 | src/include/pdxearch/distance_computers/scalar_computers.hpp:18-34 | adds to every target, and to nothing else, its row-major squared distance over the range |
| Kernels.VerticalU8 | src/include/pdxearch/distance_computers/scalar_computers.hpp:55-89 | the same for the interleaved groups of four and the compact tail, without wrapping |
| Kernels.Vertical | src/include/pdxearch/distance_computers/scalar_computers.hpp:18-89 | the same for both element types and both modes (all vectors, or the surviving positions) |
| Kernels.Horizontal | src/include/pdxearch/distance_computers/scalar_computers.hpp:36-99 | computes the squared distance of two vectors |
| Kernels.HorizontalOfBlock | src/include/pdxearch/pdxearch.hpp:253-259 | on the stored block at the computed offset it gives the vector's distance over those 64 dimensions |
| Kernels.GainSplit | src/include/pdxearch/pdxearch.hpp:216-227 | two successive passes add what one pass over both ranges adds, for any chunking |
| SimdLanes.AbsDiffIsDifference | src/include/pdxearch/distance_computers/avx2_computers.hpp:109-110 | the OR of two saturating subtractions (AVX2) and the absolute difference (NEON) are both the absolute difference of bytes |
| SimdLanes.LaneSumsAreFourSquares | src/include/pdxearch/distance_computers/avx2_computers.hpp:111-117 | unpack, multiply-add and horizontal add put the sum of the four squares of vector v into lane v, without overflow; so does the NEON sequence |
| SimdLanes.ReduceIsTotal | src/include/pdxearch/distance_computers/avx2_computers.hpp:164-170 | the final reductions give the sum of all lanes |
| SimdLanes.AccumulateAddsSquares | src/include/pdxearch/distance_computers/neon_computers.hpp:66-77 | one step of a horizontal kernel adds the squared norm of the register to the total of the lanes |
| SimdKernels.Vertical | src/include/pdxearch/distance_computers/avx2_computers.hpp:90-148 | the AVX2 and NEON vertical kernels meet the contract of the scalar one for every vector count and range, vector and dimension tails included |
| SimdKernels.VerticalAll | src/include/pdxearch/distance_computers/neon_computers.hpp:86-135 | the pass over all vectors with registers, for either instruction set |
| SimdKernels.Horizontal | src/include/pdxearch/distance_computers/avx2_computers.hpp:150-177 | the horizontal kernels compute the squared distance for every length |
| LocalRuns.EveryRunSeenByTask | src/include/pdxearch/pdxearch.hpp:101-116 | every run of the whole machine, seen by one task, is one the imperative search is proved against |
| SharedHeaps.SharedHeap.Push | src/include/pdxearch/pdxearch.hpp:299-307 | one round of the merge loop does to the heap what the machine's push does |
| SharedHeaps.SharedHeap.GetPruningThreshold | src/include/pdxearch/pdxearch.hpp:101-116 | the guarded read returns, after any pushes of other tasks, the top at that moment times the ratio tabulated for exactly the dimensions visited (1 after all of them), scaled, and for U8 cut down; which vectors that drops is stated by `Thresholds.FloatsAreDropped` and `Thresholds.BytesAreDropped` |
| SharedHeaps.SharedHeap.BuildResultSet | src/include/pdxearch/pdxearch.hpp:49-65 | drops the initialization element if it is on top, then returns the farthest at most k candidates of the rest, nearest first |
| SharedHeaps.ResultIsKept | src/include/pdxearch/pdxearch.hpp:49-65 | for heaps as the searches leave them what remains after the drop are exactly the real candidates |
| PruneSteps.SpanFits | src/include/pdxearch/pdxearch.hpp:163-171 | a U8 distance is below the mask value max/2 and fits a `uint32_t` even on top of it |
| PruneSteps.InitPositionsArray | src/include/pdxearch/pdxearch.hpp:135-152 | leaves the positions of the selected vectors below the threshold, in order |
| PruneSteps.EvaluatePruningPredicateOnPositionsArray | src/include/pdxearch/pdxearch.hpp:125-133 | compacts the positions in place to those below the threshold, in order |
| PruneSteps.PassingIsSieve | src/include/pdxearch/pdxearch.hpp:135-152 | with warmup distances those are the survivors of the machine's first checkpoint |
| PruneSteps.CompactedIsSieve | src/include/pdxearch/pdxearch.hpp:125-133 | with the distances visited so far those are the survivors of the machine's checkpoint |
| PruneSteps.SieveIncreases | src/include/pdxearch/pdxearch.hpp:125-152 | a checkpoint keeps the positions strictly increasing |
| PruneSteps.SurvivorsFit | src/include/pdxearch/pdxearch.hpp:248-275 | the next pass over surviving positions never wraps |
| WarmupPhase.ResetPruningDistances | src/include/pdxearch/pdxearch.hpp:97-99 | all accumulators of the cluster are zero |
| WarmupPhase.MaskDistancesWithSelectionVector | src/include/pdxearch/pdxearch.hpp:163-171 | exactly the unselected accumulators get half the greatest distance |
| WarmupPhase.EvaluatePruningPredicateScalar | src/include/pdxearch/pdxearch.hpp:118-123 | returns the number of accumulators that are at least the threshold |
| WarmupPhase.ReachingIsPrunable | src/include/pdxearch/pdxearch.hpp:118-123 | that count, masked entries included, is the one by which the machine decides to go on warming up |
| WarmupPhase.WarmupFits | src/include/pdxearch/pdxearch.hpp:163-171 | adding dimensions never wraps, not even on masked entries |
| WarmupPhase.Warmup | src/include/pdxearch/pdxearch.hpp:195-228 | is a run of the machine up to the first pruning checkpoint, and every accumulator holds exactly the dimensions visited (plus the mask where unselected) |
| PrunePhase.Checkpoint | src/include/pdxearch/pdxearch.hpp:263-266 | a threshold read and the compaction after it are the machine's read and judgement, positions stay increasing, and the survivors' distances cover the dimensions visited |
| PrunePhase.AddHorizontalBlock | src/include/pdxearch/pdxearch.hpp:248-259 | adds a horizontal block to the survivors and to nothing else |
| PrunePhase.JudgementExplains | src/include/pdxearch/pdxearch.hpp:118-152 | a judgement keeps only vectors below the threshold read for it, and every selected vector no longer in play has met, at some checkpoint of the run, the threshold derived from the top read there |
| PrunePhase.Prune | src/include/pdxearch/pdxearch.hpp:230-288 | is a run of the machine to the merge of the survivors: positions strictly increasing, every dimension counted once for each survivor; every survivor is below a threshold read after all dimensions, and every other selected vector met, at a checkpoint of a run leading there, the threshold read |
| RowGroups.InvertAssignment | src/include/index/pdxearch_kmeans.hpp:39-78 | lists for each cluster exactly the embeddings assigned to it, each once, in increasing order, also for one cluster |
| RowGroups.MembersHaveRanks | src/include/index/pdxearch_kmeans.hpp:70-78 | every embedding is in exactly one slot of exactly its own cluster, and every slot holds the embedding of that rank |
| RowGroups.RowGroup.SetUp | src/include/index/pdxearch_wrapper.hpp:198-237 | for any assignment, every row's mapping is its cluster and rank, and every cluster stores exactly its members' ids and embeddings |
| RowGroups.SetUpMapsBack | src/include/index/pdxearch_wrapper.hpp:211-237 | after the set-up the mapping is the inverse of the clusters' ids, and every row's slot, in its assigned cluster, holds its embedding |
| RowGroups.PredicateEvaluator.constructor | src/include/pdxearch/db_mock/predicate_evaluator.hpp:19-22 | starts with no passing rows in arrays of their own |
| RowGroups.PredicateEvaluator.Mark | src/include/index/pdxearch_wrapper.hpp:276-281 | marking a row extends the passing rows by that row, in counts and in selection vector |
| RowGroups.CreatePredicateEvaluator | src/include/index/pdxearch_wrapper.hpp:271-284 | for any passing rows the selection is 1 exactly at their slots and each count is the number of ones of its cluster |
| GroupSizes.LastGroupDecides | src/include/index/pdxearch_wrapper.hpp:133-177 | every row group has at least as many rows as clusters if and only if the last one is full or large enough |
| GroupSizes.OneRowMore | src/include/index/pdxearch_wrapper.hpp:177 | one row more than a full row group violates the assertion |
| GroupSizes.ClusterCounts | src/include/index/pdxearch_wrapper.hpp:133-145 | one cluster below 2048 embeddings, 480 from 30720 on, 120 in between |
| Searcher.ComputeOffsets | src/include/pdxearch/pdxearch.hpp:38-42 | the offsets are the sums of the sizes before and the maximum bounds every cluster |
| Searcher.PDXearch.constructor | src/include/pdxearch/pdxearch.hpp:33-43 | a searcher over the given clusters whose offsets and buffer size fit them |
| AccessOrder.GetClustersAccessOrder | src/include/pdxearch/pdxearch.hpp:173-192 | the access order is a permutation of the clusters; each of its first nProbe places holds a cluster whose centroid is, over all dimensions, at most as far from the query as those of all later places |
| Searcher.PDXearch.InitializeSearch | src/include/pdxearch/pdxearch.hpp:317-335 | a searcher ready for the query, at the start of the access order |
| Searcher.GetSelectionVector | src/include/pdxearch/db_mock/predicate_evaluator.hpp:24-26 | the slice of a cluster selects exactly its passing rows, and the count is their number |
| Searcher.MergeIntoHeap | src/include/pdxearch/pdxearch.hpp:290-309 | pushes every survivor with its full distance, as the machine does |
| Searcher.ProbeCluster | src/include/pdxearch/pdxearch.hpp:387-414 | probing one cluster, with or without a filter, is a run of the machine from taking it up to being idle |
| Searcher.PDXearch.Search | src/include/pdxearch/pdxearch.hpp:337-370 | is a run of the machine through exactly min(n, number of clusters) clusters, of which the j-th has the ids, rows and vectors of clusters[accessOrder[j]], all of them selected |
| Searcher.PDXearch.FilteredSearch | src/include/pdxearch/pdxearch.hpp:374-416 | is a run of the machine through the next clusters not probed yet, the j-th with the ids and vectors at the next place of the access order and exactly its passing rows selected, and advances the offset past exactly these |
| OneRowGroup.AloneCounts | src/include/pdxearch/pdxearch.hpp:337-370 | whatever the ratios, a search run alone on a fresh heap ends with exactly min(k, n) of the n selected vectors of its queue |
| OneRowGroup.AloneNearest | src/include/pdxearch/pdxearch.hpp:337-370 | with a lossless pruner, F32 or U8, these are the nearest ones |
| OneRowGroup.SearchRowGroup | src/index/search/pdxearch_index_scan_physical.cpp:109-155 | on a table of one row group, initialising, searching and draining the heap returns exactly min(k, n) rows, n being the number of rows stored in the clusters at the first nProbe places of the access order (all clusters if nProbe is 0 or too large), each one of those rows at the distance of its stored vector, nearest first, and the k nearest if the pruner is lossless |
| OneRowGroup.FilteredScanRowGroup | src/index/search/pdxearch_index_filtered_scan_physical.cpp:183-385 | on a table of one row group, evaluating the passing rows, iterating and draining the source returns exactly min(k, passing rows) rows, all different, all passing, nearest first, for every n_probe; it has then performed the least number of iterations whose clusters hold k passing rows, or the bound |
| ProbedRows.QueueCount | src/include/pdxearch/pdxearch.hpp:345-370 | the clusters at a range of places of the access order hold as many candidates as the stored clusters there hold rows (passing rows, with a filter) |
| ProbedRows.QueueRow | src/include/pdxearch/pdxearch.hpp:345-370 | every candidate of these clusters is a row stored there, at the distance of its stored vector |
| ProbedRows.AllRows | src/include/pdxearch/pdxearch.hpp:173-192 | over all places of any access order these are the rows of the whole index |
| BuiltRowGroups.BuiltIsSearchable | src/include/index/pdxearch_wrapper.hpp:198-284 | a row group as the set-up leaves it can be searched for any distinct passing rows among those indexed |
| BuiltRowGroups.BuiltCandidates | src/include/index/pdxearch_wrapper.hpp:198-284 | the candidates of a built row group are exactly the passing rows, one each, at the distances of their embeddings |
| BuildAndScan.BuildAndScan | src/index/search/pdxearch_index_filtered_scan_physical.cpp:183-385 | building a row group from its rows, embeddings and an assignment, then scanning it with a filter, returns exactly min(k, n) of the n passing rows, all different, in the order of the distances of their embeddings |
| FilteredScan.BoundCoversAllClusters | src/index/search/pdxearch_index_filtered_scan_physical.cpp:92-109 | computed with any first count up to the real one, that many iterations probe all clusters |
| Stopping.BoundIsLeast | src/index/search/pdxearch_index_filtered_scan_physical.cpp:92-109 | the bound is the least number of iterations in which the assumed first clusters, then five at a time, are all of them |
| Stopping.EmitsAsSoonAsFull | src/index/search/pdxearch_index_filtered_scan_physical.cpp:282-310 | under every schedule an emitting run has performed exactly the least number of iterations after which the first `first` + 5 (j - 1) clusters of each row group hold at least k passing candidates, or the bound if there is none |
| IterationBound.BoundsAgree | src/index/search/pdxearch_index_filtered_scan_physical.cpp:79-109 | the bound computed with 0 in place of the first count is the documented one if and only if there are no clusters or the first iteration probes at most as many as the last, incomplete follow-up iteration would |
| IterationBound.FewRowsTakeAllIterations | src/index/search/pdxearch_index_filtered_scan_physical.cpp:92-109 | with fewer than k passing rows the operator performs exactly as many iterations as its bound says, under every schedule |
| IterationBound.BoundIsReached | src/index/search/pdxearch_index_filtered_scan_physical.cpp:79-109 | every scan with fewer than k passing rows has a run that takes all iterations of the bound it computes |
| IterationBound.MoreIterationsThanDocumented | src/index/search/pdxearch_index_filtered_scan_physical.cpp:79-109 | a run over 480 clusters, 24 probed first, that performs 97 iterations where the documentation bounds them by 93 |
| FilteredScan.OpStepKeepsInv | src/index/search/pdxearch_index_filtered_scan_physical.cpp:263-310 | every step of the operator keeps its accounts: each cluster is scheduled at most once, and all of them when the bound is reached |
| FilteredScan.EveryFilteredScanCounts | src/index/search/pdxearch_index_filtered_scan_physical.cpp:282-310 | when the operator emits, it emits exactly min(k, n) of the n passing candidates, nearest first, within the bound |
| FilteredScan.EveryFilteredScanIsNearest | src/index/search/pdxearch_index_filtered_scan_physical.cpp:282-310 | with faithful thresholds these are the nearest of all passing candidates in the probed clusters |
| FilteredScan.EveryFilteredScanEnds | src/index/search/pdxearch_index_filtered_scan_physical.cpp:263-310 | no run of the operator is longer than a measure of its first state |
| FilteredScan.FilteredScanNeverStuck | src/index/search/pdxearch_index_filtered_scan_physical.cpp:263-310 | as long as the operator has not emitted it can go on |
| FilteredScanState.GlobalSinkState.constructor | src/index/search/pdxearch_index_filtered_scan_physical.cpp:28-79 | the heap holds only the initialization element; the bound, computed before the first count is set, still covers all clusters |
| FilteredScanState.GlobalSinkState.FinishIteration | src/index/search/pdxearch_index_filtered_scan_physical.cpp:263-277 | counts the iteration; asks for another exactly if (the heap has not k elements, or its top is FLT_MAX) and the number of iterations is not the bound; else stores the row ids of a result of the heap |
| FilteredScanState.GlobalSinkState.TryFinalizeSinkPhase | src/index/search/pdxearch_index_filtered_scan_physical.cpp:282-310 | the same decision, leaving the heap untouched when it asks for another iteration |
| FilteredScanState.GlobalSinkState.GetData | src/index/search/pdxearch_index_filtered_scan_physical.cpp:355-385 | returns the next rows of the result, 2048 or as many as are left, and moves the cursor past them |
| FilteredScanState.GlobalSinkState.Drain | src/index/search/pdxearch_index_filtered_scan_physical.cpp:355-385 | the chunks concatenate to the whole result in order |
| FilteredRows.RowGroupCandidates | src/include/index/pdxearch_wrapper.hpp:254-284 | the selected candidates of a row group are its passing rows, one each |
| FilteredRows.FilteredScanReturnsPassingRows | src/index/search/pdxearch_index_filtered_scan_physical.cpp:135-310 | for every n_probe, number of clusters and row groups, pruner and schedule the operator returns exactly min(k, passing rows) rows, all different, all passing, nearest first |
| Buffering.EveryRowIsHandedOverOnce | src/index/create/pdxearch_index_create.cpp:71-135 | a thread hands over every row it received once, in order, in calls of one row group each, no row group twice |
| Buffering.NoRowGroupTwice | src/index/search/pdxearch_index_filtered_scan_physical.cpp:135-208 | over all threads no row group is handed over by two of them |
| Buffering.BufferSuffices | src/index/create/pdxearch_index_create.cpp:105 | the source's assertion: a buffer of one row group's size suffices for every stream of distinct rows |
| Buffering.FilteredScanLocalSink.Sink | src/index/search/pdxearch_index_filtered_scan_physical.cpp:135-181 | does to its buffers what the stream specification does |
| Buffering.FilteredScanLocalSink.Combine | src/index/search/pdxearch_index_filtered_scan_physical.cpp:183-208 | hands over the last row group and returns exactly the row groups searched, which are those of follow-up iterations |
| Buffering.CreateIndexLocalSink.Sink | src/index/create/pdxearch_index_create.cpp:71-120 | the same for the fixed-size buffers of the index build, row ids and embeddings alike: what is buffered stays each row with its own embedding |
| Buffering.CreateIndexLocalSink.Combine | src/index/create/pdxearch_index_create.cpp:122-135 | sets up the last row group; every row group has been set up with its rows and their embeddings |
| Buffering.SinkStream | src/index/create/pdxearch_index_create.cpp:71-135 | for every stream of distinct rows the whole sink sets up each row group once with its rows, in order, and their embeddings |
| Quantizer.ComputeQuantizationParams | src/include/pdxearch/quantizers/scalar.hpp:57-66 | the base is the least value and the scale stretches the range to 0..MAX_VALUE (1 if all values are equal or there are none) |
| Reals.HalvesAwayFromZero | src/include/pdxearch/quantizers/scalar.hpp:71 | rounding a coordinate takes halves away from zero, as the standard function does |
| Quantizer.QuantizeEmbedding | src/include/pdxearch/quantizers/scalar.hpp:68-80 | every coordinate becomes a byte nearest to its scaled value among 0..MAX_VALUE |
| Quantizer.ClampedIsNearest | src/include/pdxearch/quantizers/scalar.hpp:71-78 | rounding and clamping gives a nearest value of the range for every real |
| Quantizer.ConvertibleExactly | src/include/pdxearch/quantizers/scalar.hpp:71 | the conversion to `int` is defined exactly between -2147483648.5 and 2147483647.5 |
| Quantizer.NothingIsClamped | src/include/pdxearch/quantizers/scalar.hpp:57-80 | within the data range the conversion is defined, nothing is clamped, and the byte is within a half |
| Quantizer.DistanceError | src/include/pdxearch/quantizers/scalar.hpp:57-80 | the quantized distance over the squared scale s^2 is within the sum of 2 abs(a-b)/s + 1/s^2 of the true squared distance |
| BlobCodec.EncodeFloatToInt16 | src/include/index/pdxearch_blob_codec.hpp:23-38 | the loop over the scales encodes with the smallest one that fits, else clamps at the largest |
| BlobCodec.EncodedBits | src/include/index/pdxearch_blob_codec.hpp:23-38 | the lower two bits of an unclamped value name the finest of the four units in which it fits, the upper 14 bits are the nearest count of them |
| BlobCodec.DecodedUnits | src/include/index/pdxearch_blob_codec.hpp:40-44 | decoding gives that count of units |
| BlobCodec.ClampedExactly | src/include/index/pdxearch_blob_codec.hpp:23-38 | a value is clamped if and only if it is outside (-81.925, 81.915) |
| BlobCodec.ClampedIsRestored | src/include/index/pdxearch_blob_codec.hpp:30-44 | a clamped value is restored to the end of the range on its side, except where the integer conversion turns negative |
| BlobCodec.ScaleTiedToMagnitude | src/include/index/pdxearch_blob_codec.hpp:24-29 | a coarser scale is selected only for values at least 819.15 times as large |
| BlobCodec.RestorationError | src/include/index/pdxearch_blob_codec.hpp:20-44 | an unclamped value is restored within 0.000005 or within a 1638th of its magnitude |
| BlobCodec.DecodedIsRestored | src/include/index/pdxearch_blob_codec.hpp:40-44 | every decoded value survives being encoded and decoded again |
| BlobCodec.RestoringTwice | src/include/index/pdxearch_blob_codec.hpp:20-44 | encoding and decoding is idempotent on all reals |
| BlobCodec.EncodeFloatArrayToBlob | src/include/index/pdxearch_blob_codec.hpp:46-51 | every element is encoded at its own place |
| BlobCodec.DecodeBlobToFloatArray | src/include/index/pdxearch_blob_codec.hpp:53-59 | every element is decoded at its own place |
| UnfilteredScan.EveryStateIsSound | src/index/search/pdxearch_index_scan_physical.cpp:148-219 | the protocol's invariant holds in every reachable state |
| UnfilteredScan.SearchStartsAtMostOnce | src/index/search/pdxearch_index_scan_physical.cpp:178-184 | at most one search event is ever scheduled |
| UnfilteredScan.AllRowGroupsSearched | src/index/search/pdxearch_index_scan_physical.cpp:138-152 | the result is stored only when exactly the row groups 0 .. n - 1 have been searched and no task is running |
| UnfilteredScan.EachRowGroupOnce | src/index/search/pdxearch_index_scan_physical.cpp:103-152 | up to there the task of each row group has finished in exactly one step of the run, a step that finishes no other |
| UnfilteredScan.ResultStays | src/index/search/pdxearch_index_scan_physical.cpp:152-160 | the stored result never changes |
| UnfilteredScan.ResultIsThereWhenRead | src/index/search/pdxearch_index_scan_physical.cpp:186-210 | a call past the check finds every row group searched, the result stored, the cursor within it, and no other call there |
| UnfilteredScan.NobodyStaysBlocked | src/index/search/pdxearch_index_scan_physical.cpp:148-160 | once the search has unblocked the waiting calls no call is or gets blocked |
| UnfilteredScan.EmittedInOrder | src/index/search/pdxearch_index_scan_physical.cpp:192-218 | nothing is emitted before a result is stored; what has been emitted is the first part of it in order, in chunks of 2048 rows but for the last, and all of it once a thread is told that the source is exhausted |
| UnfilteredScan.NeverStuck | src/index/search/pdxearch_index_scan_physical.cpp:148-219 | as long as some thread has not been told so, a step is possible |
| UnfilteredScan.EveryRunEnds | src/index/search/pdxearch_index_scan_physical.cpp:148-219 | every run is bounded by the numbers of threads and row groups and the limit |
| UnfilteredResult.DrainedRunCounts | src/index/search/pdxearch_index_scan_physical.cpp:148-184 | the heap of a complete search, drained, gives exactly min(k, n) of the n selected vectors in the probed clusters of all row groups, sorted by distance |
| UnfilteredResult.DrainedRunIsNearest | src/index/search/pdxearch_index_scan_physical.cpp:148-184 | with faithful thresholds these are the k nearest |
| UnfilteredResult.ScanEmitsResult | src/index/search/pdxearch_index_scan_physical.cpp:148-219 | over all runs of the operator together with the search: once a result is stored every task has dealt with all its clusters; the result has exactly min(k, n) of the n selected vectors of all row groups, nearest first, the k nearest in a lossless search in common units; what has been emitted is the first part of its row ids, all of them once a thread is told that the source is exhausted |
| UnfilteredResult.EveryScanIsSound | src/index/search/pdxearch_index_scan_physical.cpp:85-219 | in every reachable state the row groups counted as searched are those whose tasks are done, the heap is that of a run of the search, and a stored result is drained from the heap as it still is |
| UnfilteredResult.ScanNeverStuck | src/index/search/pdxearch_index_scan_physical.cpp:85-219 | as long as some thread has not been told that the source is exhausted, the operator or a running task can go on |
| UnfilteredResult.EveryScanEnds | src/index/search/pdxearch_index_scan_physical.cpp:85-219 | every run is bounded by the threads, the limit, the row groups and the clusters to search |
| Recall.LongerPrefix | src/include/pdxearch/pdxearch.hpp:173-192 | the access order for more probes continues the order for fewer |
| Recall.FoundNeighbours | src/include/pdxearch/pdxearch.hpp:337-370 | of the true neighbours exactly those among the probed vectors are kept |
| Recall.SearchFindsProbedNeighbours | src/include/pdxearch/pdxearch.hpp:337-370 | a lossless search finds, under every interleaving, exactly the true neighbours in the clusters it probes |
| Recall.MoreProbesNeverLowerRecall | src/include/pdxearch/pdxearch.hpp:173-192 | a search with more probes finds every true neighbour that one with fewer finds |
| PartialSorting.PartialSort | src/include/pdxearch/pdxearch.hpp:440-445 | the contract of `std::partial_sort` on indices: the first m in order, none of the rest below them, together all indices once |
| GlobalStart.Start | src/include/pdxearch/pdxearch.hpp:423-457 | takes as many of the cluster's nearest vectors as the heap has room for, with their full distances |
| GlobalStart.FilteredStart | src/include/pdxearch/pdxearch.hpp:460-510 | the same among the selected vectors only, whatever the selectivity |
| GlobalStart.TakenAreNearest | src/include/pdxearch/pdxearch.hpp:490-509 | masking and partial sorting take exactly a nearest set of the selected vectors |
| MaskLimit.MaskDecides | src/include/pdxearch/pdxearch.hpp:490-498 | for masked distances, however ties are broken, the first places hold only selected vectors if and only if there are no unselected ones or every selected distance is below the mask |
| GlobalSearch.FullVisitCounts | src/include/pdxearch/pdxearch.hpp:561-569 | pruning a cluster against a full heap keeps k candidates of the heap and the cluster |
| GlobalSearch.FullVisitIsNearest | src/include/pdxearch/pdxearch.hpp:561-569 | with a lossless pruner it keeps the k nearest of them |
| GlobalSearch.GlobalSearchCounts | src/include/pdxearch/pdxearch.hpp:545-571 | the search ends with exactly min(k, n) of the n eligible vectors in the visited clusters |
| GlobalSearch.GlobalSearchFindsNearest | src/include/pdxearch/pdxearch.hpp:545-571 | with a lossless pruner a nearest eligible vector is always among them |
| GlobalSearch.SearchGlobal | src/include/pdxearch/pdxearch.hpp:512-572 | returns exactly min(k, n) rows, n being the number of rows stored in the clusters at the first nProbe places of the access order, or in the whole index if nProbe is 0 or exceeds the number of clusters; each is one of those rows at the distance of its stored vector; sorted by distance, with a lossless pruner a nearest one first |
| GlobalSearch.FilteredSearchGlobal | src/include/pdxearch/pdxearch.hpp:574-642 | the same for the passing rows of these clusters, and never a row that did not pass |
| GlobalExactness.GlobalRunExists | src/include/pdxearch/pdxearch.hpp:545-571 | every queue of clusters has a complete global search |
| GlobalExactness.PrefixIsNearest | src/include/pdxearch/pdxearch.hpp:545-571 | if no cluster overfills a heap that holds something but is not full, then after every cluster of a lossless search the heap is the k nearest of all eligible vectors visited so far |
| GlobalExactness.OverfilledLoses | src/include/pdxearch/pdxearch.hpp:438-456 | for every k, counts of eligible vectors and cluster that overfills: clusters with those counts and a complete search of them that misses a nearer vector |
| GlobalExactness.SizesDecideExactness | src/include/pdxearch/pdxearch.hpp:423-571 | for a lossless index, the global search is exact on all data and queries with given numbers of eligible vectors per cluster if and only if no cluster overfills a heap that holds something but is not full |
| ScanOptimizer.TryOptimizeKeepsOutputs | src/index/search/pdxearch_scan_optimizer.cpp:217-451 | without an offset the rewritten plan has exactly the outputs of the TopN, for every database, filter and choice among ties |
| ScanOptimizer.OffsetIsIgnored | src/index/search/pdxearch_scan_optimizer.cpp:345-346 | with an offset there is a database for which it has not |
| ScanOptimizer.OffsetDecides | src/index/search/pdxearch_scan_optimizer.cpp:217-451 | a matched TopN is rewritten soundly for every database if and only if its offset is 0 |
| OptimizerReach.DistanceOrderIsRewritten | src/index/search/pdxearch_scan_optimizer.cpp:217-451 | a TopN in the ascending order of the distance of an indexed column and a constant, in either order of the arguments, over a projected table scan without dynamic filters becomes the projection over an index scan for that constant and the limit, fed by a scan for row ids if there are filters |
| OptimizerReach.RewritesExactlyThese | src/index/search/pdxearch_scan_optimizer.cpp:217-330 | every other operator is left as it is |
| OptimizerReach.NoCandidateIsLeft | src/index/search/pdxearch_scan_optimizer.cpp:453-461 | after rewriting all over a plan no such TopN is left anywhere in it |
| OptimizerReach.OthersAreKept | src/index/search/pdxearch_scan_optimizer.cpp:453-461 | a plan that contains none is not changed at all |
| ScanOptimizer.OptimizeChildrenKeepsOutputs | src/index/search/pdxearch_scan_optimizer.cpp:453-461 | rewriting all over a plan keeps its outputs |
| ScanOptimizer.EvalDependsOnReferences | src/index/search/pdxearch_scan_optimizer.cpp:478-486 | an expression depends only on the columns enumerated as referenced |
| OptimizerReach.ReferencesMatter | src/index/search/pdxearch_scan_optimizer.cpp:478-486 | the columns enumerated as referenced are exactly those on which the value of the expression can depend |
| OptimizerReach.StackedIsBlanked | src/index/search/pdxearch_scan_optimizer.cpp:463-500 | below a projection over the filtered scan or the global one exactly the expressions on which nothing above can depend become nulls |
| OptimizerReach.UnstackedIsKept | src/index/search/pdxearch_scan_optimizer.cpp:463-506 | a plan without such a pair of projections is not changed |
| OptimizerReach.EveryStackIsTidy | src/index/search/pdxearch_scan_optimizer.cpp:463-506 | after merging every such pair in the plan is blanked in this way |
| ScanOptimizer.MergeProjectionsKeepsOutputs | src/index/search/pdxearch_scan_optimizer.cpp:463-506 | blanking unreferenced projections keeps the outputs of every plan |
| ScanOptimizer.OptimizeKeepsOutputs | src/index/search/pdxearch_scan_optimizer.cpp:508-513 | the optimizer keeps rows and order of every plan whose matched TopNs have no offset |
| OptimizerReach.OptimizedPlan | src/index/search/pdxearch_scan_optimizer.cpp:508-513 | an optimized plan contains no ordering by the distance of an indexed column; if there was one, all its pairs of projections are blanked; if there was none, it is the plan given |
| Plans.PassingIdsAre | src/index/search/pdxearch_scan_optimizer.cpp:395-411 | the rows a table scan produces are exactly those that pass all its filters |

## Left out

- IEEE rounding of F32 searches: F32 sums, products, the ratios and the comparisons of distances are exact here; so are the proportions of the dimension split, the ceiling of the warmup's exit count and the distances of centroids. The U8 products are rounded; exponents beyond the range of single precision are not cut off.
- AVX-512 kernels, and the F32 kernels of AVX2 and NEON: their results differ from the scalar ones only in rounding, or (AVX-512 U8) need values up to 127; the model's MAX_VALUE is a parameter.
- Statistical recall of ADSampling above 30 dimensions: a probabilistic statement about random rotations, not one about the code.
- Rotation, normalization and the loop that fills the table of ratios: ratios are a parameter of the search; `Shipped` describes the shipped ones.
- SuperKMeans training: its assignment is an arbitrary function into the clusters.
- The global wrapper and the global filtered scan operator: the wrapper repeats the set-up and the evaluation of a row group with one index for the whole table; the operator is not part of this model.
- RowGroups.RowGroup.SetUp: takes stored values and the assignment; quantizing them is `Quantizer`, and centroids are not stored.
- Searcher.PDXearch.InitializeSearch: the access order and the quantized query are parameters; the order is the subject of `AccessOrder`, the bytes that of `Quantizer`.
- Searcher.PDXearch.constructor: the matrix of centroids is not a field of the searcher; `AccessOrder` takes it as a parameter.
- Quantizer.QuantizeEmbedding: requires that every rounded coordinate fits an `int`, because the result of the conversion is undefined otherwise; `Quantizer.ConvertibleExactly` says exactly when that is, `Quantizer.NothingIsClamped` that it holds within the data range.
- GlobalStart.FilteredStart: requires, for F32, that no selected distance reaches the mask while there is an unselected vector; by `MaskLimit.MaskDecides` that is exactly when masking works, beyond it unselected vectors can be taken.
- GlobalSearch.SearchGlobal: the access order and the stored query are parameters; nearest first is promised for a lossless index only, and of the k nearest only what `GlobalExactness` proves.
- GlobalSearch.FilteredSearchGlobal: as `SearchGlobal`, with the condition of `FilteredStart` for every cluster.
- GlobalExactness.SizesDecideExactness: speaks of indexes that lose nothing but by filling the heap; a pruner that drops nearer vectors, or constants that are not compatible, can lose more.
- NearlyExact.ParallelSearchIsNearlyExact: an upper bound for what is lost; the bound is not claimed to be reached.
- ShippedPruner.ShippedBytesAreExact: assumes constants in the range `Sensible`; outside it a threshold derived from the initialization element need not saturate.
- ScanOptimizer.TryOptimizeKeepsOutputs: plans are values and the rewriting returns a new plan, because the source owns every node uniquely; in-place moves, projection ids, cardinalities and query constants of type BLOB are not modelled. The index scan is taken to return some exact top rows.
- BlobCodec.EncodeFloatArrayToBlob: a blob is a sequence of 16-bit values; their byte order in memory is not modelled.
- UnfilteredScan.EmittedInOrder: the rows stored are open there, up to their number; `UnfilteredResult.ScanEmitsResult` joins the operator with the search that produces them.
- UnfilteredResult.ScanEmitsResult: the clusters each task is to search are given with its start; that they are the first ones of the access order is `Searcher.PDXearch.Search`.
- BuildAndScan.BuildAndScan: one row group and one thread; for several row groups and any schedule `FilteredRows.FilteredScanReturnsPassingRows` starts from row groups that can be searched, which `BuiltRowGroups.BuiltIsSearchable` provides.
- FilteredScanState.GlobalSinkState.TryFinalizeSinkPhase: the creation of a new event is its result `again`; scheduling tasks for it is a step of the machine in `FilteredScan`.
- Memory-size accounting, prefetching, base64 wrappers, maintenance and persistence stubs: easy or empty.
- DuckDB plumbing (catalog, binding, fetching columns from storage, options, EXPLAIN): thin calls into a library that is not part of this model.
- Widths of `size_t`, row ids and cluster indices: unbounded here; only U8 accumulators and 16- and 32-bit conversions have their width.
