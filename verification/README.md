# KaHyPar core pieces in Dafny

This project models three self-contained pieces of the KaHyPar hypergraph
partitioner and proves properties of them.

- **Partition metrics** (`src/partition/Metrics.h`). The hyperedge cut is the
  total weight of the hyperedges whose pins lie in more than one block. There
  is a plain version and one that reads blocks through a node-id mapping. The
  file also has the 2-way imbalance `2·max/total − 1` and the accumulation of
  node weights per block. Each is a Dafny method that walks the hypergraph as
  the C++ loops do, including the `break` after the first differing pin. Each
  method is proved equal to a reference function. Lemmas then state what that
  function means: a cut edge counts once, the cut depends only on which pins
  share a block, and so on.
- **Clusterer edge data** (`src/partition/coarsening/clusterer/DefinitionsClusterer.h`).
  A hyperedge's label sample is one of three things: null, a view into the
  edge's own `incident_labels`, or an owned `new[]` array. The model uses an
  abstract heap. It records the live arrays with their contents, the released
  ids, and a counter for fresh names, so every `delete[]` is checked: a double
  free and a free of a view are errors. The default constructor, destructor,
  copy assignment and move assignment are pure functions on
  (heap, edge data). The deleted copy and move constructors have no
  counterpart: the model offers no operation that builds an edge from
  another one.
- **C interface** (`lib/libkahypar.cc`). The `Context` record keeps the fields
  that the non-trivial setters and the two entry points touch.
  `kahypar_partition` and `kahypar_improve_partition` are functions of that
  record. Three parts are not modelled and are parameters instead:
  - the hypergraph constructor together with `PartitionerFacade::partition`
    (the parameter `engine`);
  - `metrics::correctMetric` (the parameter `metric`);
  - `std::to_string(double)` (the parameter `renderEpsilon`).

  The model states what each entry point hands to these parameters and what
  it does with what comes back.

Files: `wrappers.dfy` (Option/Result), `hypergraph.dfy`, `metrics.dfy`,
`cut_lemmas.dfy`, `clusterer.dfy`, `clusterer_lemmas.dfy`, `text.dfy`
(decimal rendering, trailing-zero trimming), `context.dfy`,
`context_lemmas.dfy`, `libkahypar.dfy`, `libkahypar_lemmas.dfy`.

Behaviour of the code worth noting:
- An improvement input that uses only block 0 with k = 2 is refused by the
  maximum-id check (`MaxBlockMismatch`), which comes before the check that
  every block is used.
- Copying a small edge does not allocate: the target views its own labels.
  Only non-small edges get a fresh array, and the sample's contents are not
  copied into it.
- Custom target block weights switch individual part weights on without
  forcing epsilon to 0. The flag's own setter does force it to 0.
- The input-partition checks of `kahypar_improve_partition` are debug-only
  `ASSERT`s in the code. Here they are always-checked errors, like the
  `ALWAYS_ASSERT` on the mode. The same holds for the individual-part-weights
  `ASSERT` of `kahypar_partition`.

## Model

| member | source | states |
|---|---|---|
| Metrics.HyperedgeCut | src/partition/Metrics.h:24-46 | The walk returns the reference cut: each hyperedge with a pin in a block other than the first pin's adds its weight exactly once; empty hyperedges are skipped |
| Metrics.HyperedgeCutMapped | src/partition/Metrics.h:48-72 | The same walk, with node v's block read as `partitioning[hg_to_hmetis[v]]`, returns the reference cut through the mapping |
| Metrics.Imbalance | src/partition/Metrics.h:74-87 | With every node in block 0 or 1, the result is `2·max(w0, w1)/total − 1` over the block weights, and there is no result exactly when the total weight is 0 |
| Metrics.PartitionWeights | src/partition/Metrics.h:97-102 | Each entry grows by its block's node weight and unused blocks keep their entry (accumulation, not reset) |
| Metrics.BlockWeightsSumToTotal | src/partition/Metrics.h:97-102 | When every node lies in one of blocks 0..k-1, the block weights add up to the total node weight |
| Metrics.PartitionWeightsPreserveTotal | src/partition/Metrics.h:97-102 | The accumulated vector's sum is the old sum plus the total node weight |
| Metrics.BlockWeightOfAbsentBlock | src/partition/Metrics.h:97-102 | A block that no node is in weighs nothing, so its entry is left unchanged |
| CutLemmas.DiffersFromFirstIffSpans | src/partition/Metrics.h:34-41 | Comparing every pin with the first pin detects exactly the hyperedges whose pins span two or more blocks |
| CutLemmas.SmallEdgeContributesNothing | src/partition/Metrics.h:28-43 | Empty and single-pin hyperedges add nothing to the cut |
| CutLemmas.SingleEdgeOverAllNodes | src/partition/Metrics.h:24-46 | One hyperedge of weight 5 over three nodes is cut, at 5, by every assignment that splits them, and not cut otherwise |
| CutLemmas.UniformBlocksNoCut | src/partition/Metrics.h:24-46 | If every node is in the same block the cut is 0 |
| CutLemmas.CutBounds | src/partition/Metrics.h:24-46 | With non-negative hyperedge weights the cut lies between 0 and the total hyperedge weight |
| CutLemmas.CutDependsOnlyOnBlockEquality | src/partition/Metrics.h:34-41 | Two assignments that put the same pins of every hyperedge together have the same cut |
| CutLemmas.RenamingPreservesCut | src/partition/Metrics.h:34-41 | Any injective renaming of block ids leaves the cut unchanged |
| CutLemmas.MappedCutAgrees | src/partition/Metrics.h:48-72 | The mapped cut equals the plain cut whenever the mapping reads back every pin's own block |
| CutLemmas.TwoBlockWeightsSum | src/partition/Metrics.h:76-83 | With every node in block 0 or 1, the two block weights add up to the total weight |
| CutLemmas.ImbalanceRange | src/partition/Metrics.h:85-86 | With non-negative weights and a positive total, the imbalance lies in [0, 1] and is 0 exactly when both blocks weigh the same |
| Clusterer.DefaultNodeData | src/partition/coarsening/clusterer/DefinitionsClusterer.h:6-11 | A new node has label 0 and no recorded label positions |
| Clusterer.NewEdgeData | src/partition/coarsening/clusterer/DefinitionsClusterer.h:25-34 | A new edge has no sample, sample size 0, is not small, has no labels and count 0, owns no array and leaves the arrays untouched |
| Clusterer.Destroy | src/partition/coarsening/clusterer/DefinitionsClusterer.h:36-42 | A small edge or a null sample releases nothing; a consistent edge releases exactly its own array; releasing an already released array is a double free |
| Clusterer.CopyAssign | src/partition/coarsening/clusterer/DefinitionsClusterer.h:44-65 | The target's old array (judged by its old small flag) is released first; labels, locations, small flag, sample size and label counts are copied; `count_labels` is kept; a small target views its own labels, a non-small one gets a new array of sample-size zero pairs, not the source's contents; every other live array, the source's sample included, keeps its contents |
| Clusterer.MoveAssign | src/partition/coarsening/clusterer/DefinitionsClusterer.h:67-85 | The target's old array is released; the target takes the source's fields and its sample pointer; the source's pointer becomes null and its containers empty; neither `count_labels` changes |
| ClustererLemmas.NewEdgeDataReleasesNothing | src/partition/coarsening/clusterer/DefinitionsClusterer.h:25-42 | A freshly constructed edge is consistent and its destruction leaves the heap as it was |
| ClustererLemmas.CopyAssignKeepsSoleOwnership | src/partition/coarsening/clusterer/DefinitionsClusterer.h:44-65 | Copying between two distinct edges succeeds and keeps them owners of disjoint arrays; a small target views its own labels, never the source's; a non-small target's array is not the source's |
| ClustererLemmas.MoveAssignTransfersOwnership | src/partition/coarsening/clusterer/DefinitionsClusterer.h:67-85 | Moving between two distinct edges succeeds; the target owns what the source owned and the source owns nothing |
| ClustererLemmas.MoveThenDestroyReleasesEachOnce | src/partition/coarsening/clusterer/DefinitionsClusterer.h:36-85 | After a move, destroying the source releases nothing and destroying the target succeeds; together they release each array the two owned exactly once |
| ClustererLemmas.CopyThenDestroyReleasesEachOnce | src/partition/coarsening/clusterer/DefinitionsClusterer.h:36-65 | After a copy, destroying both edges succeeds and releases the target's old array, the source's array and the new one, leaving none of them live |
| ClustererLemmas.MoveWithoutNullingDoubleFrees | src/partition/coarsening/clusterer/DefinitionsClusterer.h:80-82 | Had the move kept the source's pointer, destroying target and source would release the stolen array twice |
| Text.FindLastNotOf | lib/libkahypar.cc:122 | Returns the last position not holding the character, or none exactly when every character is that character |
| Text.TrimTrailingZeros | lib/libkahypar.cc:121-122 | The result is a prefix, everything removed is '0', and the result is empty or does not end in '0' (an all-zero string is erased, as `npos + 1` wraps to 0) |
| Text.TrimTrailingZerosIdempotent | lib/libkahypar.cc:121-122 | Trimming a trimmed epsilon string changes nothing |
| Text.IntToStringRoundTrip | lib/libkahypar.cc:127-131 | The decimal rendering of k and of the seed is a numeral that reads back as the number |
| Text.IntToStringInjective | lib/libkahypar.cc:127-131 | Distinct numbers render differently |
| Contexts.SetPartitionK | lib/libkahypar.cc:48-54 | Stores k, resets the recursive-bisection lower k to 0, changes nothing else |
| Contexts.SetHyperedgeSizeThreshold | lib/libkahypar.cc:80-87 | Stores the threshold as given; the `-1` branch changes nothing |
| Contexts.SetUseIndividualPartWeights | lib/libkahypar.cc:107-114 | Stores the flag; `true` forces epsilon to 0, `false` keeps it; nothing else changes |
| Contexts.SetGraphFilename | lib/libkahypar.cc:116-133 | Stores the graph name and sets the partition file name to graph, ".part", k, ".epsilon", the trimmed epsilon string, ".seed", seed, ".KaHyPar" |
| Contexts.SetLocalSearchIterationsPerLevel | lib/libkahypar.cc:289-296 | Stores `-1` as INT_MAX and any other value as given; the field is never left at `-1` |
| Contexts.SetLocalSearchFmMaxFruitlessMoves | lib/libkahypar.cc:298-305 | Stores the bound and turns an iterations-per-level of `-1` into INT_MAX |
| Contexts.SetInitialPartitioningIterationsPerLevelAsWritten | lib/libkahypar.cc:449-456 | Stores the value, replaced by INT_MAX only when the top-level local-search field is `-1` |
| Contexts.SetInitialPartitioningIterationsPerLevel | lib/libkahypar.cc:449-456 | Corrected setter: `-1` is stored as INT_MAX, any other value as given, and the field is never left at `-1` |
| Contexts.SetInitialPartitioningFmMaxFruitlessMoves | lib/libkahypar.cc:458-465 | Stores the bound and sets the initial-partitioning iterations-per-level to INT_MAX when the top-level field is `-1` |
| Contexts.SetCustomTargetBlockWeights | lib/libkahypar.cc:528-539 | Turns individual part weights on and appends exactly the first `num_blocks` weights, in order, after the existing ones; epsilon and everything else are unchanged |
| Contexts.AppendWeights | lib/libkahypar.cc:536-538 | The push-back loop appends the first n weights in order |
| ContextLemmas.SetPartitionKLastWins | lib/libkahypar.cc:48-54 | Setting k twice keeps only the second value |
| ContextLemmas.IndividualPartWeightsDiscardEpsilon | lib/libkahypar.cc:107-114 | Turning the flag off again does not restore the epsilon that turning it on discarded |
| ContextLemmas.CustomWeightsKeepEpsilon | lib/libkahypar.cc:533-534 | Supplying custom weights, unlike the flag setter, leaves a non-zero epsilon in place |
| ContextLemmas.CustomWeightsAccumulate | lib/libkahypar.cc:536-538 | Two calls append both weight lists; they do not replace the existing weights |
| ContextLemmas.PartitionFilenameShape | lib/libkahypar.cc:116-133 | The partition file name starts with the graph name, ends with ".KaHyPar", and its epsilon part never ends in '0' |
| ContextLemmas.TopLevelSetterIdempotent | lib/libkahypar.cc:289-296 | Setting the stored value again leaves the context unchanged: `-1` is normalised once to INT_MAX and INT_MAX is kept |
| ContextLemmas.InitialPartitioningSentinelSurvives | lib/libkahypar.cc:449-456 | After any top-level setter call, the initial-partitioning setter stores a caller's `-1` unchanged |
| ContextLemmas.InitialPartitioningSentinelCorrected | lib/libkahypar.cc:449-456 | The corrected setter maps `-1` to INT_MAX as the top-level setter does |
| LibKaHyPar.PrepareContext | lib/libkahypar.cc:589-591 | k and epsilon come from the arguments (k as a signed 32-bit id), partition-file writing is off, nothing else changes |
| LibKaHyPar.InitialParts | lib/libkahypar.cc:601-605 | With v-cycle refinement of an input partition on, node i starts in block `partition[i]`; otherwise every node starts unassigned |
| LibKaHyPar.Partition | lib/libkahypar.cc:573-619 | Refused exactly when individual part weights are on with none supplied; otherwise every node's final block is written to the caller's array, the objective is the metric of the final assignment, and the balance weights, maximum part weights and communities are cleared; nothing else of the partitioner's context changes |
| LibKaHyPar.MaxOf | lib/libkahypar.cc:638 | The largest id occurs in the partition and bounds every entry |
| LibKaHyPar.CheckInputPartition | lib/libkahypar.cc:638-648 | No error exactly when the partition is non-empty, its largest id is k − 1 (32-bit unsigned) and every id in [0, k) occurs |
| LibKaHyPar.ImproveContext | lib/libkahypar.cc:650-655 | Turns v-cycle refinement on, sets the global iterations from the argument (truncated to 32 bits) and turns the sparsifier off; nothing else changes |
| LibKaHyPar.ImprovePartition | lib/libkahypar.cc:622-671 | Any mode but direct k-way is refused; an invalid input partition is refused with an input error; on success the partitioner ran with v-cycle refinement, sparsifier off and the input partition as starting blocks, and its final blocks were written out; a valid direct k-way input is always run, with exactly the outcome of `kahypar_partition` on the rewritten context |
| LibKaHyParLemmas.ValidInputPartitionIff | lib/libkahypar.cc:638-648 | For k ≥ 1 an input is accepted exactly when the ids it uses are precisely 0 … k − 1 |
| LibKaHyParLemmas.ZeroBlocksWrapAround | lib/libkahypar.cc:638 | With k = 0, `k − 1` wraps to the largest 32-bit value, so any partition containing that id is accepted |
| LibKaHyParLemmas.SingleBlockInputRefused | lib/libkahypar.cc:636-648 | An input using only block 0 with k ≥ 2 is refused by the maximum check and nothing is written |
| LibKaHyParLemmas.ImprovementSeedsInput | lib/libkahypar.cc:601-605 | When the ids fit a signed block id, the partitioner starts exactly from the accepted input partition |
| LibKaHyParLemmas.PartitionContextEffect | lib/libkahypar.cc:589-618 | If the partitioner leaves its context alone, a call changes only k, epsilon, partition-file writing and the cleared lists |
| LibKaHyParLemmas.CustomWeightsServeOneCall | lib/libkahypar.cc:528-617 | Custom block weights are consumed by one call: a second call that still asks for individual part weights is refused |

## Findings

| source | as written | input that shows it | evidently intended | confidence | as-written member | corrected member |
|---|---|---|---|---|---|---|
| lib/libkahypar.cc:453 | The initial-partitioning iterations-per-level setter tests the top-level `local_search.iterations_per_level` for `-1`, not the value it just stored. | A context whose top-level iterations-per-level is 5 (or any context after a call of the top-level setter), then the initial-partitioning setter called with `-1`: `-1` is stored (`ContextLemmas.InitialPartitioningSentinelSurvives`). | `-1` becomes INT_MAX, as in the top-level setter at lines 289-296 (`ContextLemmas.InitialPartitioningSentinelCorrected`). | medium, not executed | Contexts.SetInitialPartitioningIterationsPerLevelAsWritten | Contexts.SetInitialPartitioningIterationsPerLevel |

## Left out

- Hypergraph construction from the CSR arrays, `PartitionerFacade::partition` and `metrics::correctMetric` are not part of this model. They are the `engine` and `metric` parameters of the entry points.
- `std::to_string(double)` is not modelled; the epsilon rendering is the `renderEpsilon` parameter. `std::to_string` of integers is modelled as decimal rendering.
- String-valued setters that forward to `*FromString` converters, setters that only store their argument, `kahypar_context_new` / `kahypar_context_free` (raw handle casts) and `kahypar_read_hypergraph_from_file` (file I/O) are not modelled.
- `include/libkahypar.h` (declarations), `src/partition/Configuration.h` (parameter struct and printer) and `tools/hypergraph_statistics.cc` (statistics tool) are not part of this model.
- `avgHyperedgeDegree` and `avgHypernodeDegree` are left out: floating-point ratios that can divide by zero.
- The coarsening, initial-partitioning, refinement and community-detection engines are not part of this model.
- The hypergraph holds only its enabled nodes and hyperedges; the enabled/disabled bookkeeping of the source's hypergraph is not modelled.
- Metrics.Imbalance: is computed over the reals, not IEEE doubles; a zero total weight gives no result here, where the source computes NaN or infinity.
- Metrics.HyperedgeCut: does not model 32-bit overflow of the cut sum; weights are unbounded integers.
- Metrics.HyperedgeCutMapped: does not model 32-bit overflow of the cut sum, for the same reason.
- Metrics.PartitionWeights: does not model 32-bit overflow of the block weights.
- Metrics.Imbalance: does not model 32-bit overflow of the total and block weights it adds up.
- LibKaHyPar.Partition: the debug-only `ASSERT` that individual part weights come with a non-empty weight list is modelled as an always-checked refusal (`MissingPartWeights`); in a release build the call goes ahead.
- LibKaHyPar.CheckInputPartition: the two debug-only `ASSERT`s on the input partition (maximum id, every block used) are modelled as always-checked refusals. An empty input, past whose end the first `ASSERT` reads (undefined behaviour in a debug build, unchecked in a release build), is refused with `EmptyPartition`. In a release build none of these checks exists and the improvement run goes ahead.
- Clusterer.CopyAssign: self-assignment is not modelled, because edges are values and cannot alias.
- Clusterer.MoveAssign: self-move is not modelled, for the same reason; the moved-from containers are modelled as empty.
- The reallocation of `incident_labels` storage after a small edge's view was taken is not modelled; a vector's storage is identified by the vector.
- The C array arguments are sequences. A null `partition` or `block_weights` pointer is excluded by the sequence lengths the functions require.
