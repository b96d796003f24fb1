/**
 * The part of the partitioner's configuration that the C interface's
 * non-trivial setters touch, and those setters as pure functions from the
 * old context to the new one.
 */
module Contexts {
  import opened Text

  /** `std::numeric_limits<int>::max()`. */
  const IntMax: int := 0x7FFF_FFFF
  /** Largest 32-bit unsigned value: the maximum hyperedge id, and what `-1`
      becomes when converted to one. */
  const UInt32Max: int := 0xFFFF_FFFF

  type UInt32 = x: int | 0 <= x <= UInt32Max
  type Int32 = x: int | -0x8000_0000 <= x <= IntMax

  /** Conversion of a 32-bit unsigned value to a 32-bit signed one (two's complement). */
  function ToInt32(x: UInt32): (r: Int32)
    ensures r % 0x1_0000_0000 == x
    ensures x <= IntMax ==> r == x
  {
    if x <= IntMax then x else x - 0x1_0000_0000
  }

  /** Conversion of an integer to 32-bit unsigned: reduction modulo 2^32. */
  function ToUInt32(x: int): (r: UInt32)
    ensures 0 <= x <= UInt32Max ==> r == x
    ensures (r - x) % 0x1_0000_0000 == 0
  {
    x % 0x1_0000_0000
  }

  datatype Mode = DirectKway | RecursiveBisection

  datatype PartitionParams = PartitionParams(
    mode: Mode,
    k: int,
    rbLowerK: int,
    epsilon: real,
    seed: int,
    globalSearchIterations: UInt32,
    useIndividualPartWeights: bool,
    maxPartWeights: seq<int>,
    perfectBalancePartWeights: seq<int>,
    hyperedgeSizeThreshold: UInt32,
    graphFilename: string,
    graphPartitionFilename: string,
    writePartitionFile: bool,
    vcycleRefinementForInputPartition: bool)

  datatype FMParams = FMParams(maxNumberOfFruitlessMoves: UInt32)

  datatype LocalSearchParams = LocalSearchParams(iterationsPerLevel: Int32, fm: FMParams)

  datatype InitialPartitioningParams = InitialPartitioningParams(localSearch: LocalSearchParams)

  datatype PreprocessingParams = PreprocessingParams(enableMinHashSparsifier: bool)

  datatype EvolutionaryParams = EvolutionaryParams(communities: seq<int>)

  datatype Context = Context(
    partition: PartitionParams,
    preprocessing: PreprocessingParams,
    localSearch: LocalSearchParams,
    initialPartitioning: InitialPartitioningParams,
    evolutionary: EvolutionaryParams)

  /** `c'` differs from `c` at most in its partitioning parameters. */
  predicate OnlyPartitionChanged(c: Context, c': Context)
  {
    c'.preprocessing == c.preprocessing && c'.localSearch == c.localSearch
    && c'.initialPartitioning == c.initialPartitioning && c'.evolutionary == c.evolutionary
  }

  /** `kahypar_set_context_partition_k`: stores `k` and resets the lower k of
      recursive bisection to 0. */
  function SetPartitionK(c: Context, k: Int32): (r: Context)
    ensures r.partition.k == k && r.partition.rbLowerK == 0
    ensures r.partition.(k := c.partition.k, rbLowerK := c.partition.rbLowerK) == c.partition
    ensures OnlyPartitionChanged(c, r)
  {
    c.(partition := c.partition.(k := k, rbLowerK := 0))
  }

  /** `kahypar_set_context_partition_use_individual_part_weights`: stores the
      flag; turning it on forces epsilon to 0, turning it off keeps epsilon. */
  function SetUseIndividualPartWeights(c: Context, use: bool): (r: Context)
    ensures r.partition.useIndividualPartWeights == use
    ensures r.partition.epsilon == (if use then 0.0 else c.partition.epsilon)
    ensures r.partition.(useIndividualPartWeights := c.partition.useIndividualPartWeights,
                         epsilon := c.partition.epsilon) == c.partition
    ensures OnlyPartitionChanged(c, r)
  {
    var p := c.partition.(useIndividualPartWeights := use);
    c.(partition := if use then p.(epsilon := 0.0) else p)
  }

  /** `kahypar_set_context_partition_hyperedge_size_threshold`: stores the
      threshold as given. The `-1` test compares against the unsigned maximum
      (the threshold is already of the 32-bit unsigned id type), and its
      branch evaluates a value and discards it, so it changes nothing. */
  function SetHyperedgeSizeThreshold(c: Context, threshold: UInt32): (r: Context)
    ensures r.partition.hyperedgeSizeThreshold == threshold
    ensures r.partition.(hyperedgeSizeThreshold := c.partition.hyperedgeSizeThreshold) == c.partition
    ensures OnlyPartitionChanged(c, r)
  {
    c.(partition := c.partition.(hyperedgeSizeThreshold := threshold))
  }

  /** `kahypar_set_context_local_search_iterations_per_level`: `-1` means
      "unlimited" and is stored as `INT_MAX`; any other value as given. */
  function SetLocalSearchIterationsPerLevel(c: Context, iterations: Int32): (r: Context)
    ensures r.localSearch.iterationsPerLevel == (if iterations == -1 then IntMax else iterations)
    ensures r.localSearch.iterationsPerLevel != -1
    ensures r.localSearch.fm == c.localSearch.fm
    ensures r.(localSearch := c.localSearch) == c
  {
    var r := c.(localSearch := c.localSearch.(iterationsPerLevel := iterations));
    if r.localSearch.iterationsPerLevel == -1 then
      r.(localSearch := r.localSearch.(iterationsPerLevel := IntMax))
    else r
  }

  /** `kahypar_set_context_local_search_fm_max_number_of_fruitless_moves`:
      stores the bound and also normalises an iterations-per-level of `-1`
      to `INT_MAX`. */
  function SetLocalSearchFmMaxFruitlessMoves(c: Context, moves: UInt32): (r: Context)
    ensures r.localSearch.fm.maxNumberOfFruitlessMoves == moves
    ensures r.localSearch.iterationsPerLevel
            == (if c.localSearch.iterationsPerLevel == -1 then IntMax else c.localSearch.iterationsPerLevel)
    ensures r.(localSearch := c.localSearch) == c
  {
    var r := c.(localSearch := c.localSearch.(fm := FMParams(moves)));
    if r.localSearch.iterationsPerLevel == -1 then
      r.(localSearch := r.localSearch.(iterationsPerLevel := IntMax))
    else r
  }

  /** `kahypar_set_context_initial_partitioning_local_search_iterations_per_level`
      as written: stores the value, and replaces it by `INT_MAX` only when the
      TOP-LEVEL local-search field is `-1`. */
  function SetInitialPartitioningIterationsPerLevelAsWritten(c: Context, iterations: Int32): (r: Context)
    ensures r.initialPartitioning.localSearch.iterationsPerLevel
            == (if c.localSearch.iterationsPerLevel == -1 then IntMax else iterations)
    ensures r.initialPartitioning.localSearch.fm == c.initialPartitioning.localSearch.fm
    ensures r.(initialPartitioning := c.initialPartitioning) == c
  {
    var ip := c.initialPartitioning.localSearch.(iterationsPerLevel := iterations);
    var r := c.(initialPartitioning := c.initialPartitioning.(localSearch := ip));
    if c.localSearch.iterationsPerLevel == -1 then
      r.(initialPartitioning := r.initialPartitioning.(localSearch := ip.(iterationsPerLevel := IntMax)))
    else r
  }

  /** The same setter with the sentinel test on the field it sets, as for the
      top-level setter: `-1` is stored as `INT_MAX`, any other value as given. */
  function SetInitialPartitioningIterationsPerLevel(c: Context, iterations: Int32): (r: Context)
    ensures r.initialPartitioning.localSearch.iterationsPerLevel == (if iterations == -1 then IntMax else iterations)
    ensures r.initialPartitioning.localSearch.iterationsPerLevel != -1
    ensures r.initialPartitioning.localSearch.fm == c.initialPartitioning.localSearch.fm
    ensures r.(initialPartitioning := c.initialPartitioning) == c
  {
    var ip := c.initialPartitioning.localSearch.(iterationsPerLevel := iterations);
    var r := c.(initialPartitioning := c.initialPartitioning.(localSearch := ip));
    if r.initialPartitioning.localSearch.iterationsPerLevel == -1 then
      r.(initialPartitioning := r.initialPartitioning.(localSearch := ip.(iterationsPerLevel := IntMax)))
    else r
  }

  /** `kahypar_set_context_initial_partitioning_local_search_fm_max_number_of_fruitless_moves`:
      stores the bound; when the top-level iterations-per-level is `-1` it also
      sets the initial-partitioning iterations-per-level to `INT_MAX`. */
  function SetInitialPartitioningFmMaxFruitlessMoves(c: Context, moves: UInt32): (r: Context)
    ensures r.initialPartitioning.localSearch.fm.maxNumberOfFruitlessMoves == moves
    ensures r.initialPartitioning.localSearch.iterationsPerLevel
            == (if c.localSearch.iterationsPerLevel == -1 then IntMax
                else c.initialPartitioning.localSearch.iterationsPerLevel)
    ensures r.(initialPartitioning := c.initialPartitioning) == c
  {
    var ip := c.initialPartitioning.localSearch.(fm := FMParams(moves));
    var r := c.(initialPartitioning := c.initialPartitioning.(localSearch := ip));
    if c.localSearch.iterationsPerLevel == -1 then
      r.(initialPartitioning := r.initialPartitioning.(localSearch := ip.(iterationsPerLevel := IntMax)))
    else r
  }

  /** The partition file name built from a graph file name, k, the rendered
      epsilon and the seed. */
  function PartitionFilename(graph: string, k: int, epsilon: string, seed: int): string
  {
    graph + ".part" + IntToString(k) + ".epsilon" + epsilon + ".seed" + IntToString(seed) + ".KaHyPar"
  }

  /** `kahypar_set_context_partition_graph_filename`: stores the graph file
      name and derives the partition file name from it, the current k, the
      current epsilon rendered by `renderEpsilon` (the source's
      `std::to_string(double)`) with trailing '0' characters removed, and the
      current seed. */
  function SetGraphFilename(c: Context, graph: string, renderEpsilon: real -> string): (r: Context)
    ensures r.partition.graphFilename == graph
    ensures var eps := TrimTrailingZeros(renderEpsilon(c.partition.epsilon));
            r.partition.graphPartitionFilename == PartitionFilename(graph, c.partition.k, eps, c.partition.seed)
    ensures r.partition.(graphFilename := c.partition.graphFilename,
                         graphPartitionFilename := c.partition.graphPartitionFilename) == c.partition
    ensures OnlyPartitionChanged(c, r)
  {
    var p := c.partition.(graphFilename := graph);
    var epsilonStr := TrimTrailingZeros(renderEpsilon(p.epsilon));
    c.(partition := p.(graphPartitionFilename :=
      p.graphFilename + ".part" + IntToString(p.k) + ".epsilon" + epsilonStr
      + ".seed" + IntToString(p.seed) + ".KaHyPar"))
  }

  /** `kahypar_set_custom_target_block_weights`: turns individual part weights
      on and appends the first `numBlocks` weights, in order, to the existing
      maximum part weights. Epsilon is left alone. */
  function SetCustomTargetBlockWeights(c: Context, numBlocks: UInt32, blockWeights: seq<int>): (r: Context)
    requires numBlocks <= |blockWeights|
    ensures r.partition.useIndividualPartWeights
    ensures |r.partition.maxPartWeights| == |c.partition.maxPartWeights| + numBlocks
    ensures r.partition.maxPartWeights[..|c.partition.maxPartWeights|] == c.partition.maxPartWeights
    ensures forall i :: 0 <= i < numBlocks ==>
              r.partition.maxPartWeights[|c.partition.maxPartWeights| + i] == blockWeights[i]
    ensures r.partition.(useIndividualPartWeights := c.partition.useIndividualPartWeights,
                         maxPartWeights := c.partition.maxPartWeights) == c.partition
    ensures OnlyPartitionChanged(c, r)
  {
    var p := c.partition.(useIndividualPartWeights := true);
    c.(partition := p.(maxPartWeights := AppendWeights(p.maxPartWeights, blockWeights, numBlocks)))
  }

  /** The loop `for i in [0, n): weights.push_back(blockWeights[i])`. */
  function AppendWeights(weights: seq<int>, blockWeights: seq<int>, n: nat): (r: seq<int>)
    requires n <= |blockWeights|
    ensures r == weights + blockWeights[..n]
    decreases n
  {
    if n == 0 then weights
    else
      assert blockWeights[..n] == blockWeights[..n - 1] + [blockWeights[n - 1]];
      AppendWeights(weights, blockWeights, n - 1) + [blockWeights[n - 1]]
  }
}
