/**
 * The C interface's partition and improve-partition entry points. The
 * hypergraph construction, the multilevel partitioner itself and the
 * objective computation are not modelled: they are the parameters `engine`
 * and `metric`, and the model states what these entry points hand to them
 * and what they do with what comes back.
 */
module LibKaHyPar {
  import opened Wrappers
  import opened Contexts

  /** The block id of a node that has not been assigned one. */
  const InvalidPartition: int := -1

  /** The caller's hypergraph arrays (node count, hyperedge count, weights and
      the pins in CSR form), passed through to the hypergraph constructor. */
  datatype Instance = Instance(
    numVertices: UInt32,
    numHyperedges: UInt32,
    vertexWeights: seq<int>,
    hyperedgeWeights: seq<int>,
    hyperedgeIndices: seq<nat>,
    hyperedges: seq<nat>)

  /** What a partitioner run leaves behind: its context, which it may have
      changed, and the block of every node. */
  datatype EngineResult = EngineResult(context: Context, partId: nat -> int)

  /** A run of the partitioner on a context, the instance and the nodes'
      starting blocks. */
  type Engine = (Context, Instance, seq<int>) -> EngineResult

  /** The objective of a final block assignment under a context. */
  type Metric = (Context, Instance, seq<int>) -> int

  /** The checks the entry points make on their input, as errors. */
  datatype ApiError =
    | MissingPartWeights   // individual part weights requested but none supplied
    | NotDirectKway        // improvement requires direct k-way mode
    | EmptyPartition       // no node, so the input partition has no maximum
    | MaxBlockMismatch     // the largest block id is not k - 1
    | CorruptedPartition   // some block id in [0, k) is not used

  /** The results of a call: the context afterwards, the objective and the
      caller's partition array. */
  datatype Outcome = Outcome(context: Context, objective: int, partition: seq<UInt32>)

  /** The context handed to the partitioner: k and epsilon from the
      arguments, partition-file writing off. */
  function PrepareContext(c: Context, epsilon: real, numBlocks: UInt32): (r: Context)
    ensures r.partition.k == ToInt32(numBlocks) && r.partition.epsilon == epsilon
    ensures !r.partition.writePartitionFile
    ensures r.partition.(k := c.partition.k, epsilon := c.partition.epsilon,
                         writePartitionFile := c.partition.writePartitionFile) == c.partition
    ensures OnlyPartitionChanged(c, r)
  {
    c.(partition := c.partition.(k := ToInt32(numBlocks), epsilon := epsilon, writePartitionFile := false))
  }

  /** The nodes' starting blocks: the caller's array when v-cycle refinement
      of an input partition is on, otherwise unassigned. */
  function InitialParts(c: Context, partition: seq<UInt32>): (r: seq<int>)
    ensures |r| == |partition|
    ensures c.partition.vcycleRefinementForInputPartition ==>
              forall i :: 0 <= i < |partition| ==> r[i] == ToInt32(partition[i])
    ensures !c.partition.vcycleRefinementForInputPartition ==>
              forall i :: 0 <= i < |partition| ==> r[i] == InvalidPartition
  {
    if c.partition.vcycleRefinementForInputPartition then seq(|partition|, i requires 0 <= i < |partition| => ToInt32(partition[i]))
    else seq(|partition|, _ => InvalidPartition)
  }

  /** The per-call state a finished call clears. */
  predicate PerCallStateCleared(c: Context)
  {
    c.partition.perfectBalancePartWeights == [] && c.partition.maxPartWeights == [] && c.evolutionary.communities == []
  }

  /** `kahypar_partition`: prepares the context, seeds the nodes, runs the
      partitioner, evaluates the objective, copies every node's block into the
      caller's array and clears the per-call weight and community lists. */
  function Partition(c: Context, inst: Instance, epsilon: real, numBlocks: UInt32,
                     partition: seq<UInt32>, engine: Engine, metric: Metric): (r: Result<Outcome, ApiError>)
    requires |partition| == inst.numVertices
    ensures r.Failure? <==> c.partition.useIndividualPartWeights && c.partition.maxPartWeights == []
    ensures r.Failure? ==> r.error == MissingPartWeights
    ensures r.Success? ==>
      var prepared := PrepareContext(c, epsilon, numBlocks);
      var run := engine(prepared, inst, InitialParts(prepared, partition));
      && |r.value.partition| == |partition|
      && (forall i :: 0 <= i < |partition| ==> r.value.partition[i] == ToUInt32(run.partId(i)))
      && r.value.objective == metric(run.context, inst, seq(|partition|, i requires 0 <= i < |partition| => run.partId(i)))
      && PerCallStateCleared(r.value.context)
      && r.value.context.(partition := run.context.partition.(perfectBalancePartWeights := [], maxPartWeights := []),
                          evolutionary := run.context.evolutionary.(communities := [])) == r.value.context
      && r.value.context.partition.(perfectBalancePartWeights := run.context.partition.perfectBalancePartWeights,
                                    maxPartWeights := run.context.partition.maxPartWeights) == run.context.partition
      && OnlyPartitionOrCommunitiesChanged(run.context, r.value.context)
  {
    if c.partition.useIndividualPartWeights && c.partition.maxPartWeights == [] then
      Failure(MissingPartWeights)
    else
      var prepared := PrepareContext(c, epsilon, numBlocks);
      var run := engine(prepared, inst, InitialParts(prepared, partition));
      var final := seq(|partition|, hn requires 0 <= hn < |partition| => run.partId(hn));
      var objective := metric(run.context, inst, final);
      var out := seq(|partition|, hn requires 0 <= hn < |partition| => ToUInt32(final[hn]));
      var cleared := run.context.(
        partition := run.context.partition.(perfectBalancePartWeights := [], maxPartWeights := []),
        evolutionary := run.context.evolutionary.(communities := []));
      Success(Outcome(cleared, objective, out))
  }

  /** `c'` differs from `c` at most in its partitioning parameters and communities. */
  predicate OnlyPartitionOrCommunitiesChanged(c: Context, c': Context)
  {
    c'.preprocessing == c.preprocessing && c'.localSearch == c.localSearch
    && c'.initialPartitioning == c.initialPartitioning
  }

  /** Largest value of a non-empty sequence (`std::max_element`). */
  function MaxOf(p: seq<UInt32>): (m: UInt32)
    requires |p| > 0
    ensures m in p
    ensures forall i :: 0 <= i < |p| ==> p[i] <= m
  {
    if |p| == 1 then p[0]
    else
      var m := MaxOf(p[..|p| - 1]);
      assert forall i :: 0 <= i < |p| - 1 ==> p[..|p| - 1][i] == p[i];
      if p[|p| - 1] > m then p[|p| - 1] else m
  }

  /** The checks on an input partition, in the order the source makes them;
      `num_blocks - 1` is computed in 32-bit unsigned arithmetic. */
  function CheckInputPartition(p: seq<UInt32>, numBlocks: UInt32): (r: Option<ApiError>)
    ensures r == None <==> ValidInputPartition(p, numBlocks)
  {
    if |p| == 0 then Some(EmptyPartition)
    else if MaxOf(p) != ToUInt32(numBlocks - 1) then Some(MaxBlockMismatch)
    else if exists b :: 0 <= b < numBlocks && b !in p then Some(CorruptedPartition)
    else None
  }

  /** An input partition the source accepts: its largest id is `k - 1` (in
      32-bit unsigned arithmetic) and every id in [0, k) occurs. */
  predicate ValidInputPartition(p: seq<UInt32>, numBlocks: UInt32)
  {
    |p| > 0 && MaxOf(p) == ToUInt32(numBlocks - 1) && forall b :: 0 <= b < numBlocks ==> b in p
  }

  /** The context rewrite before an improvement run: v-cycle refinement of
      the input partition on, the number of global iterations from the
      argument (truncated to 32 bits), the min-hash sparsifier off. */
  function ImproveContext(c: Context, numImprovementIterations: nat): (r: Context)
    ensures r.partition.vcycleRefinementForInputPartition
    ensures r.partition.globalSearchIterations == ToUInt32(numImprovementIterations)
    ensures !r.preprocessing.enableMinHashSparsifier
    ensures r.partition.(vcycleRefinementForInputPartition := c.partition.vcycleRefinementForInputPartition,
                         globalSearchIterations := c.partition.globalSearchIterations) == c.partition
    ensures r.(partition := c.partition, preprocessing := c.preprocessing) == c
  {
    c.(partition := c.partition.(vcycleRefinementForInputPartition := true,
                                 globalSearchIterations := ToUInt32(numImprovementIterations)),
       preprocessing := c.preprocessing.(enableMinHashSparsifier := false))
  }

  /** `kahypar_improve_partition`: refuses any mode but direct k-way and, for
      k >= 1, any input partition whose ids are not exactly those of k blocks
      (at k = 0, `k - 1` wraps to the unsigned maximum, so an input is
      accepted when its largest id is that maximum), then runs
      `kahypar_partition` on the rewritten context with the input partition
      as the caller's array. */
  function ImprovePartition(c: Context, inst: Instance, epsilon: real, numBlocks: UInt32,
                            input: seq<UInt32>, numImprovementIterations: nat,
                            engine: Engine, metric: Metric): (r: Result<Outcome, ApiError>)
    requires |input| == inst.numVertices
    ensures c.partition.mode != DirectKway ==> r == Failure(NotDirectKway)
    ensures c.partition.mode == DirectKway && !ValidInputPartition(input, numBlocks) ==>
              r.Failure? && r.error in {EmptyPartition, MaxBlockMismatch, CorruptedPartition}
    ensures c.partition.mode == DirectKway && ValidInputPartition(input, numBlocks) ==>
              r == Partition(ImproveContext(c, numImprovementIterations), inst, epsilon, numBlocks, input, engine, metric)
    ensures r.Success? ==>
      && c.partition.mode == DirectKway && ValidInputPartition(input, numBlocks)
      && var prepared := PrepareContext(ImproveContext(c, numImprovementIterations), epsilon, numBlocks);
         var run := engine(prepared, inst, seq(|input|, i requires 0 <= i < |input| => ToInt32(input[i])));
         && prepared.partition.vcycleRefinementForInputPartition
         && !prepared.preprocessing.enableMinHashSparsifier
         && |r.value.partition| == |input|
         && (forall i :: 0 <= i < |input| ==> r.value.partition[i] == ToUInt32(run.partId(i)))
         && PerCallStateCleared(r.value.context)
  {
    if c.partition.mode != DirectKway then Failure(NotDirectKway)
    else match CheckInputPartition(input, numBlocks)
      case Some(e) => Failure(e)
      case None =>
        var improving := ImproveContext(c, numImprovementIterations);
        var improved := input;
        assert InitialParts(PrepareContext(improving, epsilon, numBlocks), improved)
               == seq(|input|, i requires 0 <= i < |input| => ToInt32(input[i]));
        Partition(improving, inst, epsilon, numBlocks, improved, engine, metric)
  }
}
