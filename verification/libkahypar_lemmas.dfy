/** Properties of the C interface's entry points. */
module LibKaHyParLemmas {
  import opened Wrappers
  import opened Contexts
  import opened LibKaHyPar

  /** For k >= 1 an input partition is accepted exactly when the ids it uses
      are precisely 0, 1, ..., k - 1. */
  lemma {:induction false} ValidInputPartitionIff(p: seq<UInt32>, numBlocks: UInt32)
    requires numBlocks >= 1
    ensures ValidInputPartition(p, numBlocks) <==>
              (forall i :: 0 <= i < |p| ==> p[i] < numBlocks) && (forall b :: 0 <= b < numBlocks ==> b in p)
  {
    if (forall i :: 0 <= i < |p| ==> p[i] < numBlocks) && (forall b :: 0 <= b < numBlocks ==> b in p) {
      assert 0 in p;
      assert numBlocks - 1 in p;
      var m := MaxOf(p);
      var j :| 0 <= j < |p| && p[j] == numBlocks - 1;
      assert p[j] <= m;
    }
  }

  /** With k = 0 the expected maximum `k - 1` wraps to the largest 32-bit
      value, so a partition is accepted exactly when it contains that id. */
  lemma ZeroBlocksWrapAround(p: seq<UInt32>)
    requires |p| > 0
    ensures ValidInputPartition(p, 0) <==> UInt32Max in p
  {
    var m := MaxOf(p);
    if UInt32Max in p {
      var j :| 0 <= j < |p| && p[j] == UInt32Max;
      assert p[j] <= m;
    }
  }

  /** An input that uses only block 0 while k >= 2 is refused by the
      maximum check, before the missing blocks are looked for; nothing is
      written. */
  lemma SingleBlockInputRefused(c: Context, inst: Instance, epsilon: real, numBlocks: UInt32,
                                input: seq<UInt32>, iterations: nat, engine: Engine, metric: Metric)
    requires |input| == inst.numVertices && |input| > 0
    requires c.partition.mode == DirectKway
    requires numBlocks >= 2
    requires forall i :: 0 <= i < |input| ==> input[i] == 0
    ensures ImprovePartition(c, inst, epsilon, numBlocks, input, iterations, engine, metric) == Failure(MaxBlockMismatch)
  {
    assert MaxOf(input) == 0;
  }

  /** When the ids fit a signed 32-bit block id, an accepted input partition
      is exactly the starting assignment the partitioner receives. */
  lemma ImprovementSeedsInput(input: seq<UInt32>, numBlocks: UInt32)
    requires ValidInputPartition(input, numBlocks)
    requires 1 <= numBlocks <= IntMax + 1
    ensures forall i :: 0 <= i < |input| ==> ToInt32(input[i]) == input[i]
  {
    ValidInputPartitionIff(input, numBlocks);
  }

  /** A partitioner that leaves its context alone makes a call change the
      context only in k, epsilon, partition-file writing and the cleared
      per-call lists. */
  lemma PartitionContextEffect(c: Context, inst: Instance, epsilon: real, numBlocks: UInt32,
                               partition: seq<UInt32>, engine: Engine, metric: Metric)
    requires |partition| == inst.numVertices
    requires !c.partition.useIndividualPartWeights || c.partition.maxPartWeights != []
    requires forall c1, i, s :: engine(c1, i, s).context == c1
    ensures Partition(c, inst, epsilon, numBlocks, partition, engine, metric).Success?
    ensures Partition(c, inst, epsilon, numBlocks, partition, engine, metric).value.context
            == c.(partition := c.partition.(k := ToInt32(numBlocks), epsilon := epsilon, writePartitionFile := false,
                                             perfectBalancePartWeights := [], maxPartWeights := []),
                  evolutionary := c.evolutionary.(communities := []))
  {
  }

  /** Custom block weights serve a single call: after it, another call that
      still asks for individual part weights is refused until weights are
      supplied again. */
  lemma CustomWeightsServeOneCall(c: Context, numBlocks: UInt32, blockWeights: seq<int>,
                                  inst: Instance, epsilon: real, k: UInt32,
                                  partition: seq<UInt32>, engine: Engine, metric: Metric)
    requires 1 <= numBlocks <= |blockWeights|
    requires |partition| == inst.numVertices
    requires forall c1, i, s :: engine(c1, i, s).context == c1
    ensures var c1 := SetCustomTargetBlockWeights(c, numBlocks, blockWeights);
            var first := Partition(c1, inst, epsilon, k, partition, engine, metric);
            && first.Success?
            && Partition(first.value.context, inst, epsilon, k, partition, engine, metric) == Failure(MissingPartWeights)
  {
  }
}
