/** How the context setters compose. */
module ContextLemmas {
  import opened Text
  import opened Contexts

  /** Setting k twice keeps only the second value. */
  lemma SetPartitionKLastWins(c: Context, a: Int32, b: Int32)
    ensures SetPartitionK(SetPartitionK(c, a), b) == SetPartitionK(c, b)
  {
  }

  /** Turning individual part weights off again does not restore the epsilon
      that turning them on discarded. */
  lemma IndividualPartWeightsDiscardEpsilon(c: Context)
    ensures SetUseIndividualPartWeights(SetUseIndividualPartWeights(c, true), false).partition.epsilon == 0.0
  {
  }

  /** Supplying custom block weights switches individual part weights on
      without forcing epsilon to 0, unlike the flag's own setter. */
  lemma CustomWeightsKeepEpsilon(c: Context, numBlocks: UInt32, blockWeights: seq<int>)
    requires numBlocks <= |blockWeights|
    requires c.partition.epsilon != 0.0
    ensures SetCustomTargetBlockWeights(c, numBlocks, blockWeights).partition.epsilon
            != SetUseIndividualPartWeights(c, true).partition.epsilon
  {
  }

  /** Two calls append both lists: the weights accumulate rather than replace. */
  lemma CustomWeightsAccumulate(c: Context, n1: UInt32, w1: seq<int>, n2: UInt32, w2: seq<int>)
    requires n1 <= |w1| && n2 <= |w2|
    ensures SetCustomTargetBlockWeights(SetCustomTargetBlockWeights(c, n1, w1), n2, w2).partition.maxPartWeights
            == c.partition.maxPartWeights + w1[..n1] + w2[..n2]
  {
  }

  /** The partition file name starts with the graph file name and ends with
      ".KaHyPar", and the epsilon part of it never ends in '0'. */
  lemma PartitionFilenameShape(c: Context, graph: string, renderEpsilon: real -> string)
    ensures var name := SetGraphFilename(c, graph, renderEpsilon).partition.graphPartitionFilename;
            |name| >= |graph| + 8 && name[..|graph|] == graph && name[|name| - 8..] == ".KaHyPar"
    ensures var eps := TrimTrailingZeros(renderEpsilon(c.partition.epsilon));
            |eps| == 0 || eps[|eps| - 1] != '0'
  {
    var name := SetGraphFilename(c, graph, renderEpsilon).partition.graphPartitionFilename;
    var eps := TrimTrailingZeros(renderEpsilon(c.partition.epsilon));
    var mid := ".part" + IntToString(c.partition.k) + ".epsilon" + eps + ".seed" + IntToString(c.partition.seed);
    assert name == graph + mid + ".KaHyPar";
  }

  /** The top-level setter is idempotent: setting the value it stored again,
      `INT_MAX` in place of `-1` included, changes nothing. */
  lemma TopLevelSetterIdempotent(c: Context, iterations: Int32)
    ensures var c1 := SetLocalSearchIterationsPerLevel(c, iterations);
            SetLocalSearchIterationsPerLevel(c1, c1.localSearch.iterationsPerLevel) == c1
  {
  }

  /** As written, the initial-partitioning setter stores a caller's `-1`
      unchanged whenever the top-level field is not `-1`; in particular after
      any call of the top-level setter. */
  lemma InitialPartitioningSentinelSurvives(c: Context, top: Int32)
    ensures var c1 := SetLocalSearchIterationsPerLevel(c, top);
            SetInitialPartitioningIterationsPerLevelAsWritten(c1, -1).initialPartitioning.localSearch.iterationsPerLevel == -1
  {
  }

  /** The corrected setter treats `-1` the way the top-level setter does, on
      every context. */
  lemma InitialPartitioningSentinelCorrected(c: Context)
    ensures SetInitialPartitioningIterationsPerLevel(c, -1).initialPartitioning.localSearch.iterationsPerLevel
            == SetLocalSearchIterationsPerLevel(c, -1).localSearch.iterationsPerLevel
            == IntMax
  {
  }
}
