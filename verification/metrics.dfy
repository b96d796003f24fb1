/**
 * Partition metrics of a hypergraph: the hyperedge cut (plain and read
 * through a node-id mapping), the 2-way imbalance and the per-block weights.
 * Each operation is a method that walks the hypergraph the way the source
 * does; the functions beside them are the reference definitions their
 * contracts are stated against.
 */
module Metrics {
  import opened Hypergraphs
  import opened Wrappers

  /** The blocks of the pins of a hyperedge, in pin order. */
  function PinBlocks(pins: seq<nat>, blockOf: seq<int>): (bs: seq<int>)
    requires PinsIn(pins, |blockOf|)
    ensures |bs| == |pins|
    ensures forall i :: 0 <= i < |pins| ==> bs[i] == blockOf[pins[i]]
  {
    seq(|pins|, i requires 0 <= i < |pins| => blockOf[pins[i]])
  }

  /** The cut test the source performs: some pin after the first lies in a
      different block from the first pin. */
  predicate DiffersFromFirst(bs: seq<int>)
  {
    |bs| > 0 && exists i :: 1 <= i < |bs| && bs[i] != bs[0]
  }

  /** What a hyperedge adds to the cut. */
  function Contribution(e: Hyperedge, blockOf: seq<int>): int
    requires PinsIn(e.pins, |blockOf|)
  {
    if DiffersFromFirst(PinBlocks(e.pins, blockOf)) then e.weight else 0
  }

  /** Reference cut: every hyperedge whose pins do not all share the first
      pin's block adds its weight, once. */
  function CutOf(edges: seq<Hyperedge>, blockOf: seq<int>): int
    requires PinsBelow(edges, |blockOf|)
  {
    if |edges| == 0 then 0
    else CutOf(edges[..|edges| - 1], blockOf) + Contribution(edges[|edges| - 1], blockOf)
  }

  /** The cut of a hypergraph under its own block assignment. */
  function Cut(hg: Hypergraph): int
    requires hg.Valid()
  {
    CutOf(hg.edges, hg.part)
  }

  /** `hyperedgeCut(hg)`: for each hyperedge, skip it when it has no pins,
      otherwise compare every later pin's block with the first pin's block and
      add the hyperedge weight at the first difference, then stop scanning. */
  method HyperedgeCut(hg: Hypergraph) returns (cut: int)
    requires hg.Valid()
    ensures cut == Cut(hg)
  {
    cut := 0;
    var he := 0;
    while he < |hg.edges|
      invariant 0 <= he <= |hg.edges|
      invariant cut == CutOf(hg.edges[..he], hg.part)
    {
      assert hg.edges[..he + 1][..he] == hg.edges[..he];
      var e := hg.edges[he];
      assert e in hg.edges;
      var pins := e.pins;
      if |pins| == 0 {
        he := he + 1;
        continue;
      }
      var partition := hg.part[pins[0]];
      var j := 1;
      while j < |pins|
        invariant 1 <= j <= |pins|
        invariant cut == CutOf(hg.edges[..he], hg.part)
        invariant forall t :: 1 <= t < j ==> hg.part[pins[t]] == partition
      {
        if partition != hg.part[pins[j]] {
          assert PinBlocks(pins, hg.part)[j] != PinBlocks(pins, hg.part)[0];
          cut := cut + e.weight;
          break;
        }
        j := j + 1;
      }
      he := he + 1;
    }
    assert hg.edges[..he] == hg.edges;
  }

  /** The source's second overload reads node `v`'s block as
      `partitioning[toHmetis[v]]`; both lookups must be in range for every pin. */
  predicate MappingDefined(edges: seq<Hyperedge>, toHmetis: seq<nat>, partitioning: seq<int>)
  {
    forall e <- edges :: MappedPinsIn(e.pins, toHmetis, partitioning)
  }

  /** Both lookups are in range for every pin of `pins`. */
  predicate MappedPinsIn(pins: seq<nat>, toHmetis: seq<nat>, partitioning: seq<int>)
  {
    forall i :: 0 <= i < |pins| ==> pins[i] < |toHmetis| && toHmetis[pins[i]] < |partitioning|
  }

  /** The blocks of the pins of a hyperedge, read through the mapping. */
  function MappedPinBlocks(pins: seq<nat>, toHmetis: seq<nat>, partitioning: seq<int>): (bs: seq<int>)
    requires MappedPinsIn(pins, toHmetis, partitioning)
    ensures |bs| == |pins|
    ensures forall i :: 0 <= i < |pins| ==> bs[i] == partitioning[toHmetis[pins[i]]]
  {
    seq(|pins|, i requires 0 <= i < |pins| => partitioning[toHmetis[pins[i]]])
  }

  /** Reference cut through the mapping. */
  function MappedCutOf(edges: seq<Hyperedge>, toHmetis: seq<nat>, partitioning: seq<int>): int
    requires MappingDefined(edges, toHmetis, partitioning)
  {
    if |edges| == 0 then 0
    else
      var e := edges[|edges| - 1];
      MappedCutOf(edges[..|edges| - 1], toHmetis, partitioning)
      + (if DiffersFromFirst(MappedPinBlocks(e.pins, toHmetis, partitioning)) then e.weight else 0)
  }

  /** `hyperedgeCut(hg, hg_to_hmetis, partitioning)`: the same walk as
      `HyperedgeCut`, reading blocks through the mapping. */
  method HyperedgeCutMapped(hg: Hypergraph, toHmetis: seq<nat>, partitioning: seq<int>) returns (cut: int)
    requires MappingDefined(hg.edges, toHmetis, partitioning)
    ensures cut == MappedCutOf(hg.edges, toHmetis, partitioning)
  {
    cut := 0;
    var he := 0;
    while he < |hg.edges|
      invariant 0 <= he <= |hg.edges|
      invariant cut == MappedCutOf(hg.edges[..he], toHmetis, partitioning)
    {
      assert hg.edges[..he + 1][..he] == hg.edges[..he];
      var e := hg.edges[he];
      assert e in hg.edges;
      var pins := e.pins;
      if |pins| == 0 {
        he := he + 1;
        continue;
      }
      var partition := partitioning[toHmetis[pins[0]]];
      var j := 1;
      while j < |pins|
        invariant 1 <= j <= |pins|
        invariant cut == MappedCutOf(hg.edges[..he], toHmetis, partitioning)
        invariant forall t :: 1 <= t < j ==> partitioning[toHmetis[pins[t]]] == partition
      {
        if partition != partitioning[toHmetis[pins[j]]] {
          assert MappedPinBlocks(pins, toHmetis, partitioning)[j] != MappedPinBlocks(pins, toHmetis, partitioning)[0];
          cut := cut + e.weight;
          break;
        }
        j := j + 1;
      }
      he := he + 1;
    }
    assert hg.edges[..he] == hg.edges;
  }

  /** Total weight of the nodes whose block is `b`. */
  function BlockWeight(nodeWeight: seq<int>, part: seq<int>, b: int): int
    requires |part| == |nodeWeight|
  {
    if |nodeWeight| == 0 then 0
    else
      var n := |nodeWeight| - 1;
      BlockWeight(nodeWeight[..n], part[..n], b) + (if part[n] == b then nodeWeight[n] else 0)
  }

  function Max(a: int, b: int): int
  {
    if a >= b then a else b
  }

  /** Every node is in block 0 or block 1. */
  predicate Bipartitioned(hg: Hypergraph)
  {
    |hg.part| == |hg.nodeWeight| && forall v :: 0 <= v < |hg.part| ==> 0 <= hg.part[v] < 2
  }

  /** `imbalance(hg)`: accumulates the weights of blocks 0 and 1 and the total
      weight, then returns `2 * max / total - 1`. The result is computed over the
      reals; a zero total has no real quotient and yields `None`. */
  method Imbalance(hg: Hypergraph) returns (r: Option<real>)
    requires Bipartitioned(hg)
    ensures Sum(hg.nodeWeight) == 0 <==> r.None?
    ensures r.Some? ==>
      r.value == 2.0 * Max(BlockWeight(hg.nodeWeight, hg.part, 0), BlockWeight(hg.nodeWeight, hg.part, 1)) as real
                 / Sum(hg.nodeWeight) as real - 1.0
  {
    var size0, size1, total := 0, 0, 0;
    var v := 0;
    while v < |hg.nodeWeight|
      invariant 0 <= v <= |hg.nodeWeight|
      invariant size0 == BlockWeight(hg.nodeWeight[..v], hg.part[..v], 0)
      invariant size1 == BlockWeight(hg.nodeWeight[..v], hg.part[..v], 1)
      invariant total == Sum(hg.nodeWeight[..v])
      invariant size0 + size1 == total
    {
      assert hg.nodeWeight[..v + 1][..v] == hg.nodeWeight[..v];
      assert hg.part[..v + 1][..v] == hg.part[..v];
      if hg.part[v] == 0 {
        size0 := size0 + hg.nodeWeight[v];
      } else {
        size1 := size1 + hg.nodeWeight[v];
      }
      total := total + hg.nodeWeight[v];
      v := v + 1;
    }
    assert hg.nodeWeight[..v] == hg.nodeWeight;
    assert hg.part[..v] == hg.part;
    var maxWeight := Max(size0, size1);
    if total == 0 {
      r := None;
    } else {
      r := Some(2.0 * maxWeight as real / total as real - 1.0);
    }
  }

  /** `partitionWeights(hg, weights)`: adds every node's weight to the entry of
      its block; entries are raised, never reset. */
  method PartitionWeights(hg: Hypergraph, weights: seq<int>) returns (r: seq<int>)
    requires |hg.part| == |hg.nodeWeight|
    requires forall v :: 0 <= v < |hg.part| ==> 0 <= hg.part[v] < |weights|
    ensures |r| == |weights|
    ensures forall b :: 0 <= b < |weights| ==> r[b] == weights[b] + BlockWeight(hg.nodeWeight, hg.part, b)
    ensures forall b :: 0 <= b < |weights| && b !in hg.part ==> r[b] == weights[b]
  {
    r := weights;
    var v := 0;
    while v < |hg.nodeWeight|
      invariant 0 <= v <= |hg.nodeWeight|
      invariant |r| == |weights|
      invariant forall b :: 0 <= b < |weights| ==> r[b] == weights[b] + BlockWeight(hg.nodeWeight[..v], hg.part[..v], b)
    {
      assert hg.nodeWeight[..v + 1][..v] == hg.nodeWeight[..v];
      assert hg.part[..v + 1][..v] == hg.part[..v];
      var b := hg.part[v];
      r := r[b := r[b] + hg.nodeWeight[v]];
      v := v + 1;
    }
    assert hg.nodeWeight[..v] == hg.nodeWeight;
    assert hg.part[..v] == hg.part;
    forall b | 0 <= b < |weights| && b !in hg.part
      ensures r[b] == weights[b]
    {
      BlockWeightOfAbsentBlock(hg.nodeWeight, hg.part, b);
    }
  }

  /** The weights of blocks 0 .. k-1, in block order. */
  function BlockWeights(nodeWeight: seq<int>, part: seq<int>, k: nat): (ws: seq<int>)
    requires |part| == |nodeWeight|
    ensures |ws| == k && forall b :: 0 <= b < k ==> ws[b] == BlockWeight(nodeWeight, part, b)
  {
    seq(k, b => BlockWeight(nodeWeight, part, b))
  }

  /** With every node in one of the blocks 0 .. k-1, the block weights add up
      to the total node weight: every node is counted in exactly one block. */
  lemma {:induction false} BlockWeightsSumToTotal(nodeWeight: seq<int>, part: seq<int>, k: nat)
    requires |part| == |nodeWeight|
    requires forall v :: 0 <= v < |part| ==> 0 <= part[v] < k
    ensures Sum(BlockWeights(nodeWeight, part, k)) == Sum(nodeWeight)
  {
    var n := |nodeWeight|;
    if n == 0 {
      ZeroSum(BlockWeights(nodeWeight, part, k));
    } else {
      var nw, pt := nodeWeight[..n - 1], part[..n - 1];
      BlockWeightsSumToTotal(nw, pt, k);
      var before := BlockWeights(nw, pt, k);
      var p := part[n - 1];
      assert BlockWeights(nodeWeight, part, k) == before[p := before[p] + nodeWeight[n - 1]];
      SumUpdate(before, p, nodeWeight[n - 1]);
    }
  }

  /** A sequence of zeros sums to zero. */
  lemma {:induction false} ZeroSum(s: seq<int>)
    requires forall i :: 0 <= i < |s| ==> s[i] == 0
    ensures Sum(s) == 0
  {
    if |s| > 0 {
      ZeroSum(s[..|s| - 1]);
    }
  }

  /** Adding the block weights to a weight vector raises its sum by exactly
      the total node weight. */
  lemma PartitionWeightsPreserveTotal(weights: seq<int>, nodeWeight: seq<int>, part: seq<int>)
    requires |part| == |nodeWeight|
    requires forall v :: 0 <= v < |part| ==> 0 <= part[v] < |weights|
    ensures Sum(seq(|weights|, b requires 0 <= b < |weights| => weights[b] + BlockWeight(nodeWeight, part, b)))
            == Sum(weights) + Sum(nodeWeight)
  {
    var ws := BlockWeights(nodeWeight, part, |weights|);
    BlockWeightsSumToTotal(nodeWeight, part, |weights|);
    SumPointwise(weights, ws);
    assert seq(|weights|, b requires 0 <= b < |weights| => weights[b] + BlockWeight(nodeWeight, part, b))
           == seq(|weights|, i requires 0 <= i < |weights| => weights[i] + ws[i]);
  }

  /** The sum of a pointwise sum is the sum of the sums. */
  lemma {:induction false} SumPointwise(a: seq<int>, b: seq<int>)
    requires |a| == |b|
    ensures Sum(seq(|a|, i requires 0 <= i < |a| => a[i] + b[i])) == Sum(a) + Sum(b)
  {
    if |a| > 0 {
      var n := |a| - 1;
      SumPointwise(a[..n], b[..n]);
      assert seq(|a|, i requires 0 <= i < |a| => a[i] + b[i])[..n]
             == seq(n, i requires 0 <= i < n => a[..n][i] + b[..n][i]);
    }
  }

  /** A block no node is in weighs nothing. */
  lemma {:induction false} BlockWeightOfAbsentBlock(nodeWeight: seq<int>, part: seq<int>, b: int)
    requires |part| == |nodeWeight|
    requires b !in part
    ensures BlockWeight(nodeWeight, part, b) == 0
  {
    if |nodeWeight| > 0 {
      var n := |nodeWeight| - 1;
      assert part[n] in part;
      BlockWeightOfAbsentBlock(nodeWeight[..n], part[..n], b);
    }
  }

  /** Raising one entry of a sequence raises its sum by the same amount. */
  lemma {:induction false} SumUpdate(s: seq<int>, i: nat, d: int)
    requires i < |s|
    ensures Sum(s[i := s[i] + d]) == Sum(s) + d
  {
    var t := s[i := s[i] + d];
    if i == |s| - 1 {
      assert t[..|t| - 1] == s[..|s| - 1];
    } else {
      assert t[..|t| - 1] == s[..|s| - 1][i := s[i] + d];
      SumUpdate(s[..|s| - 1], i, d);
    }
  }
}
