/**
 * The part of a hypergraph the metrics read: the enabled hypernodes with their
 * weights and block ids, and the enabled hyperedges with their weights and
 * ordered pin lists. Node ids are positions in `nodeWeight`.
 */
module Hypergraphs {

  /** A hyperedge (net): its weight and its pins, in iteration order. */
  datatype Hyperedge = Hyperedge(weight: int, pins: seq<nat>)

  /** `part[v]` is the block (partition index) of node `v`. */
  datatype Hypergraph = Hypergraph(nodeWeight: seq<int>, part: seq<int>, edges: seq<Hyperedge>)
  {
    /** Every node has a block id and every pin names a node. */
    predicate Valid()
    {
      |part| == |nodeWeight| && PinsBelow(edges, |nodeWeight|)
    }
  }

  /** Every pin of `pins` is below `n`. */
  predicate PinsIn(pins: seq<nat>, n: nat)
  {
    forall i :: 0 <= i < |pins| ==> pins[i] < n
  }

  /** Every pin of every hyperedge is below `n`. */
  predicate PinsBelow(edges: seq<Hyperedge>, n: nat)
  {
    forall e <- edges :: PinsIn(e.pins, n)
  }

  /** Sum of a sequence of integers. */
  function Sum(s: seq<int>): int
  {
    if |s| == 0 then 0 else Sum(s[..|s| - 1]) + s[|s| - 1]
  }

  /** Sum of the hyperedge weights. */
  function TotalEdgeWeight(edges: seq<Hyperedge>): int
  {
    if |edges| == 0 then 0 else TotalEdgeWeight(edges[..|edges| - 1]) + edges[|edges| - 1].weight
  }
}
