/** Properties of the hyperedge cut, the 2-way imbalance and the block weights. */
module CutLemmas {
  import opened Hypergraphs
  import opened Metrics

  /** The pins of a hyperedge span more than one block. */
  predicate SpansBlocks(bs: seq<int>)
  {
    exists i, j :: 0 <= i < |bs| && 0 <= j < |bs| && bs[i] != bs[j]
  }

  /** The source's first-pin test decides exactly "spans more than one block". */
  lemma DiffersFromFirstIffSpans(bs: seq<int>)
    ensures DiffersFromFirst(bs) <==> SpansBlocks(bs)
  {
    if SpansBlocks(bs) {
      var i, j :| 0 <= i < |bs| && 0 <= j < |bs| && bs[i] != bs[j];
      if bs[i] != bs[0] {
        assert 1 <= i < |bs| && bs[i] != bs[0];
      } else {
        assert 1 <= j < |bs| && bs[j] != bs[0];
      }
    }
  }

  /** Empty and single-pin hyperedges never add to the cut. */
  lemma SmallEdgeContributesNothing(e: Hyperedge, blockOf: seq<int>)
    requires PinsIn(e.pins, |blockOf|)
    requires |e.pins| <= 1
    ensures Contribution(e, blockOf) == 0
  {
  }

  /** The 3-node scenario: one hyperedge on all three nodes is cut by every
      assignment that does not put them all in one block. */
  lemma SingleEdgeOverAllNodes(blockOf: seq<int>)
    requires |blockOf| == 3
    ensures CutOf([Hyperedge(5, [0, 1, 2])], blockOf) == (if blockOf[0] == blockOf[1] == blockOf[2] then 0 else 5)
  {
    var e := Hyperedge(5, [0, 1, 2]);
    assert [e][..0] == [];
    var bs := PinBlocks(e.pins, blockOf);
    if blockOf[1] != blockOf[0] {
      assert bs[1] != bs[0];
    } else if blockOf[2] != blockOf[0] {
      assert bs[2] != bs[0];
    }
  }

  /** When every node is in one block nothing is cut. */
  lemma {:induction false} UniformBlocksNoCut(edges: seq<Hyperedge>, blockOf: seq<int>, c: int)
    requires PinsBelow(edges, |blockOf|)
    requires forall v :: 0 <= v < |blockOf| ==> blockOf[v] == c
    ensures CutOf(edges, blockOf) == 0
  {
    if |edges| > 0 {
      UniformBlocksNoCut(edges[..|edges| - 1], blockOf, c);
      var e := edges[|edges| - 1];
      assert e in edges;
      var bs := PinBlocks(e.pins, blockOf);
      assert forall i :: 0 <= i < |bs| ==> bs[i] == c;
    }
  }

  /** With non-negative hyperedge weights the cut lies between 0 and the total
      hyperedge weight. */
  lemma {:induction false} CutBounds(edges: seq<Hyperedge>, blockOf: seq<int>)
    requires PinsBelow(edges, |blockOf|)
    requires forall e <- edges :: e.weight >= 0
    ensures 0 <= CutOf(edges, blockOf) <= TotalEdgeWeight(edges)
  {
    if |edges| > 0 {
      CutBounds(edges[..|edges| - 1], blockOf);
      assert edges[|edges| - 1] in edges;
    }
  }

  /** Two assignments put the same pairs of pins of `pins` in a common block. */
  predicate SameBlockPattern(pins: seq<nat>, b1: seq<int>, b2: seq<int>)
    requires PinsIn(pins, |b1|) && PinsIn(pins, |b2|)
  {
    forall i, j :: 0 <= i < |pins| && 0 <= j < |pins| ==>
      (b1[pins[i]] == b1[pins[j]] <==> b2[pins[i]] == b2[pins[j]])
  }

  /** The cut depends only on which pins of a hyperedge share a block. */
  lemma {:induction false} CutDependsOnlyOnBlockEquality(edges: seq<Hyperedge>, b1: seq<int>, b2: seq<int>)
    requires PinsBelow(edges, |b1|) && PinsBelow(edges, |b2|)
    requires forall e <- edges :: SameBlockPattern(e.pins, b1, b2)
    ensures CutOf(edges, b1) == CutOf(edges, b2)
  {
    if |edges| > 0 {
      CutDependsOnlyOnBlockEquality(edges[..|edges| - 1], b1, b2);
      var e := edges[|edges| - 1];
      assert e in edges;
      var s1, s2 := PinBlocks(e.pins, b1), PinBlocks(e.pins, b2);
      if DiffersFromFirst(s1) {
        var i :| 1 <= i < |s1| && s1[i] != s1[0];
        assert s2[i] != s2[0];
      }
      if DiffersFromFirst(s2) {
        var i :| 1 <= i < |s2| && s2[i] != s2[0];
        assert s1[i] != s1[0];
      }
    }
  }

  /** Renames every block id through `f`. */
  function Rename(blockOf: seq<int>, f: int -> int): (r: seq<int>)
    ensures |r| == |blockOf|
    ensures forall v :: 0 <= v < |blockOf| ==> r[v] == f(blockOf[v])
  {
    seq(|blockOf|, v requires 0 <= v < |blockOf| => f(blockOf[v]))
  }

  /** An injective renaming of block ids leaves the cut unchanged. */
  lemma RenamingPreservesCut(edges: seq<Hyperedge>, blockOf: seq<int>, f: int -> int)
    requires PinsBelow(edges, |blockOf|)
    requires forall x, y :: f(x) == f(y) ==> x == y
    ensures CutOf(edges, Rename(blockOf, f)) == CutOf(edges, blockOf)
  {
    var r := Rename(blockOf, f);
    forall e <- edges
      ensures SameBlockPattern(e.pins, r, blockOf)
    {
    }
    CutDependsOnlyOnBlockEquality(edges, r, blockOf);
  }

  /** The mapped overload computes the plain cut whenever the mapping reads
      back every pin's own block. */
  lemma {:induction false} MappedCutAgrees(edges: seq<Hyperedge>, part: seq<int>, toHmetis: seq<nat>, partitioning: seq<int>)
    requires PinsBelow(edges, |part|)
    requires MappingDefined(edges, toHmetis, partitioning)
    requires forall e <- edges :: forall i :: 0 <= i < |e.pins| ==> partitioning[toHmetis[e.pins[i]]] == part[e.pins[i]]
    ensures MappedCutOf(edges, toHmetis, partitioning) == CutOf(edges, part)
  {
    if |edges| > 0 {
      MappedCutAgrees(edges[..|edges| - 1], part, toHmetis, partitioning);
      var e := edges[|edges| - 1];
      assert e in edges;
      assert MappedPinBlocks(e.pins, toHmetis, partitioning) == PinBlocks(e.pins, part);
    }
  }

  /** With every node in block 0 or 1, the two block weights add up to the total. */
  lemma {:induction false} TwoBlockWeightsSum(nodeWeight: seq<int>, part: seq<int>)
    requires |part| == |nodeWeight|
    requires forall v :: 0 <= v < |part| ==> 0 <= part[v] < 2
    ensures BlockWeight(nodeWeight, part, 0) + BlockWeight(nodeWeight, part, 1) == Sum(nodeWeight)
  {
    if |nodeWeight| > 0 {
      var n := |nodeWeight| - 1;
      TwoBlockWeightsSum(nodeWeight[..n], part[..n]);
    }
  }

  /** Block weights of non-negative node weights are non-negative. */
  lemma {:induction false} BlockWeightNonNegative(nodeWeight: seq<int>, part: seq<int>, b: int)
    requires |part| == |nodeWeight|
    requires forall v :: 0 <= v < |nodeWeight| ==> nodeWeight[v] >= 0
    ensures BlockWeight(nodeWeight, part, b) >= 0
  {
    if |nodeWeight| > 0 {
      var n := |nodeWeight| - 1;
      BlockWeightNonNegative(nodeWeight[..n], part[..n], b);
    }
  }

  /** With non-negative weights and a positive total, the 2-way imbalance lies
      in [0, 1] and is 0 exactly when both blocks weigh the same. */
  lemma ImbalanceRange(hg: Hypergraph)
    requires Bipartitioned(hg)
    requires forall v :: 0 <= v < |hg.nodeWeight| ==> hg.nodeWeight[v] >= 0
    requires Sum(hg.nodeWeight) > 0
    ensures var w0, w1 := BlockWeight(hg.nodeWeight, hg.part, 0), BlockWeight(hg.nodeWeight, hg.part, 1);
            var x := 2.0 * Max(w0, w1) as real / Sum(hg.nodeWeight) as real - 1.0;
            0.0 <= x <= 1.0 && (x == 0.0 <==> w0 == w1)
  {
    var w0, w1 := BlockWeight(hg.nodeWeight, hg.part, 0), BlockWeight(hg.nodeWeight, hg.part, 1);
    var t := Sum(hg.nodeWeight);
    TwoBlockWeightsSum(hg.nodeWeight, hg.part);
    BlockWeightNonNegative(hg.nodeWeight, hg.part, 0);
    BlockWeightNonNegative(hg.nodeWeight, hg.part, 1);
    assert t <= 2 * Max(w0, w1) <= 2 * t;
    RatioBounds(2.0 * Max(w0, w1) as real, t as real);
  }

  /** For 0 < b <= a <= 2b, a / b - 1 lies in [0, 1] and is 0 exactly when a == b. */
  lemma RatioBounds(a: real, b: real)
    requires 0.0 < b <= a <= 2.0 * b
    ensures 0.0 <= a / b - 1.0 <= 1.0
    ensures a / b - 1.0 == 0.0 <==> a == b
  {
    var q := a / b;
    assert q * b == a;
    assert (q - 1.0) * b == a - b;
    SignOfFactor(q - 1.0, b);
    assert (2.0 - q) * b == 2.0 * b - a;
    SignOfFactor(2.0 - q, b);
  }

  /** A product with a positive factor has the sign of the other factor. */
  lemma SignOfFactor(x: real, b: real)
    requires b > 0.0
    ensures x * b >= 0.0 ==> x >= 0.0
    ensures x * b == 0.0 ==> x == 0.0
  {
  }
}
