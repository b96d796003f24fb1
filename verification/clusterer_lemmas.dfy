/** Lifecycle properties of hyperedge clusterer data: no array is released
    twice, none is leaked by assignment, and views are never released. */
module ClustererLemmas {
  import opened Wrappers
  import opened Clusterer

  /** A freshly constructed edge owns nothing, so destroying it leaves the heap as it was. */
  lemma NewEdgeDataReleasesNothing(h: Heap)
    requires h.Valid()
    ensures var (h', e) := NewEdgeData(h); SoleOwnerAlone(h', e) && Destroy(h', e) == Success(h')
  {
  }

  /** One consistent, live edge. */
  predicate SoleOwnerAlone(h: Heap, e: EdgeData)
  {
    h.Valid() && Consistent(e) && LiveIn(h, e)
  }

  /** Copy assignment between two distinct edges succeeds and keeps them sole
      owners of disjoint arrays: a small target views its own labels, a
      non-small target gets a new array, never the source's. */
  lemma CopyAssignKeepsSoleOwnership(h: Heap, target: EdgeData, source: EdgeData)
    requires SoleOwners(h, target, source)
    ensures CopyAssign(h, target, source).Success?
    ensures var (h', t) := CopyAssign(h, target, source).value;
      && SoleOwners(h', t, source)
      && (t.smallEdge ==> t.sampled == LabelsData(target.labelsStore) && t.sampled != LabelsData(source.labelsStore))
      && (!t.smallEdge ==> t.sampled.SampleArray? && t.sampled != source.sampled)
  {
  }

  /** Move assignment between two distinct edges succeeds, hands the source's
      array (if any) to the target and leaves the source owning nothing. */
  lemma MoveAssignTransfersOwnership(h: Heap, target: EdgeData, source: EdgeData)
    requires SoleOwners(h, target, source)
    ensures MoveAssign(h, target, source).Success?
    ensures var (h', t, s) := MoveAssign(h, target, source).value;
      && SoleOwners(h', t, s)
      && Owned(t) == Owned(source) && Owned(s) == {}
  {
  }

  /** After a move, destroying the moved-from source releases nothing and
      destroying the target releases the source's old array: every array the
      two edges owned is released exactly once. */
  lemma MoveThenDestroyReleasesEachOnce(h: Heap, target: EdgeData, source: EdgeData)
    requires SoleOwners(h, target, source)
    ensures MoveAssign(h, target, source).Success?
    ensures var (h1, t, s) := MoveAssign(h, target, source).value;
      && Destroy(h1, s) == Success(h1)
      && Destroy(h1, t).Success?
      && Destroy(h1, t).value.arrays == h.arrays - (Owned(target) + Owned(source))
      && Destroy(h1, t).value.freed == h.freed + Owned(target) + Owned(source)
  {
    MoveAssignTransfersOwnership(h, target, source);
    var (h1, t, s) := MoveAssign(h, target, source).value;
    assert Owned(t) == Owned(source);
    assert h1.arrays - Owned(t) == h.arrays - (Owned(target) + Owned(source));
  }

  /** After a copy, destroying both edges succeeds and releases the target's
      old array, the source's array and the array the copy allocated; nothing
      the two owned is left live. */
  lemma CopyThenDestroyReleasesEachOnce(h: Heap, target: EdgeData, source: EdgeData)
    requires SoleOwners(h, target, source)
    ensures CopyAssign(h, target, source).Success?
    ensures var (h1, t) := CopyAssign(h, target, source).value;
      && Destroy(h1, t).Success?
      && Destroy(Destroy(h1, t).value, source).Success?
      && Destroy(Destroy(h1, t).value, source).value.arrays == h.arrays - (Owned(target) + Owned(source))
      && Destroy(Destroy(h1, t).value, source).value.freed == h.freed + Owned(target) + Owned(source) + Owned(t)
  {
    CopyAssignKeepsSoleOwnership(h, target, source);
    var (h1, t) := CopyAssign(h, target, source).value;
    var h2 := Destroy(h1, t).value;
    assert h2.arrays.Keys == h.arrays.Keys - Owned(target);
    assert h2.arrays == h.arrays - Owned(target);
    assert h2.arrays - Owned(source) == h.arrays - (Owned(target) + Owned(source));
  }

  /** Nulling the source is what prevents a double free: had the move left
      the source's pointer in place, destroying the target and then the source
      would release the stolen array twice. */
  lemma MoveWithoutNullingDoubleFrees(h: Heap, target: EdgeData, source: EdgeData)
    requires SoleOwners(h, target, source)
    requires Owned(source) != {}
    ensures var (h1, t, s) := MoveAssign(h, target, source).value;
      var kept := s.(sampled := source.sampled);
      && Destroy(h1, t).Success?
      && Destroy(Destroy(h1, t).value, kept) == Failure(DoubleFree)
  {
    MoveAssignTransfersOwnership(h, target, source);
    var (h1, t, s) := MoveAssign(h, target, source).value;
    var h2 := Destroy(h1, t).value;
    assert source.sampled.id in h2.freed;
  }
}
