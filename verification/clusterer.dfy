/**
 * Per-node and per-hyperedge data of the label-propagation clusterer, with
 * the ownership discipline of a hyperedge's label sample.
 *
 * A hyperedge's `sampled` pointer is either null, a view into the edge's own
 * `incident_labels` storage (small edges), or an array obtained from `new[]`
 * that the edge owns. The heap below records which `new[]` arrays are live and
 * which were released, so that every release can be checked: a release of a
 * freed array is a double free, a release of anything that did not come from
 * `new[]` (such as a view) is an invalid free.
 */
module Clusterer {
  import opened Wrappers

  /** Labels are 32-bit unsigned in the source. */
  type Label = x: int | 0 <= x < 0x1_0000_0000

  /** One sample entry: a label seen among the pins and the pin's block. */
  datatype LabelBlock = LabelBlock(pinLabel: Label, block: int)

  /** Clusterer data of a node: its label and the positions of its entries in
      the incident-label lists of its hyperedges. */
  datatype NodeData = NodeData(nodeLabel: Label, locationIncidentEdgesIncidentLabels: seq<int>)

  /** A default-constructed node carries label 0 and no recorded positions. */
  function DefaultNodeData(): (n: NodeData)
    ensures n.nodeLabel == 0 && |n.locationIncidentEdgesIncidentLabels| == 0
  {
    NodeData(0, [])
  }

  /** Where a hyperedge's `sampled` pointer points. `LabelsData(s)` is the
      `data()` pointer of the label vector whose storage is named `s`. */
  datatype Pointer = Null | SampleArray(id: nat) | LabelsData(store: nat)

  /** What went wrong when releasing a pointer with `delete[]`. */
  datatype Fault = DoubleFree | InvalidFree

  /** Live `new[]` arrays with their contents, the ids of released arrays, and
      the next unused name (array ids and label-vector storages share it). */
  datatype Heap = Heap(arrays: map<nat, seq<LabelBlock>>, freed: set<nat>, next: nat)
  {
    /** Every name in use was handed out before `next`; nothing is both live and released. */
    predicate Valid()
    {
      && (forall id <- arrays :: id < next)
      && (forall id <- freed :: id < next)
      && arrays.Keys !! freed
    }
  }

  /** The contents of `new std::pair<Label, PartitionID>[n]`: `n` value-initialised pairs. */
  function Zeroed(n: nat): (s: seq<LabelBlock>)
    ensures |s| == n && forall i :: 0 <= i < n ==> s[i] == LabelBlock(0, 0)
  {
    seq(n, _ => LabelBlock(0, 0))
  }

  /** `new[]` of `n` entries: a name never used before, now live. */
  function Allocate(h: Heap, n: nat): (r: (Heap, nat))
    ensures h.Valid() ==> r.0.Valid() && r.1 !in h.arrays && r.1 !in h.freed
    ensures r.0.arrays == h.arrays[r.1 := Zeroed(n)] && r.0.freed == h.freed && r.0.next > r.1
  {
    (h.(arrays := h.arrays[h.next := Zeroed(n)], next := h.next + 1), h.next)
  }

  /** A fresh name for a new, empty label-vector storage. */
  function FreshStore(h: Heap): (r: (Heap, nat))
    ensures h.Valid() ==> r.0.Valid() && r.1 !in h.arrays && r.1 !in h.freed
    ensures r.0.arrays == h.arrays && r.0.freed == h.freed && r.1 < r.0.next && h.next <= r.0.next
  {
    (h.(next := h.next + 1), h.next)
  }

  /** `delete[] p`: releases a live `new[]` array; a null pointer is a no-op. */
  function DeleteArray(h: Heap, p: Pointer): (r: Result<Heap, Fault>)
    ensures p.Null? ==> r == Success(h)
    ensures p.SampleArray? && p.id in h.arrays ==> r == Success(Release(h, {p.id}))
    ensures p.SampleArray? && p.id in h.freed && p.id !in h.arrays ==> r == Failure(DoubleFree)
    ensures p.LabelsData? ==> r == Failure(InvalidFree)
  {
    match p
    case Null => Success(h)
    case SampleArray(id) =>
      if id in h.arrays then Success(Release(h, {id}))
      else if id in h.freed then Failure(DoubleFree)
      else Failure(InvalidFree)
    case LabelsData(_) => Failure(InvalidFree)
  }

  /** The heap after the arrays `ids` were released. */
  function Release(h: Heap, ids: set<nat>): Heap
  {
    h.(arrays := h.arrays - ids, freed := h.freed + ids)
  }

  /** Clusterer data of a hyperedge. `labelsStore` names the storage behind
      `incidentLabels`; `countLabels` is the number of distinct labels. */
  datatype EdgeData = EdgeData(
    sampled: Pointer,
    location: seq<int>,
    incidentLabels: seq<LabelBlock>,
    labelsStore: nat,
    sampleSize: nat,
    smallEdge: bool,
    labelCountMap: map<Label, nat>,
    countLabels: nat)

  /** The `new[]` array the edge owns: the sample of a non-small edge, if any. */
  function Owned(e: EdgeData): set<nat>
  {
    if !e.smallEdge && e.sampled.SampleArray? then {e.sampled.id} else {}
  }

  /** A small edge's sample is null or a view into its own labels; a non-small
      edge's sample is null or an array. */
  predicate Consistent(e: EdgeData)
  {
    if e.smallEdge then e.sampled == Null || e.sampled == LabelsData(e.labelsStore)
    else !e.sampled.LabelsData?
  }

  /** The edge's owned array is live and its label storage is a name in use
      that is not an array. */
  predicate LiveIn(h: Heap, e: EdgeData)
  {
    Owned(e) <= h.arrays.Keys && e.labelsStore < h.next && e.labelsStore !in h.arrays && e.labelsStore !in h.freed
  }

  /** Two distinct edge objects, each consistent and live, owning disjoint arrays. */
  predicate SoleOwners(h: Heap, a: EdgeData, b: EdgeData)
  {
    && h.Valid()
    && Consistent(a) && Consistent(b)
    && LiveIn(h, a) && LiveIn(h, b)
    && Owned(a) !! Owned(b)
    && a.labelsStore != b.labelsStore
  }

  /** `EdgeData()`: no sample, size 0, not small, no labels. */
  function NewEdgeData(h: Heap): (r: (Heap, EdgeData))
    ensures var (h', e) := r;
      && e.sampled == Null && e.sampleSize == 0 && !e.smallEdge && e.countLabels == 0
      && e.location == [] && e.incidentLabels == [] && e.labelCountMap == map[]
      && Owned(e) == {} && Consistent(e)
      && (h.Valid() ==> h'.Valid() && LiveIn(h', e))
      && h'.arrays == h.arrays && h'.freed == h.freed
  {
    var (h', store) := FreshStore(h);
    (h', EdgeData(Null, [], [], store, 0, false, map[], 0))
  }

  /** `~EdgeData()`: releases the sample only when the edge is not small and
      the pointer is not null. The assignment operators begin with the same step. */
  function Destroy(h: Heap, e: EdgeData): (r: Result<Heap, Fault>)
    ensures e.smallEdge || e.sampled == Null ==> r == Success(h)
    ensures Consistent(e) && Owned(e) <= h.arrays.Keys ==> r == Success(Release(h, Owned(e)))
    ensures !e.smallEdge && e.sampled.SampleArray? && e.sampled.id in h.freed && h.Valid() ==> r == Failure(DoubleFree)
  {
    if !e.smallEdge && e.sampled != Null then DeleteArray(h, e.sampled)
    else
      assert h.arrays - {} == h.arrays && h.freed + {} == h.freed;
      Success(h)
  }

  /** Copy assignment `target = source`: releases the target's own sample
      (judged by the target's old `small_edge`), copies the labels, locations,
      size flag, sample size and label counts, then points a small target at
      its own labels and gives a non-small target a new, value-initialised
      array of `sample_size` entries. The sample contents and `count_labels`
      are not copied. */
  function CopyAssign(h: Heap, target: EdgeData, source: EdgeData): (r: Result<(Heap, EdgeData), Fault>)
    ensures Consistent(target) && Owned(target) <= h.arrays.Keys ==> r.Success?
    ensures r.Success? ==>
      var (h', e) := r.value;
      && e.incidentLabels == source.incidentLabels && e.location == source.location
      && e.smallEdge == source.smallEdge && e.sampleSize == source.sampleSize
      && e.labelCountMap == source.labelCountMap
      && e.countLabels == target.countLabels && e.labelsStore == target.labelsStore
      && (e.smallEdge ==> e.sampled == LabelsData(target.labelsStore))
      && (!e.smallEdge ==> e.sampled.SampleArray? && e.sampled.id in h'.arrays && h'.arrays[e.sampled.id] == Zeroed(source.sampleSize))
      && h'.arrays.Keys == h.arrays.Keys - Owned(target) + Owned(e)
      && h'.freed == h.freed + Owned(target)
      && (h.Valid() ==> h'.Valid() && Owned(e) !! h.arrays.Keys + h.freed)
      && (h.Valid() ==> forall id <- h.arrays.Keys - Owned(target) :: id in h'.arrays && h'.arrays[id] == h.arrays[id])
  {
    match Destroy(h, target)
    case Failure(f) => Failure(f)
    case Success(h1) =>
      var e := target.(incidentLabels := source.incidentLabels, location := source.location,
                       smallEdge := source.smallEdge, sampleSize := source.sampleSize,
                       labelCountMap := source.labelCountMap);
      if e.smallEdge then
        Success((h1, e.(sampled := LabelsData(e.labelsStore))))
      else
        var (h2, id) := Allocate(h1, e.sampleSize);
        Success((h2, e.(sampled := SampleArray(id))))
  }

  /** Move assignment `target = std::move(source)`: releases the target's own
      sample, moves the labels, locations and label counts, copies the size
      flag and sample size, takes over the source's `sampled` pointer and nulls
      the source's. The moved-from vectors and map are left empty (the source's
      label vector gets new, empty storage); `count_labels` is not transferred. */
  function MoveAssign(h: Heap, target: EdgeData, source: EdgeData): (r: Result<(Heap, EdgeData, EdgeData), Fault>)
    ensures Consistent(target) && Owned(target) <= h.arrays.Keys ==> r.Success?
    ensures r.Success? ==>
      var (h', e, s) := r.value;
      && e.incidentLabels == source.incidentLabels && e.location == source.location
      && e.smallEdge == source.smallEdge && e.sampleSize == source.sampleSize
      && e.labelCountMap == source.labelCountMap && e.labelsStore == source.labelsStore
      && e.sampled == source.sampled && e.countLabels == target.countLabels
      && s.sampled == Null && s.incidentLabels == [] && s.location == [] && s.labelCountMap == map[]
      && s.smallEdge == source.smallEdge && s.sampleSize == source.sampleSize
      && s.countLabels == source.countLabels
      && h'.arrays == h.arrays - Owned(target) && h'.freed == h.freed + Owned(target)
      && (h.Valid() ==> h'.Valid() && s.labelsStore !in h.arrays.Keys + h.freed && h.next <= s.labelsStore < h'.next)
  {
    match Destroy(h, target)
    case Failure(f) => Failure(f)
    case Success(h1) =>
      var e := target.(incidentLabels := source.incidentLabels, location := source.location,
                       smallEdge := source.smallEdge, sampleSize := source.sampleSize,
                       labelCountMap := source.labelCountMap, labelsStore := source.labelsStore,
                       sampled := source.sampled);
      var (h2, store) := FreshStore(h1);
      var s := source.(incidentLabels := [], location := [], labelCountMap := map[],
                       labelsStore := store, sampled := Null);
      Success((h2, e, s))
  }
}
