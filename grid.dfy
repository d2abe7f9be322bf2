/** The Barnes-Hut `GradientGrid`: a quadtree over the two-dimensional target
    space, flattened into arrays by layer. `new` sizes the arrays, `reset`
    clears them, and `prepare` bounds the target's bounding box, counts every
    sample into the leaf cell containing it, and records each sample's leaf
    (`index`) and each leaf's samples (`reverse_index`). The per-cell feature
    averages and their upward propagation are not part of this model. */
module Grid {
  import opened Common
  import opened Bits
  import opened GridIndex
  import opened MatrixStats

  /** The number of times `x` occurs in `s`. */
  function Count(s: seq<nat>, x: nat): nat
  {
    if |s| == 0 then 0 else Count(s[..|s| - 1], x) + (if s[|s| - 1] == x then 1 else 0)
  }

  /** Occurrence counts of 0, ..., n - 1 in `ids`. */
  function Histogram(ids: seq<nat>, n: nat): (h: seq<nat>)
    ensures |h| == n
  {
    seq(n, c requires 0 <= c => Count(ids, c))
  }

  /** The sum of a sequence of counts. */
  function Total(s: seq<nat>): nat
  {
    if |s| == 0 then 0 else Total(s[..|s| - 1]) + s[|s| - 1]
  }

  lemma {:induction false} TotalAppend(a: seq<nat>, b: seq<nat>)
    ensures Total(a + b) == Total(a) + Total(b)
    decreases |b|
  {
    if |b| == 0 {
      assert a + b == a;
    } else {
      var init := b[..|b| - 1];
      assert (a + b)[..|a + b| - 1] == a + init;
      assert (a + b)[|a + b| - 1] == b[|b| - 1];
      TotalAppend(a, init);
    }
  }

  lemma {:induction false} TotalOfZeros(n: nat)
    ensures Total(seq(n, _ => 0)) == 0
  {
    if n > 0 {
      assert seq(n, _ => 0)[..n - 1] == seq(n - 1, _ => 0);
      TotalOfZeros(n - 1);
    }
  }

  lemma CountAppend(s: seq<nat>, x: nat, c: nat)
    ensures Count(s + [x], c) == Count(s, c) + (if x == c then 1 else 0)
  {
    assert (s + [x])[..|s|] == s;
  }

  /** Adding one element that is below n adds one to the counts below n. */
  lemma {:induction false} HistogramAppend(s: seq<nat>, x: nat, n: nat)
    ensures Total(Histogram(s + [x], n)) == Total(Histogram(s, n)) + (if x < n then 1 else 0)
  {
    CountAppend(s, x, if n == 0 then 0 else n - 1);
    if n > 0 {
      assert Histogram(s + [x], n)[..n - 1] == Histogram(s + [x], n - 1);
      assert Histogram(s, n)[..n - 1] == Histogram(s, n - 1);
      HistogramAppend(s, x, n - 1);
    }
  }

  /** When every id is below n, the counts of 0, ..., n - 1 add up to the
      number of ids: every id is counted exactly once. */
  lemma {:induction false} HistogramTotal(ids: seq<nat>, n: nat)
    requires forall k :: 0 <= k < |ids| ==> ids[k] < n
    ensures Total(Histogram(ids, n)) == |ids|
  {
    if |ids| == 0 {
      assert Histogram(ids, n) == seq(n, _ => 0);
      TotalOfZeros(n);
    } else {
      var init := ids[..|ids| - 1];
      assert ids == init + [ids[|ids| - 1]];
      HistogramTotal(init, n);
      HistogramAppend(init, ids[|ids| - 1], n);
    }
  }

  /** The positions of `ids` holding `c`, in increasing order: the bucket
      `reverse_index[c]` that pushing every sample index into the bucket of
      its leaf produces. */
  function Bucket(ids: seq<nat>, c: nat): (b: seq<nat>)
    ensures forall k :: 0 <= k < |b| ==> b[k] < |ids|
  {
    if |ids| == 0 then []
    else Bucket(ids[..|ids| - 1], c) + (if ids[|ids| - 1] == c then [|ids| - 1] else [])
  }

  /** A sample is in the bucket of `c` exactly when its leaf is `c`. */
  lemma {:induction false} BucketMembership(ids: seq<nat>, c: nat)
    ensures forall i :: i in Bucket(ids, c) <==> 0 <= i < |ids| && ids[i] == c
  {
    if |ids| > 0 {
      var init := ids[..|ids| - 1];
      BucketMembership(init, c);
      assert forall i :: 0 <= i < |init| ==> init[i] == ids[i];
    }
  }

  /** Buckets list their samples in increasing order, without repetition. */
  lemma {:induction false} BucketIncreasing(ids: seq<nat>, c: nat)
    ensures forall a, b :: 0 <= a < b < |Bucket(ids, c)| ==> Bucket(ids, c)[a] < Bucket(ids, c)[b]
  {
    if |ids| > 0 {
      BucketIncreasing(ids[..|ids| - 1], c);
    }
  }

  /** Every bucket's size is the count of its leaf. */
  lemma {:induction false} BucketSize(ids: seq<nat>, c: nat)
    ensures |Bucket(ids, c)| == Count(ids, c)
  {
    if |ids| > 0 {
      BucketSize(ids[..|ids| - 1], c);
    }
  }

  /** The number of samples `prepare` counts: it zips the target's rows of
      two with the original's chunks, the last of which may be short. */
  function SampleCount(targetLength: nat, originalLength: nat, originalDimension: nat): (m: nat)
    requires originalDimension > 0
    ensures m <= targetLength / 2
    ensures m * originalDimension >= originalLength || m == targetLength / 2
  {
    var chunks := (originalLength + originalDimension - 1) / originalDimension;
    if chunks < targetLength / 2 then chunks else targetLength / 2
  }

  /** Zeros followed by the counts of 0, ..., n - 1 in ids, when every id
      is below n, add up to the number of ids. */
  lemma CountsTotal(counts: seq<nat>, before: nat, ids: seq<nat>, n: nat)
    requires |counts| == before + n
    requires forall i :: 0 <= i < |ids| ==> ids[i] < n
    requires forall j :: 0 <= j < before ==> counts[j] == 0
    requires forall c :: 0 <= c < n ==> counts[before + c] == Count(ids, c)
    ensures Total(counts) == |ids|
  {
    assert counts == seq(before, _ => 0) + Histogram(ids, n);
    TotalAppend(seq(before, _ => 0), Histogram(ids, n));
    TotalOfZeros(before);
    HistogramTotal(ids, n);
  }

  class GradientGrid {
    const depth: nat
    const targetDimension: nat
    const originalDimension: nat
    /** The target float type's machine epsilon, which widens the bounding
        box so that the maximum falls inside the last cell. */
    const epsilon: real
    const gradients: array<real>
    const populations: array<nat>
    const reverseIndex: array<seq<nat>>
    var index: seq<nat>
    var minValues: seq<real>
    var maxValues: seq<real>

    /** The sizes `new` establishes: one population per cell of layers
        1, ..., depth, one gradient coordinate per dimension and cell, and
        one bucket per leaf. */
    predicate Valid()
      reads this
    {
      && targetDimension == 2
      && depth <= 15
      && epsilon > 0.0
      && populations.Length == ElementsBeforeLayer(depth + 1) == ElementsBeforeLayer(depth) + Pow4(depth)
      && gradients.Length == targetDimension * populations.Length
      && reverseIndex.Length == Pow4(depth)
    }

    /** Zero gradients, zero populations, and empty buckets. */
    predicate Cleared()
      reads this, gradients, populations, reverseIndex
    {
      && (forall k :: 0 <= k < gradients.Length ==> gradients[k] == 0.0)
      && (forall k :: 0 <= k < populations.Length ==> populations[k] == 0)
      && (forall c :: 0 <= c < reverseIndex.Length ==> reverseIndex[c] == [])
    }

    /** `new`. A target dimension other than 2 is unimplemented, and a depth
        above 15 overflows `2_u32.pow(2 * depth)`, hence the preconditions.
        The grid of depth D has 4 + 16 + ... + 4^D cells. */
    constructor(depth: nat, targetDimension: nat, originalDimension: nat, epsilon: real)
      requires targetDimension == 2 && depth <= 15 && epsilon > 0.0
      ensures Valid() && Cleared()
      ensures this.depth == depth && this.targetDimension == targetDimension
      ensures this.originalDimension == originalDimension && this.epsilon == epsilon
      ensures 3 * populations.Length + 4 == Pow4(depth + 1)
      ensures fresh(gradients) && fresh(populations) && fresh(reverseIndex)
      ensures index == [] && minValues == [] && maxValues == []
    {
      ElementsBeforeLayerClosedForm(depth + 1);
      if depth > 0 {
        LayerBlock(depth);
      }
      var total: nat := ElementsBeforeLayer(depth + 1);
      this.depth := depth;
      this.targetDimension := targetDimension;
      this.originalDimension := originalDimension;
      this.epsilon := epsilon;
      gradients := new real[targetDimension * total](_ => 0.0);
      populations := new nat[total](_ => 0);
      reverseIndex := new seq<nat>[Pow4(depth)](_ => []);
      index := [];
      minValues := [];
      maxValues := [];
    }

    /** `reset`: clears gradients, populations and buckets in place; no length
        changes, and the leaf index and bounding box are kept. */
    method Reset()
      requires Valid()
      modifies gradients, populations, reverseIndex
      ensures Cleared()
    {
      for k := 0 to gradients.Length
        invariant forall i :: 0 <= i < k ==> gradients[i] == 0.0
      {
        gradients[k] := 0.0;
      }
      for k := 0 to populations.Length
        invariant forall i :: 0 <= i < gradients.Length ==> gradients[i] == 0.0
        invariant forall i :: 0 <= i < k ==> populations[i] == 0
      {
        populations[k] := 0;
      }
      for c := 0 to reverseIndex.Length
        invariant forall i :: 0 <= i < gradients.Length ==> gradients[i] == 0.0
        invariant forall i :: 0 <= i < populations.Length ==> populations[i] == 0
        invariant forall i :: 0 <= i < c ==> reverseIndex[i] == []
      {
        reverseIndex[c] := [];
      }
    }

    /** The bounding box is known: a minimum and a maximum per axis, in order. */
    predicate Bounded()
      reads this
    {
      |minValues| == 2 && |maxValues| == 2 && minValues[0] <= maxValues[0] && minValues[1] <= maxValues[1]
    }

    /** `get_cell_coordinates_unchecked`: the cell of the layer's grid the
        point falls in, clamped to the grid. */
    function CellCoordinates(x: real, y: real, layer: nat): (c: (nat, nat))
      reads this
      requires Valid() && Bounded()
      ensures c.0 < Pow2(layer) && c.1 < Pow2(layer)
    {
      (CellCoordinate(x, minValues[0], maxValues[0], epsilon, layer),
       CellCoordinate(y, minValues[1], maxValues[1], epsilon, layer))
    }

    /** `get_relative_cell_id_unchecked`: the Morton code of the point's
        cell, which numbers the layer's 4^layer cells. The source's
        `pdep(row, 0xAAAA…) | pdep(column, 0x5555…)` is that code
        (`GridIndex.RelativeCellIdIsMorton`). */
    function RelativeCellIdOf(x: real, y: real, layer: nat): (id: nat)
      reads this
      requires Valid() && Bounded() && layer <= 32
      ensures id < Pow4(layer)
    {
      var c := CellCoordinates(x, y, layer);
      InterleaveBound(c.0, c.1, layer);
      Interleave(c.0, c.1)
    }

    /** `get_absolute_cell_id_unchecked`: the id of the point's cell among
        all cells, which lies in the layer's block. */
    function AbsoluteCellIdOf(x: real, y: real, layer: nat): (id: nat)
      reads this
      requires Valid() && Bounded() && 1 <= layer <= 31
      ensures ElementsBeforeLayer(layer) <= id < ElementsBeforeLayer(layer + 1)
    {
      LayerBlock(layer);
      ElementsBeforeLayerClosedForm(layer);
      ElementsBeforeLayer(layer) + RelativeCellIdOf(x, y, layer)
    }

    /** The cells `siblings` gives for the point's cell at each of the layers
        layer, ..., depth - 1. */
    function LeafsFrom(x: real, y: real, layer: nat, siblings: nat -> seq<nat>): seq<nat>
      reads this
      requires Valid() && Bounded() && 1 <= layer
      decreases depth - layer
    {
      if layer >= depth then []
      else siblings(AbsoluteCellIdOf(x, y, layer)) + LeafsFrom(x, y, layer + 1, siblings)
    }

    /** `iter_far_away_leafs` as written, with `iter_siblings_cells` keeping
        the cells equal to the point's own. */
    function FarAwayLeafsAsWritten(x: real, y: real): seq<nat>
      reads this
      requires Valid() && Bounded()
    {
      LeafsFrom(x, y, 1, SiblingCellsAsWritten)
    }

    /** `iter_far_away_leafs` with the corrected `iter_siblings_cells`. */
    function FarAwayLeafs(x: real, y: real): seq<nat>
      reads this
      requires Valid() && Bounded()
    {
      LeafsFrom(x, y, 1, SiblingCells)
    }

    /** When `siblings` gives each cell alone, the cells it gives for the
        point number one per layer layer, ..., depth - 1 ... */
    lemma {:induction false} LeafsFromOwnCellCount(x: real, y: real, layer: nat, siblings: nat -> seq<nat>)
      requires Valid() && Bounded() && 1 <= layer
      requires forall id: nat :: |siblings(id)| == 1
      ensures |LeafsFrom(x, y, layer, siblings)| == (if layer < depth then depth - layer else 0)
      decreases depth - layer
    {
      if layer < depth {
        LeafsFromOwnCellCount(x, y, layer + 1, siblings);
      }
    }

    /** ... and the k-th of them is the point's own cell at layer layer + k. */
    lemma {:induction false} LeafsFromOwnCell(x: real, y: real, layer: nat, siblings: nat -> seq<nat>, k: nat)
      requires Valid() && Bounded() && 1 <= layer && layer + k < depth
      requires forall id: nat :: siblings(id) == [id]
      ensures |LeafsFrom(x, y, layer, siblings)| > k
      ensures LeafsFrom(x, y, layer, siblings)[k] == AbsoluteCellIdOf(x, y, layer + k)
      decreases k
    {
      var own := AbsoluteCellIdOf(x, y, layer);
      var rest := LeafsFrom(x, y, layer + 1, siblings);
      assert LeafsFrom(x, y, layer, siblings) == [own] + rest;
      if k > 0 {
        LeafsFromOwnCell(x, y, layer + 1, siblings, k - 1);
      }
    }

    /** When `siblings` gives each cell alone, the cells it gives for the
        point are its own cells, one per layer 1, ..., depth - 1. */
    lemma LeafsFromOwnCells(x: real, y: real, siblings: nat -> seq<nat>)
      requires Valid() && Bounded()
      requires forall id: nat :: siblings(id) == [id]
      ensures var ids := LeafsFrom(x, y, 1, siblings);
              |ids| == (if depth > 1 then depth - 1 else 0) &&
              forall k :: 0 <= k < |ids| ==> ids[k] == AbsoluteCellIdOf(x, y, k + 1)
    {
      LeafsFromOwnCellCount(x, y, 1, siblings);
      forall k | 0 <= k < |LeafsFrom(x, y, 1, siblings)|
        ensures LeafsFrom(x, y, 1, siblings)[k] == AbsoluteCellIdOf(x, y, k + 1)
      {
        LeafsFromOwnCell(x, y, 1, siblings, k);
      }
    }

    /** As written, the far-away cells of a point are its own cells, one per
        layer 1, ..., depth - 1. */
    lemma FarAwayLeafsAsWrittenAreOwnCells(x: real, y: real)
      requires Valid() && Bounded()
      ensures var ids := FarAwayLeafsAsWritten(x, y);
              |ids| == (if depth > 1 then depth - 1 else 0) &&
              forall k :: 0 <= k < |ids| ==> ids[k] == AbsoluteCellIdOf(x, y, k + 1)
    {
      SiblingCellsAsWrittenAreSelves();
      LeafsFromOwnCells(x, y, SiblingCellsAsWritten);
    }

    /** When `siblings` gives three cells for each cell, the cells it gives
        for the point number three per layer layer, ..., depth - 1 ... */
    lemma {:induction false} LeafsFromCount(x: real, y: real, layer: nat, siblings: nat -> seq<nat>)
      requires Valid() && Bounded() && 1 <= layer
      requires forall id: nat :: |siblings(id)| == 3
      ensures |LeafsFrom(x, y, layer, siblings)| == (if layer < depth then 3 * (depth - layer) else 0)
      decreases depth - layer
    {
      if layer < depth {
        LeafsFromCount(x, y, layer + 1, siblings);
      }
    }

    /** ... and each of them is given for the point's cell at one of those
        layers ... */
    lemma {:induction false} LeafsFromAreSiblings(x: real, y: real, layer: nat, s: nat, siblings: nat -> seq<nat>)
      requires Valid() && Bounded() && 1 <= layer
      requires s in LeafsFrom(x, y, layer, siblings)
      ensures exists l :: layer <= l < depth && s in siblings(AbsoluteCellIdOf(x, y, l))
      decreases depth - layer
    {
      var own := siblings(AbsoluteCellIdOf(x, y, layer));
      var rest := LeafsFrom(x, y, layer + 1, siblings);
      assert LeafsFrom(x, y, layer, siblings) == own + rest;
      if s !in own {
        LeafsFromAreSiblings(x, y, layer + 1, s, siblings);
      }
    }

    /** ... and, conversely, every cell given at those layers is among them. */
    lemma {:induction false} SiblingsAreInLeafsFrom(x: real, y: real, layer: nat, l: nat, s: nat, siblings: nat -> seq<nat>)
      requires Valid() && Bounded() && 1 <= layer <= l < depth
      requires s in siblings(AbsoluteCellIdOf(x, y, l))
      ensures s in LeafsFrom(x, y, layer, siblings)
      decreases l - layer
    {
      var own := siblings(AbsoluteCellIdOf(x, y, layer));
      var rest := LeafsFrom(x, y, layer + 1, siblings);
      assert LeafsFrom(x, y, layer, siblings) == own + rest;
      if layer < l {
        SiblingsAreInLeafsFrom(x, y, layer + 1, l, s, siblings);
      }
    }

    /** The corrected far-away cells are exactly the siblings of the point's
        cells at layers 1, ..., depth - 1: three per layer, and none of them
        is a cell holding the point. */
    lemma FarAwayLeafsAreSiblings(x: real, y: real)
      requires Valid() && Bounded()
      ensures |FarAwayLeafs(x, y)| == (if depth > 1 then 3 * (depth - 1) else 0)
      ensures forall l, s :: 1 <= l < depth && s in SiblingCells(AbsoluteCellIdOf(x, y, l)) ==>
                s in FarAwayLeafs(x, y)
      ensures forall s, l :: s in FarAwayLeafs(x, y) && 1 <= l < depth ==> s != AbsoluteCellIdOf(x, y, l)
    {
      forall id: nat
        ensures |SiblingCells(id)| == 3
      {
        SiblingCellsAreTheOtherChildren(id);
      }
      LeafsFromCount(x, y, 1, SiblingCells);
      forall l, s | 1 <= l < depth && s in SiblingCells(AbsoluteCellIdOf(x, y, l))
        ensures s in FarAwayLeafs(x, y)
      {
        SiblingsAreInLeafsFrom(x, y, 1, l, s, SiblingCells);
      }
      forall s, l | s in FarAwayLeafs(x, y) && 1 <= l < depth
        ensures s != AbsoluteCellIdOf(x, y, l)
      {
        LeafsFromAreSiblings(x, y, 1, s, SiblingCells);
        var l' :| 1 <= l' < depth && s in SiblingCells(AbsoluteCellIdOf(x, y, l'));
        SiblingIsNotOwnCell(x, y, s, l, l');
      }
    }

    /** A sibling of the point's cell at layer l' is not the point's cell at
        any layer l: at l' by construction, elsewhere because the layers'
        blocks of ids do not overlap. */
    lemma SiblingIsNotOwnCell(x: real, y: real, s: nat, l: nat, l': nat)
      requires Valid() && Bounded() && 1 <= l < depth && 1 <= l' < depth
      requires s in SiblingCells(AbsoluteCellIdOf(x, y, l'))
      ensures s != AbsoluteCellIdOf(x, y, l)
    {
      var own := AbsoluteCellIdOf(x, y, l');
      SiblingOfCell(own, s);
      SameParentIsNoOtherLayerCell(own, l', AbsoluteCellIdOf(x, y, l), l, s);
    }

    /** The point's cell at layer L + 1 is one of the corrected children of
        its cell at layer L, and none of the children `iter_child_cells`
        gives as written. */
    lemma PointCellsNest(x: real, y: real, layer: nat)
      requires Valid() && Bounded() && 1 <= layer <= 30
      ensures AbsoluteCellIdOf(x, y, layer + 1) in ChildCellsInNextLayer(AbsoluteCellIdOf(x, y, layer))
      ensures AbsoluteCellIdOf(x, y, layer + 1) !in ChildCells(AbsoluteCellIdOf(x, y, layer))
    {
      var c := CellCoordinates(x, y, layer);
      var c' := CellCoordinates(x, y, layer + 1);
      PointCellsAtNextLayer(x, y, layer);
      CellsNest(layer, c.0, c.1, c'.0, c'.1);
    }

    /** The point's cell coordinates at layer L + 1, halved, are those at L,
        and its absolute ids at both layers are those of its coordinates. */
    lemma PointCellsAtNextLayer(x: real, y: real, layer: nat)
      requires Valid() && Bounded() && 1 <= layer <= 30
      ensures var c, c' := CellCoordinates(x, y, layer), CellCoordinates(x, y, layer + 1);
              && c'.0 / 2 == c.0 && c'.1 / 2 == c.1
              && AbsoluteCellIdOf(x, y, layer) == AbsoluteCellId(layer, c.0, c.1)
              && AbsoluteCellIdOf(x, y, layer + 1) == AbsoluteCellId(layer + 1, c'.0, c'.1)
    {
      CellCoordinatesHalve(x, y, layer);
      AbsoluteCellIdOfCell(x, y, layer);
      AbsoluteCellIdOfCell(x, y, layer + 1);
    }

    /** The point's cell coordinates at layer L + 1, halved, are those at L. */
    lemma CellCoordinatesHalve(x: real, y: real, layer: nat)
      requires Valid() && Bounded()
      ensures CellCoordinates(x, y, layer + 1).0 / 2 == CellCoordinates(x, y, layer).0
      ensures CellCoordinates(x, y, layer + 1).1 / 2 == CellCoordinates(x, y, layer).1
    {
      CellCoordinateHalves(x, minValues[0], maxValues[0], epsilon, layer);
      CellCoordinateHalves(y, minValues[1], maxValues[1], epsilon, layer);
    }

    /** The point's absolute id is the absolute id of its cell coordinates. */
    lemma AbsoluteCellIdOfCell(x: real, y: real, layer: nat)
      requires Valid() && Bounded() && 1 <= layer <= 31
      ensures var c := CellCoordinates(x, y, layer);
              AbsoluteCellIdOf(x, y, layer) == AbsoluteCellId(layer, c.0, c.1)
    {
      var c := CellCoordinates(x, y, layer);
      RelativeCellIdIsMorton(c.0, c.1, layer);
    }

    /** `iter_siblings`: the samples in the point's leaf. */
    function Siblings(x: real, y: real): seq<nat>
      reads this, reverseIndex
      requires Valid() && Bounded()
    {
      reverseIndex[RelativeCellIdOf(x, y, depth)]
    }

    /** The relative leaf id of every target row, as the `map` over the
        target's rows in `prepare` computes it. */
    function LeafIds(target: seq<real>): (ids: seq<nat>)
      reads this
      requires Valid() && Bounded()
      ensures |ids| == |target| / 2
      ensures forall i :: 0 <= i < |ids| ==>
                2 * i + 1 < |target| && ids[i] == RelativeCellIdOf(target[2 * i], target[2 * i + 1], depth)
    {
      seq(|target| / 2, i requires 0 <= i < |target| / 2 && Valid() && Bounded() reads this => RelativeCellIdOf(target[2 * i], target[2 * i + 1], depth))
    }

    /** The populations after counting the first m samples of `ids` into
        their leaves: nothing outside the leaf layer, the number of those
        samples in each leaf, and m in all. */
    predicate LeafCounts(ids: seq<nat>, m: nat)
      reads this, populations
      requires Valid() && 1 <= depth && m <= |ids|
    {
      && (forall k :: 0 <= k < ElementsBeforeLayer(depth) ==> populations[k] == 0)
      && (forall c :: 0 <= c < Pow4(depth) ==> populations[ElementsBeforeLayer(depth) + c] == Count(ids[..m], c))
      && Total(populations[..]) == m
    }

    /** The leaf layer's populations after counting the first m samples of
        `ids`: the number of those samples in each leaf, and m in all. This
        is what `prepare` still shows at the leaves once the counts have
        been propagated to the layers above. */
    predicate LeafLayerCounts(ids: seq<nat>, m: nat)
      reads this, populations
      requires Valid() && 1 <= depth && m <= |ids|
    {
      && 0 <= ElementsBeforeLayer(depth)
      && (forall c :: 0 <= c < Pow4(depth) ==> populations[ElementsBeforeLayer(depth) + c] == Count(ids[..m], c))
      && Total(populations[ElementsBeforeLayer(depth)..]) == m
    }

    /** Counting into an otherwise empty grid leaves m samples in the leaf
        layer. */
    lemma {:induction false} LeafCountsAtLeafLayer(ids: seq<nat>, m: nat)
      requires Valid() && 1 <= depth && m <= |ids|
      requires LeafCounts(ids, m)
      ensures LeafLayerCounts(ids, m)
    {
      ElementsBeforeLayerClosedForm(depth);
      var before := ElementsBeforeLayer(depth);
      assert populations[..] == populations[..before] + populations[before..];
      assert populations[..before] == seq(before, _ => 0);
      TotalAppend(populations[..before], populations[before..]);
      TotalOfZeros(before);
    }

    /** The counting loop: one more sample in the leaf of each of the first
        m samples. */
    method CountSamples(ids: seq<nat>, m: nat)
      requires Valid() && 1 <= depth && m <= |ids|
      requires forall i :: 0 <= i < |ids| ==> ids[i] < Pow4(depth)
      requires forall k :: 0 <= k < populations.Length ==> populations[k] == 0
      modifies populations
      ensures LeafCounts(ids, m)
    {
      ElementsBeforeLayerClosedForm(depth);
      LayerBlock(depth);
      var before := ElementsBeforeLayer(depth);
      for k := 0 to m
        invariant forall j :: 0 <= j < before ==> populations[j] == 0
        invariant forall c :: 0 <= c < Pow4(depth) ==> populations[before + c] == Count(ids[..k], c)
      {
        var leaf := before + ids[k];
        populations[leaf] := populations[leaf] + 1;
        assert ids[..k + 1] == ids[..k] + [ids[k]];
        forall p | before <= p < before + Pow4(depth)
          ensures populations[p] == Count(ids[..k + 1], p - before)
        {
          CountAppend(ids[..k], ids[k], p - before);
        }
      }
      CountsTotal(populations[..], before, ids[..m], Pow4(depth));
    }

    /** The reverse-index loop: every sample, in order, pushed into its leaf's
        bucket. */
    method FillReverseIndex(ids: seq<nat>)
      requires Valid()
      requires forall i :: 0 <= i < |ids| ==> ids[i] < reverseIndex.Length
      requires forall c :: 0 <= c < reverseIndex.Length ==> reverseIndex[c] == []
      modifies reverseIndex
      ensures forall c :: 0 <= c < reverseIndex.Length ==> reverseIndex[c] == Bucket(ids, c)
    {
      for i := 0 to |ids|
        invariant forall c :: 0 <= c < reverseIndex.Length ==> reverseIndex[c] == Bucket(ids[..i], c)
      {
        reverseIndex[ids[i]] := reverseIndex[ids[i]] + [i];
        assert ids[..i + 1][..i] == ids[..i];
      }
      assert ids[..|ids|] == ids;
    }

    /** `prepare`. The grid is reset first; an empty target, or one of odd
        length, is then rejected by the bounding-box computation with the grid
        left cleared. Otherwise the bounding box is the per-axis minimum and
        maximum over the target's rows; each of the first m samples (m the
        number of target rows zipped with original chunks) adds one to its
        leaf's population; `reverse_index` holds every leaf's samples in
        increasing order; and `index` holds every sample's leaf. The averages
        and the upward propagation of the populations are not modelled, so
        only the leaf layer's populations are stated.
        A depth of 0 makes `get_number_of_elements_before_layer(0)`
        underflow, and an original dimension of 0 makes `par_chunks` panic,
        hence the preconditions. */
    method Prepare(target: seq<real>, original: seq<real>) returns (r: Result<()>)
      requires Valid()
      requires |target| > 0 && |target| % 2 == 0 ==> 1 <= depth && originalDimension > 0
      modifies this, gradients, populations, reverseIndex
      ensures Valid()
      ensures r.Err? <==> |target| == 0 || |target| % 2 == 1
      ensures r.Err? ==> r.error == (if |target| == 0 then EmptyObject else IncompatibleDimensionality(2, |target|))
      ensures r.Err? ==> Cleared() && index == old(index) &&
                         minValues == old(minValues) && maxValues == old(maxValues)
      ensures r.Ok? ==> Bounded() && |index| == |target| / 2 && 1 <= depth && originalDimension > 0
      ensures r.Ok? ==> |Chunks(target, 2)| > 0 && forall j :: 0 <= j < 2 ==> HasColumn(Chunks(target, 2), j)
      ensures r.Ok? ==> forall j :: 0 <= j < 2 ==>
                minValues[j] == ColumnMin(Chunks(target, 2), j) && maxValues[j] == ColumnMax(Chunks(target, 2), j)
      ensures r.Ok? ==> forall i :: 0 <= i < |index| ==>
                index[i] == RelativeCellIdOf(target[2 * i], target[2 * i + 1], depth)
      ensures r.Ok? ==> LeafLayerCounts(index, SampleCount(|target|, |original|, originalDimension))
      ensures r.Ok? ==> forall c :: 0 <= c < Pow4(depth) ==> reverseIndex[c] == Bucket(index, c)
      ensures r.Ok? ==> forall i :: 0 <= i < |index| ==> i in Siblings(target[2 * i], target[2 * i + 1])
      ensures forall k :: 0 <= k < gradients.Length ==> gradients[k] == 0.0
    {
      Reset();
      r := UpdateBounds(target);
      if r.Err? {
        return;
      }
      var ids := LeafIds(target);
      var m := SampleCount(|target|, |original|, originalDimension);
      CountSamples(ids, m);
      FillReverseIndex(ids);
      index := ids;
      SamplesInOwnLeaf(target);
      LeafCountsAtLeafLayer(ids, m);
    }

    /** The bounding-box step of `prepare`: the per-axis minimum and maximum
        over the target's rows, or the error of `matrix_min_max` with the
        old box kept. */
    method UpdateBounds(target: seq<real>) returns (r: Result<()>)
      requires Valid()
      modifies this
      ensures r.Err? <==> |target| == 0 || |target| % 2 == 1
      ensures r.Err? ==> r.error == (if |target| == 0 then EmptyObject else IncompatibleDimensionality(2, |target|))
      ensures r.Err? ==> minValues == old(minValues) && maxValues == old(maxValues)
      ensures index == old(index)
      ensures r.Ok? ==> Bounded()
      ensures r.Ok? ==> |Chunks(target, 2)| > 0 && forall j :: 0 <= j < 2 ==> HasColumn(Chunks(target, 2), j)
      ensures r.Ok? ==> forall j :: 0 <= j < 2 ==>
                minValues[j] == ColumnMin(Chunks(target, 2), j) && maxValues[j] == ColumnMax(Chunks(target, 2), j)
    {
      var bounds := MatrixMinMax(target, targetDimension);
      if bounds.Err? {
        return Err(bounds.error);
      }
      minValues, maxValues := bounds.value.0, bounds.value.1;
      var rows := Chunks(target, 2);
      assert minValues[0] <= rows[0][0] <= maxValues[0];
      assert minValues[1] <= rows[0][1] <= maxValues[1];
      r := Ok(());
    }

    /** Every sample is among the samples `iter_siblings` gives for its own
        position. */
    lemma SamplesInOwnLeaf(target: seq<real>)
      requires Valid() && Bounded() && |index| == |target| / 2
      requires forall i :: 0 <= i < |index| ==>
                 index[i] == RelativeCellIdOf(target[2 * i], target[2 * i + 1], depth)
      requires forall c :: 0 <= c < Pow4(depth) ==> reverseIndex[c] == Bucket(index, c)
      ensures forall i :: 0 <= i < |index| ==> i in Siblings(target[2 * i], target[2 * i + 1])
    {
      forall i | 0 <= i < |index|
        ensures i in Siblings(target[2 * i], target[2 * i + 1])
      {
        BucketMembership(index, index[i]);
      }
    }
  }
}
