/** The index arithmetic of the Barnes-Hut `GradientGrid`: a quadtree of
    `depth` layers flattened into one array. Layer L (L >= 1) holds 4^L cells
    numbered in Morton order, and occupies the block of absolute ids that
    starts after the cells of layers 1 .. L-1. */
module GridIndex {
  import opened Bits

  /** `get_number_of_elements_before_layer`, which the source computes as
      `pdep(2^layer - 1, 0x5555…) - 1`; here it is defined by the recurrence
      that formula satisfies (see `ElementsBeforeLayerIsPdep`), which keeps
      proofs about layers cheap. Layer 0 gives -1, an unsigned underflow in
      the source. From layer 33 on, the mask's 32 even positions no longer
      hold every bit, so the model stops at 32. */
  function ElementsBeforeLayer(layer: nat): int
    requires layer <= 32
  {
    if layer == 0 then -1 else 4 * (ElementsBeforeLayer(layer - 1) + 1)
  }

  lemma {:induction false} ElementsBeforeLayerIsEvenBits(layer: nat)
    requires layer <= 32
    ensures ElementsBeforeLayer(layer) + 1 == EvenBits(layer)
  {
    if layer > 0 {
      ElementsBeforeLayerIsEvenBits(layer - 1);
    }
  }

  lemma {:induction false} SpreadOnesIsEvenBits(k: nat)
    ensures Spread(Pow2(k) - 1) == EvenBits(k)
  {
    if k > 0 {
      SpreadStep(Pow2(k) - 1);
      assert (Pow2(k) - 1) / 2 == Pow2(k - 1) - 1;
      SpreadOnesIsEvenBits(k - 1);
    }
  }

  /** The recurrence agrees with the source's formula on every layer up to
      32, including the underflow to -1 at layer 0. */
  lemma ElementsBeforeLayerIsPdep(layer: nat)
    requires layer <= 32
    ensures ElementsBeforeLayer(layer) == Pdep(Pow2(layer) - 1, EVEN_MASK) - 1
  {
    var ones := Pow2(layer) - 1;
    assert ones < Pow2(32) by { Pow2Monotone(layer, 32); }
    var deposited := Pdep(ones, EVEN_MASK);
    assert deposited == EvenBits(layer) by {
      PdepMasks(ones);
      SpreadOnesIsEvenBits(layer);
    }
    ElementsBeforeLayerIsEvenBits(layer);
  }

  /** Closed form: `before(L) = 4 + 16 + … + 4^(L-1) = (4^L - 1)/3 - 1`. */
  lemma {:induction false} ElementsBeforeLayerClosedForm(layer: nat)
    requires 1 <= layer <= 32
    ensures 3 * (ElementsBeforeLayer(layer) + 1) + 1 == Pow4(layer)
    ensures ElementsBeforeLayer(layer) >= 0
  {
    if layer > 1 {
      ElementsBeforeLayerClosedForm(layer - 1);
    }
  }

  /** Layer L occupies exactly 4^L consecutive ids, and every layer starts at
      a multiple of 4. */
  lemma LayerBlock(layer: nat)
    requires 1 <= layer <= 31
    ensures ElementsBeforeLayer(layer + 1) - ElementsBeforeLayer(layer) == Pow4(layer)
    ensures ElementsBeforeLayer(layer) % 4 == 0 && ElementsBeforeLayer(layer + 1) % 4 == 0
  {
    ElementsBeforeLayerClosedForm(layer);
    var k := ElementsBeforeLayer(layer - 1) + 1;
    assert ElementsBeforeLayer(layer) == 4 * k;
    assert ElementsBeforeLayer(layer + 1) == 4 * (4 * k + 1);
    MultipleOfFour(k);
    MultipleOfFour(4 * k + 1);
  }

  lemma MultipleOfFour(k: int)
    ensures (4 * k) % 4 == 0
  {
  }

  /** `ElementsBeforeLayer` never decreases from one layer to a later one. */
  lemma {:induction false} ElementsBeforeLayerMonotone(a: nat, b: nat)
    requires 1 <= a <= b <= 32
    ensures ElementsBeforeLayer(a) <= ElementsBeforeLayer(b)
    decreases b - a
  {
    if a < b {
      LayerBlock(a);
      ElementsBeforeLayerMonotone(a + 1, b);
    }
  }

  /** One coordinate of `get_cell_coordinates_unchecked`: the point's
      position between `lo` and `hi` scaled to the `2^layer` cells of a side,
      floored, capped at the last cell by `Float::min`, and saturated at zero
      by the float-to-usize cast. `eps` is the float type's machine epsilon. */
  function CellCoordinate(v: real, lo: real, hi: real, eps: real, layer: nat): (c: nat)
    requires eps > 0.0 && lo <= hi
    ensures c < Pow2(layer)
  {
    var side := Pow2(layer);
    var f := (side as real * ((v - lo) / (eps + hi - lo))).Floor;
    var capped := if f < side - 1 then f else side - 1;
    if capped < 0 then 0 else capped
  }

  lemma DivMonotone(a: real, b: real, d: real)
    requires d > 0.0 && a <= b
    ensures a / d <= b / d
  {
    assert b / d - a / d == (b - a) / d;
  }

  lemma DivBelowOne(a: real, d: real)
    requires d > 0.0 && a < d
    ensures a / d < 1.0
  {
    assert d / d == 1.0;
    assert d / d - a / d == (d - a) / d;
  }

  lemma MulMonotone(s: real, a: real, b: real)
    requires s >= 0.0 && a <= b
    ensures s * a <= s * b
  {
    assert s * b - s * a == s * (b - a);
  }

  lemma ScaledFraction(v: real, lo: real, hi: real, eps: real, side: nat)
    requires eps > 0.0 && lo <= v <= hi && side >= 1
    ensures 0.0 <= side as real * ((v - lo) / (eps + hi - lo)) < side as real
  {
    var d := eps + hi - lo;
    var q := (v - lo) / d;
    DivMonotone(0.0, v - lo, d);
    DivBelowOne(v - lo, d);
    MulMonotone(side as real, 0.0, q);
    assert side as real - side as real * q == side as real * (1.0 - q);
  }

  /** For a point inside the bounding box the cap and the saturation never
      apply: the coordinate is the plain floor of the scaled position. */
  lemma CellCoordinateInsideBox(v: real, lo: real, hi: real, eps: real, layer: nat)
    requires eps > 0.0 && lo <= v <= hi
    ensures CellCoordinate(v, lo, hi, eps, layer)
            == (Pow2(layer) as real * ((v - lo) / (eps + hi - lo))).Floor
  {
    ScaledFraction(v, lo, hi, eps, Pow2(layer));
  }

  lemma FloorMonotone(a: real, b: real)
    requires a <= b
    ensures a.Floor <= b.Floor
  {
  }

  /** Coordinates never decrease as the point moves up its axis. */
  lemma CellCoordinateMonotone(v1: real, v2: real, lo: real, hi: real, eps: real, layer: nat)
    requires eps > 0.0 && lo <= hi && v1 <= v2
    ensures CellCoordinate(v1, lo, hi, eps, layer) <= CellCoordinate(v2, lo, hi, eps, layer)
  {
    var d := eps + hi - lo;
    var s := Pow2(layer) as real;
    DivMonotone(v1 - lo, v2 - lo, d);
    MulMonotone(s, (v1 - lo) / d, (v2 - lo) / d);
    FloorMonotone(s * ((v1 - lo) / d), s * ((v2 - lo) / d));
  }

  /** `get_relative_cell_id_unchecked`:
      `pdep(row, 0xAAAA…) | pdep(column, 0x5555…)`. */
  function RelativeCellId(row: nat, col: nat): nat
  {
    BitOr(Pdep(row, ODD_MASK), Pdep(col, EVEN_MASK))
  }

  /** For coordinates of a layer-L grid the relative id is the Morton code
      of (row, column) and is one of the layer's 4^L cells. */
  lemma RelativeCellIdIsMorton(row: nat, col: nat, layer: nat)
    requires layer <= 32 && row < Pow2(layer) && col < Pow2(layer)
    ensures RelativeCellId(row, col) == Interleave(row, col)
    ensures RelativeCellId(row, col) < Pow4(layer)
  {
    Pow2Monotone(layer, 32);
    PdepMasks(row);
    PdepMasks(col);
    BitOrInterleave(row, col);
    InterleaveBound(row, col, layer);
  }

  /** The row is read back from the odd bits of the id, the column from the
      even bits. */
  lemma RelativeCellIdDecodes(row: nat, col: nat, layer: nat)
    requires layer <= 32 && row < Pow2(layer) && col < Pow2(layer)
    ensures Compact(RelativeCellId(row, col) / 2) == row
    ensures Compact(RelativeCellId(row, col)) == col
  {
    RelativeCellIdIsMorton(row, col, layer);
    DecodeInterleave(row, col);
  }

  /** Distinct cells of one layer get distinct relative ids. */
  lemma RelativeCellIdInjective(r1: nat, c1: nat, r2: nat, c2: nat, layer: nat)
    requires layer <= 32
    requires r1 < Pow2(layer) && c1 < Pow2(layer) && r2 < Pow2(layer) && c2 < Pow2(layer)
    requires (r1, c1) != (r2, c2)
    ensures RelativeCellId(r1, c1) != RelativeCellId(r2, c2)
  {
    RelativeCellIdDecodes(r1, c1, layer);
    RelativeCellIdDecodes(r2, c2, layer);
  }

  /** `get_absolute_cell_id_unchecked`: the layer's offset plus the
      relative id. */
  function AbsoluteCellId(layer: nat, row: nat, col: nat): int
    requires layer <= 32
  {
    ElementsBeforeLayer(layer) + RelativeCellId(row, col)
  }

  /** An absolute id of layer L lies in layer L's block of ids. */
  lemma AbsoluteCellIdInLayer(layer: nat, row: nat, col: nat)
    requires 1 <= layer <= 31 && row < Pow2(layer) && col < Pow2(layer)
    ensures ElementsBeforeLayer(layer) <= AbsoluteCellId(layer, row, col)
    ensures AbsoluteCellId(layer, row, col) < ElementsBeforeLayer(layer + 1)
  {
    RelativeCellIdIsMorton(row, col, layer);
    LayerBlock(layer);
  }

  /** `iter_child_cells`: the range `id*4 .. (id+1)*4`. */
  function ChildCells(id: nat): (children: seq<nat>)
    ensures |children| == 4
    ensures forall k :: 0 <= k < 4 ==> children[k] / 4 == id && children[k] % 4 == k
  {
    [4 * id, 4 * id + 1, 4 * id + 2, 4 * id + 3]
  }

  /** `Iterator::filter` over a sequence of ids. */
  function Filter(s: seq<nat>, keep: nat -> bool): (r: seq<nat>)
    ensures forall x :: x in r <==> x in s && keep(x)
  {
    if s == [] then []
    else (if keep(s[0]) then [s[0]] else []) + Filter(s[1..], keep)
  }

  /** `iter_siblings_cells` as written: the children of the parent that are
      EQUAL to `id`. */
  function SiblingCellsAsWritten(id: nat): seq<nat>
  {
    Filter(ChildCells(id / 4), sibling => sibling == id)
  }

  /** As written, the "siblings" of a cell are the cell itself. */
  lemma SiblingCellsAsWrittenIsSelf(id: nat)
    ensures SiblingCellsAsWritten(id) == [id]
  {
    var c := ChildCells(id / 4);
    assert c[id % 4] == id;
    var k := id % 4;
    assert forall j :: 0 <= j < 4 && j != k ==> c[j] != id;
    assert Filter(c[3..], sibling => sibling == id) == (if k == 3 then [id] else []);
    assert Filter(c[2..], sibling => sibling == id) == (if k >= 2 then [id] else []);
    assert Filter(c[1..], sibling => sibling == id) == (if k >= 1 then [id] else []);
  }

  lemma SiblingCellsAsWrittenAreSelves()
    ensures forall id: nat :: SiblingCellsAsWritten(id) == [id]
  {
    forall id: nat
      ensures SiblingCellsAsWritten(id) == [id]
    {
      SiblingCellsAsWrittenIsSelf(id);
    }
  }

  /** `iter_siblings_cells` as evidently intended: the other three children
      of the parent. */
  function SiblingCells(id: nat): seq<nat>
  {
    Filter(ChildCells(id / 4), sibling => sibling != id)
  }

  /** The corrected siblings are three distinct ids other than `id` with the
      same parent, and together with `id` they are all of the parent's children. */
  lemma SiblingCellsAreTheOtherChildren(id: nat)
    ensures |SiblingCells(id)| == 3
    ensures id !in SiblingCells(id)
    ensures forall s :: s in SiblingCells(id) ==> s / 4 == id / 4
    ensures forall c :: c in ChildCells(id / 4) <==> c in SiblingCells(id) || c == id
  {
    var c := ChildCells(id / 4);
    var k := id % 4;
    assert c[k] == id;
    assert forall j :: 0 <= j < 4 && j != k ==> c[j] != id;
    assert |Filter(c[3..], sibling => sibling != id)| == (if k == 3 then 0 else 1);
    assert |Filter(c[2..], sibling => sibling != id)| == (if k >= 2 then 1 else 2);
    assert |Filter(c[1..], sibling => sibling != id)| == (if k >= 1 then 2 else 3);
  }

  /** A corrected sibling is another cell with the same parent. */
  lemma SiblingOfCell(id: nat, s: nat)
    requires s in SiblingCells(id)
    ensures s != id && s / 4 == id / 4
  {
    SiblingCellsAreTheOtherChildren(id);
  }

  /** Because every layer starts at a multiple of 4, a cell with the same
      parent as a cell of layer L is a cell of layer L. */
  lemma SameParentSameLayer(id: nat, s: nat, layer: nat)
    requires 1 <= layer <= 31
    requires ElementsBeforeLayer(layer) <= id < ElementsBeforeLayer(layer + 1)
    requires s / 4 == id / 4
    ensures ElementsBeforeLayer(layer) <= s < ElementsBeforeLayer(layer + 1)
  {
    LayerBlock(layer);
    SameBlockOfFour(ElementsBeforeLayer(layer), ElementsBeforeLayer(layer + 1), id, s);
  }

  /** Ids with the same quotient by 4 lie in the same block between two
      multiples of 4. */
  lemma SameBlockOfFour(lo: int, hi: int, id: nat, s: nat)
    requires lo % 4 == 0 && hi % 4 == 0 && lo <= id < hi && s / 4 == id / 4
    ensures lo <= s < hi
  {
  }

  /** The siblings of a cell of layer L are cells of layer L. */
  lemma SiblingCellsStayInLayer(id: nat, layer: nat)
    requires 1 <= layer <= 31
    requires ElementsBeforeLayer(layer) <= id < ElementsBeforeLayer(layer + 1)
    ensures forall s :: s in SiblingCells(id) ==>
              ElementsBeforeLayer(layer) <= s < ElementsBeforeLayer(layer + 1)
  {
    forall s | s in SiblingCells(id)
      ensures ElementsBeforeLayer(layer) <= s < ElementsBeforeLayer(layer + 1)
    {
      SiblingOfCell(id, s);
      SameParentSameLayer(id, s, layer);
    }
  }

  /** Another cell with the same parent as a cell of layer L' is no cell of
      layer L other than that cell itself: within L' it differs from the
      cell, and the layers' blocks of ids do not overlap. */
  lemma SameParentIsNoOtherLayerCell(own: nat, l': nat, other: nat, l: nat, s: nat)
    requires 1 <= l <= 31 && 1 <= l' <= 31
    requires ElementsBeforeLayer(l') <= own < ElementsBeforeLayer(l' + 1)
    requires ElementsBeforeLayer(l) <= other < ElementsBeforeLayer(l + 1)
    requires l == l' ==> other == own
    requires s != own && s / 4 == own / 4
    ensures s != other
  {
    SameParentSameLayer(own, s, l');
    if l < l' {
      ElementsBeforeLayerMonotone(l + 1, l');
    } else if l' < l {
      ElementsBeforeLayerMonotone(l' + 1, l);
    }
  }

  /** Moving one layer down doubles the grid side: a point's coordinate at
      layer L + 1, halved, is its coordinate at layer L. */
  lemma CellCoordinateHalves(v: real, lo: real, hi: real, eps: real, layer: nat)
    requires eps > 0.0 && lo <= hi
    ensures CellCoordinate(v, lo, hi, eps, layer + 1) / 2 == CellCoordinate(v, lo, hi, eps, layer)
  {
    var s := Pow2(layer);
    var q := (v - lo) / (eps + hi - lo);
    var x := s as real * q;
    assert Pow2(layer + 1) as real * q == 2.0 * x;
    FloorOfDouble(x);
  }

  lemma FloorOfDouble(x: real)
    ensures (2.0 * x).Floor / 2 == x.Floor
  {
    var n := x.Floor;
    assert 2 * n <= (2.0 * x).Floor <= 2 * n + 1;
  }

  /** Morton codes of a cell's four quadrants are 4 times the cell's code
      plus 0, 1, 2, 3. */
  lemma InterleaveQuadrant(row: nat, col: nat, dr: nat, dc: nat)
    requires dr < 2 && dc < 2
    ensures Interleave(2 * row + dr, 2 * col + dc) == 4 * Interleave(row, col) + 2 * dr + dc
  {
    SpreadStep(2 * row + dr);
    SpreadStep(2 * col + dc);
    assert (2 * row + dr) / 2 == row && (2 * row + dr) % 2 == dr;
    assert (2 * col + dc) / 2 == col && (2 * col + dc) % 2 == dc;
  }

  /** `iter_child_cells` as evidently intended: a cell's four quadrants in the
      next layer, which start at `(id + 1) * 4` because every layer's block
      starts 4 ids after 4 times the previous layer's start. */
  function ChildCellsInNextLayer(id: nat): (children: seq<nat>)
    ensures |children| == 4
  {
    ChildCells(id + 1)
  }

  /** The quadrant (dr, dc) of the cell (row, col) of layer L is child
      2 * dr + dc of the corrected range. */
  lemma QuadrantIsChild(layer: nat, row: nat, col: nat, dr: nat, dc: nat)
    requires 1 <= layer <= 30 && row < Pow2(layer) && col < Pow2(layer) && dr < 2 && dc < 2
    ensures AbsoluteCellId(layer, row, col) >= 0
    ensures AbsoluteCellId(layer + 1, 2 * row + dr, 2 * col + dc)
            == ChildCellsInNextLayer(AbsoluteCellId(layer, row, col) as nat)[2 * dr + dc]
  {
    ElementsBeforeLayerClosedForm(layer);
    RelativeCellIdIsMorton(row, col, layer);
    RelativeCellIdIsMorton(2 * row + dr, 2 * col + dc, layer + 1);
    InterleaveQuadrant(row, col, dr, dc);
  }

  /** As written, the range misses all four quadrants: it lies 4 ids too
      low, so for the first cell of a layer it lies inside the layer itself
      (cell 0 of layer 1 gets cells 0, 1, 2, 3 of layer 1). */
  lemma ChildCellsAsWrittenMissQuadrants(layer: nat, row: nat, col: nat, dr: nat, dc: nat)
    requires 1 <= layer <= 30 && row < Pow2(layer) && col < Pow2(layer) && dr < 2 && dc < 2
    ensures AbsoluteCellId(layer, row, col) >= 0
    ensures AbsoluteCellId(layer + 1, 2 * row + dr, 2 * col + dc) !in ChildCells(AbsoluteCellId(layer, row, col) as nat)
  {
    QuadrantIsChild(layer, row, col, dr, dc);
  }

  /** Cells whose coordinates halve to (row, col) are corrected children of
      the cell (row, col), and never children as written. */
  lemma CellsNest(layer: nat, row: nat, col: nat, row': nat, col': nat)
    requires 1 <= layer <= 30 && row < Pow2(layer) && col < Pow2(layer)
    requires row' / 2 == row && col' / 2 == col
    ensures AbsoluteCellId(layer, row, col) >= 0
    ensures AbsoluteCellId(layer + 1, row', col') in ChildCellsInNextLayer(AbsoluteCellId(layer, row, col) as nat)
    ensures AbsoluteCellId(layer + 1, row', col') !in ChildCells(AbsoluteCellId(layer, row, col) as nat)
  {
    var dr, dc := row' % 2, col' % 2;
    assert row' == 2 * row + dr && col' == 2 * col + dc;
    QuadrantIsChild(layer, row, col, dr, dc);
    ChildCellsAsWrittenMissQuadrants(layer, row, col, dr, dc);
    var child := AbsoluteCellId(layer + 1, row', col');
    assert child == ChildCellsInNextLayer(AbsoluteCellId(layer, row, col) as nat)[2 * dr + dc];
  }
}
