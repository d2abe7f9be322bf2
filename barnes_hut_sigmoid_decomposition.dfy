/** `BarnesHutSigmoidDecomposition`: the driver around the `GradientGrid`.
    `fit_transform` validates its input, randomly initialises the target,
    computes the original's column statistics, builds a grid over the
    two-dimensional target, and on every pass prepares the grid, moves each
    sample first by the far-away cells and then against every other sample
    of the leaf it now falls in, and finally applies the accumulated cell
    gradients. The far-away step and the gradient application are parameters
    of the model; the sibling step is modelled exactly. The source runs the
    samples of a pass in parallel over racing rows; the model runs them in
    order. */
module BarnesHutSigmoidDecomposition {
  import opened Common
  import opened Bits
  import opened Utils
  import opened Slices
  import opened GridIndex
  import opened MatrixStats
  import opened RandomInit
  import opened Grid
  import DecompositionTraits
  import BasicIterativeDecomposition

  const DEFAULT_DEPTH: nat := 3

  datatype BarnesHutSigmoidDecomposition = BarnesHutSigmoidDecomposition(
    decomposition: BasicIterativeDecomposition.BasicIterativeDecomposition,
    depth: nat)

  /** `new`: keeps the record and the depth, which defaults to 3. */
  function New(decomposition: BasicIterativeDecomposition.BasicIterativeDecomposition, depth: Option<nat>)
    : (model: BarnesHutSigmoidDecomposition)
    ensures model.decomposition == decomposition
    ensures depth.Some? ==> model.depth == depth.value
    ensures depth.None? ==> model.depth == DEFAULT_DEPTH
  {
    BarnesHutSigmoidDecomposition(decomposition, depth.UnwrapOr(DEFAULT_DEPTH))
  }

  /** An axis-aligned box: the minimum and maximum of each of the two
      target coordinates. */
  datatype Box = Box(lo0: real, hi0: real, lo1: real, hi1: real)

  predicate Ordered(b: Box)
  {
    b.lo0 <= b.hi0 && b.lo1 <= b.hi1
  }

  /** The bounding box `prepare` computes with `matrix_min_max`: the
      per-axis minimum and maximum over the target's rows. */
  function BoundingBox(t: seq<real>): (b: Box)
    requires |t| > 0 && |t| % 2 == 0
    ensures Ordered(b)
  {
    var rows := Chunks(t, 2);
    ChunksOfMultiple(t, 2);
    ColumnMinIsLeast(rows, 0);
    ColumnMinIsLeast(rows, 1);
    ColumnMaxIsGreatest(rows, 0);
    ColumnMaxIsGreatest(rows, 1);
    assert ColumnMin(rows, 0) <= rows[0][0] <= ColumnMax(rows, 0);
    assert ColumnMin(rows, 1) <= rows[0][1] <= ColumnMax(rows, 1);
    Box(ColumnMin(rows, 0), ColumnMax(rows, 0), ColumnMin(rows, 1), ColumnMax(rows, 1))
  }

  /** The leaf of the point (x, y) in a grid of the given depth spanning
      the box: the Morton code of its cell in the deepest layer. Points
      outside the box are clamped to its border cells. */
  function LeafOf(b: Box, epsilon: real, depth: nat, x: real, y: real): (leaf: nat)
    requires Ordered(b) && epsilon > 0.0
    ensures leaf < Pow4(depth)
  {
    var row := CellCoordinate(x, b.lo0, b.hi0, epsilon, depth);
    var col := CellCoordinate(y, b.lo1, b.hi1, epsilon, depth);
    InterleaveBound(row, col, depth);
    Interleave(row, col)
  }

  /** The leaf of every target row: the `index` that `prepare` builds. */
  function TargetLeafIds(t: seq<real>, epsilon: real, depth: nat): (ids: seq<nat>)
    requires |t| > 0 && |t| % 2 == 0 && epsilon > 0.0
    ensures |ids| == |t| / 2
    ensures forall i :: 0 <= i < |ids| ==> ids[i] < Pow4(depth)
  {
    var b := BoundingBox(t);
    seq(|t| / 2, i requires 0 <= i < |t| / 2 => LeafOf(b, epsilon, depth, t[2 * i], t[2 * i + 1]))
  }

  /** The grid's bounding box is b. */
  ghost predicate GridSpans(grid: GradientGrid, b: Box)
    reads grid
  {
    && |grid.minValues| == 2 && |grid.maxValues| == 2
    && grid.minValues[0] == b.lo0 && grid.maxValues[0] == b.hi0
    && grid.minValues[1] == b.lo1 && grid.maxValues[1] == b.hi1
  }

  /** A grid spanning b finds every point in the leaf `LeafOf` gives. */
  lemma GridLeaf(grid: GradientGrid, b: Box, x: real, y: real)
    requires grid.Valid() && grid.Bounded() && GridSpans(grid, b)
    ensures grid.RelativeCellIdOf(x, y, grid.depth) == LeafOf(b, grid.epsilon, grid.depth, x, y)
  {
    var c := grid.CellCoordinates(x, y, grid.depth);
    assert grid.RelativeCellIdOf(x, y, grid.depth) == Interleave(c.0, c.1);
  }

  /** The grid prepared from t has t's leaf index. */
  lemma PreparedIndex(grid: GradientGrid, t: seq<real>)
    requires grid.Valid() && grid.Bounded() && |t| > 0 && |t| % 2 == 0
    requires |Chunks(t, 2)| > 0 && forall j :: 0 <= j < 2 ==> HasColumn(Chunks(t, 2), j)
    requires forall j :: 0 <= j < 2 ==>
               grid.minValues[j] == ColumnMin(Chunks(t, 2), j) && grid.maxValues[j] == ColumnMax(Chunks(t, 2), j)
    requires |grid.index| == |t| / 2
    requires forall i :: 0 <= i < |grid.index| ==>
               grid.index[i] == grid.RelativeCellIdOf(t[2 * i], t[2 * i + 1], grid.depth)
    ensures GridSpans(grid, BoundingBox(t))
    ensures grid.index == TargetLeafIds(t, grid.epsilon, grid.depth)
  {
    var ids := TargetLeafIds(t, grid.epsilon, grid.depth);
    forall i | 0 <= i < |ids|
      ensures grid.index[i] == ids[i]
    {
      GridLeaf(grid, BoundingBox(t), t[2 * i], t[2 * i + 1]);
    }
  }

  /** The parts of a pass that work on the grid's cell averages and
      gradients, which the model does not compute: the new row of a sample
      after its far-away cells have moved it (given the target the pass
      started from, the sample, and its current row), and the target after
      the accumulated gradients have been propagated down and applied (given
      the target the pass started from and the target after the samples). */
  datatype GradientPhases = GradientPhases(
    farAway: (seq<real>, nat, seq<real>) -> seq<real>,
    applyGradient: (seq<real>, seq<real>) -> seq<real>)

  /** What a training run works with besides the target. `samples` is both
      the number of target rows and the number of original rows. */
  datatype Setting = Setting(
    original: seq<real>,
    originalDimension: nat,
    samples: nat,
    mean: seq<real>,
    variance: seq<real>,
    learningRate: real,
    epsilon: real,
    depth: nat,
    exp: real -> real,
    phases: GradientPhases)

  ghost predicate ValidSetting(s: Setting)
  {
    && s.originalDimension > 0
    && s.samples > 0
    && s.samples * s.originalDimension == |s.original|
    && s.epsilon > 0.0
    && (forall k :: 0 <= k < |s.variance| ==> s.variance[k] != 0.0)
    && (forall x :: s.exp(x) > 0.0)
    && (forall t, i, row :: |s.phases.farAway(t, i, row)| == 2)
    && (forall t, u :: |s.phases.applyGradient(t, u)| == |u|)
  }

  /** The target has one two-dimensional row per sample. */
  predicate Fits(t: seq<real>, s: Setting)
  {
    |t| == 2 * s.samples
  }

  /** sigmoid(target dot) - sigmoid(normalised original dot), scaled by the
      learning rate. */
  function Variation(targetDot: real, originalDot: real, s: Setting): real
    requires ValidSetting(s)
  {
    assert s.exp(-targetDot) > 0.0 && s.exp(-originalDot) > 0.0;
    (Sigmoid(targetDot, s.exp) - Sigmoid(originalDot, s.exp)) * s.learningRate
  }

  /** One coordinate of the sibling update: the left value l at p becomes
      l - r * v and the right value r at q becomes r - l * v, both from the
      values before the update. */
  function ElementUpdate(u: seq<real>, p: nat, q: nat, v: real): (r: seq<real>)
    requires p < |u| && q < |u| && p != q
    ensures |r| == |u|
  {
    u[p := Shear(u[p], u[q], v)][q := Shear(u[q], u[p], v)]
  }

  /** The sibling update of rows i and j with variation v, coordinate by
      coordinate. */
  function PairUpdate(u: seq<real>, i: nat, j: nat, v: real): (r: seq<real>)
    requires 2 * i + 2 <= |u| && 2 * j + 2 <= |u| && i != j
    ensures |r| == |u|
  {
    ElementUpdate(ElementUpdate(u, 2 * i, 2 * j, v), 2 * i + 1, 2 * j + 1, v)
  }

  /** The sibling update scales the pair's sum by 1 - v and its difference
      by 1 + v, coordinate by coordinate, and leaves every other row alone:
      for 0 < v < 1 both samples shrink towards each other's mirror image,
      and for a negative v the pair spreads apart. */
  lemma PairUpdateScales(u: seq<real>, i: nat, j: nat, v: real)
    requires 2 * i + 2 <= |u| && 2 * j + 2 <= |u| && i != j
    ensures var r := PairUpdate(u, i, j, v);
            && r[2 * i] + r[2 * j] == (1.0 - v) * (u[2 * i] + u[2 * j])
            && r[2 * i + 1] + r[2 * j + 1] == (1.0 - v) * (u[2 * i + 1] + u[2 * j + 1])
            && r[2 * i] - r[2 * j] == (1.0 + v) * (u[2 * i] - u[2 * j])
            && r[2 * i + 1] - r[2 * j + 1] == (1.0 + v) * (u[2 * i + 1] - u[2 * j + 1])
    ensures forall x :: 0 <= x < |u| && x / 2 != i && x / 2 != j ==> PairUpdate(u, i, j, v)[x] == u[x]
  {
  }

  /** The variation of sample i against its sibling j. */
  function SiblingVariation(u: seq<real>, s: Setting, i: nat, j: nat): real
    requires ValidSetting(s) && Fits(u, s) && i < s.samples && j < s.samples
  {
    var ow := s.originalDimension;
    RowInside(i, s.samples, 2);
    RowInside(j, s.samples, 2);
    RowInside(i, s.samples, ow);
    RowInside(j, s.samples, ow);
    Variation(Dot(Row(u, i, 2), Row(u, j, 2)),
              NormalDot(Row(s.original, i, ow), Row(s.original, j, ow), s.mean, s.variance), s)
  }

  /** Sample i against its sibling j. */
  function SiblingStep(u: seq<real>, s: Setting, i: nat, j: nat): (r: seq<real>)
    requires ValidSetting(s) && Fits(u, s) && i < s.samples && j < s.samples && i != j
    ensures |r| == |u|
  {
    PairUpdate(u, i, j, SiblingVariation(u, s, i, j))
  }

  /** The samples `js` of a bucket, in order, each met by sample i unless it
      is i itself. */
  function SiblingsFrom(u: seq<real>, s: Setting, i: nat, js: seq<nat>): (r: seq<real>)
    requires ValidSetting(s) && Fits(u, s) && i < s.samples
    requires forall k :: 0 <= k < |js| ==> js[k] < s.samples
    ensures |r| == |u|
    decreases |js|
  {
    if js == [] then u
    else SiblingsFrom(if js[0] == i then u else SiblingStep(u, s, i, js[0]), s, i, js[1..])
  }

  /** Meeting the samples js changes only row i and the rows of js. */
  lemma {:induction false} SiblingsFromFrame(u: seq<real>, s: Setting, i: nat, js: seq<nat>)
    requires ValidSetting(s) && Fits(u, s) && i < s.samples
    requires forall k :: 0 <= k < |js| ==> js[k] < s.samples
    ensures forall x :: 0 <= x < |u| && x / 2 != i && x / 2 !in js ==> SiblingsFrom(u, s, i, js)[x] == u[x]
    decreases |js|
  {
    if js != [] {
      var u1 := if js[0] == i then u else SiblingStep(u, s, i, js[0]);
      if js[0] != i {
        PairUpdateScales(u, i, js[0], SiblingVariation(u, s, i, js[0]));
      }
      SiblingsFromFrame(u1, s, i, js[1..]);
      forall x | 0 <= x < |u| && x / 2 != i && x / 2 !in js
        ensures SiblingsFrom(u, s, i, js)[x] == u[x]
      {
        assert x / 2 !in js[1..];
      }
    }
  }

  /** The far-away step of sample i: its row replaced by what its far-away
      cells make of it. */
  function FarAwayStep(t0: seq<real>, u: seq<real>, s: Setting, i: nat): (r: seq<real>)
    requires ValidSetting(s) && Fits(u, s) && i < s.samples
    ensures |r| == |u|
  {
    RowInside(i, s.samples, 2);
    var row := s.phases.farAway(t0, i, Row(u, i, 2));
    u[2 * i := row[0]][2 * i + 1 := row[1]]
  }

  /** The leaf sample i falls in after its far-away step, in the grid
      spanning the box of the pass that started from t0. */
  function MovedLeaf(t0: seq<real>, box: Box, u: seq<real>, s: Setting, i: nat): nat
    requires ValidSetting(s) && Ordered(box) && Fits(u, s) && i < s.samples
  {
    var w := FarAwayStep(t0, u, s, i);
    LeafOf(box, s.epsilon, s.depth, w[2 * i], w[2 * i + 1])
  }

  /** The step of sample i in the pass that started from t0, whose grid
      spans `box` and holds the samples in the leaves `ids`: the far-away
      step, then every other sample of the leaf it has moved to, in the
      order `prepare` pushed them into the leaf's bucket. */
  function SampleStep(t0: seq<real>, box: Box, ids: seq<nat>, u: seq<real>, s: Setting, i: nat): (r: seq<real>)
    requires ValidSetting(s) && Ordered(box) && Fits(u, s) && |ids| == s.samples && i < s.samples
    ensures |r| == |u|
  {
    SiblingsFrom(FarAwayStep(t0, u, s, i), s, i, Bucket(ids, MovedLeaf(t0, box, u, s, i)))
  }

  /** The step of sample i moves only sample i and the samples whose leaf,
      in the grid prepared at the start of the pass, is the one sample i has
      moved to. */
  lemma SampleStepFrame(t0: seq<real>, box: Box, ids: seq<nat>, u: seq<real>, s: Setting, i: nat)
    requires ValidSetting(s) && Ordered(box) && Fits(u, s) && |ids| == s.samples && i < s.samples
    ensures forall x :: 0 <= x < |u| && x / 2 != i && ids[x / 2] != MovedLeaf(t0, box, u, s, i) ==>
              SampleStep(t0, box, ids, u, s, i)[x] == u[x]
  {
    var leaf := MovedLeaf(t0, box, u, s, i);
    var w := FarAwayStep(t0, u, s, i);
    var r := SiblingsFrom(w, s, i, Bucket(ids, leaf));
    assert SampleStep(t0, box, ids, u, s, i) == r;
    BucketMembership(ids, leaf);
    SiblingsFromFrame(w, s, i, Bucket(ids, leaf));
    forall x | 0 <= x < |u| && x / 2 != i && ids[x / 2] != leaf
      ensures r[x] == u[x]
    {
      assert x / 2 !in Bucket(ids, leaf);
      assert x != 2 * i && x != 2 * i + 1;
    }
  }

  /** The steps 0, ..., n - 1 of `step`, in that order, applied to u. */
  function Iterate(step: (seq<real>, nat) -> seq<real>, u: seq<real>, n: nat): seq<real>
  {
    if n == 0 then u else step(Iterate(step, u, n - 1), n - 1)
  }

  /** The step of each sample in the pass that started from t0, whose grid
      spans `box` and holds the samples in the leaves `ids`. */
  function SampleSteps(t0: seq<real>, box: Box, ids: seq<nat>, s: Setting): (seq<real>, nat) -> seq<real>
    requires ValidSetting(s) && Ordered(box) && |ids| == s.samples
  {
    (u: seq<real>, i: nat) => if Fits(u, s) && i < s.samples then SampleStep(t0, box, ids, u, s, i) else u
  }

  /** step is the step of each sample in the pass that started from t0. */
  ghost predicate IsSampleStep(step: (seq<real>, nat) -> seq<real>, t0: seq<real>, box: Box, ids: seq<nat>, s: Setting)
    requires ValidSetting(s) && Ordered(box) && |ids| == s.samples
  {
    forall u: seq<real>, i: nat {:trigger SampleStep(t0, box, ids, u, s, i)} ::
      Fits(u, s) && i < s.samples ==> step(u, i) == SampleStep(t0, box, ids, u, s, i)
  }

  /** The sample steps keep the target's shape. */
  lemma {:induction false} SampleStepsFit(t0: seq<real>, box: Box, ids: seq<nat>, u: seq<real>, s: Setting, n: nat)
    requires ValidSetting(s) && Ordered(box) && |ids| == s.samples && Fits(u, s)
    ensures Fits(Iterate(SampleSteps(t0, box, ids, s), u, n), s)
  {
    if n > 0 {
      SampleStepsFit(t0, box, ids, u, s, n - 1);
    }
  }

  /** One pass: every sample's step, then the gradient application. */
  function Pass(t: seq<real>, s: Setting): (r: seq<real>)
    requires ValidSetting(s) && Fits(t, s)
    ensures |r| == |t|
  {
    var box := BoundingBox(t);
    var ids := TargetLeafIds(t, s.epsilon, s.depth);
    SampleStepsFit(t, box, ids, t, s, s.samples);
    s.phases.applyGradient(t, Iterate(SampleSteps(t, box, ids, s), t, s.samples))
  }

  /** The passes of a training run, as steps for `Iterate`. */
  function Passes(s: Setting): (seq<real>, nat) -> seq<real>
    requires ValidSetting(s)
  {
    (u: seq<real>, k: nat) => if Fits(u, s) then Pass(u, s) else u
  }

  /** `iterations` passes, one after another. */
  function Train(t: seq<real>, s: Setting, iterations: nat): seq<real>
    requires ValidSetting(s) && Fits(t, s)
  {
    Iterate(Passes(s), t, iterations)
  }

  /** step is a pass on every target that fits. */
  ghost predicate IsPass(step: (seq<real>, nat) -> seq<real>, s: Setting)
    requires ValidSetting(s)
  {
    forall u: seq<real>, k: nat {:trigger Pass(u, s), step(u, k)} ::
      Fits(u, s) ==> step(u, k) == Pass(u, s)
  }

  lemma PassesArePasses(s: Setting)
    requires ValidSetting(s)
    ensures IsPass(Passes(s), s)
  {
  }

  /** The sibling update of rows i and j, coordinate by coordinate, with
      the left value saved before it is overwritten. */
  method UpdatePair(target: array<real>, i: nat, j: nat, v: real)
    requires 2 * i + 2 <= target.Length && 2 * j + 2 <= target.Length && i != j
    modifies target
    ensures target[..] == PairUpdate(old(target[..]), i, j, v)
  {
    ghost var u := target[..];
    for k := 0 to 2
      invariant target[..] == if k == 0 then u else if k == 1 then ElementUpdate(u, 2 * i, 2 * j, v)
                              else PairUpdate(u, i, j, v)
    {
      ghost var before := target[..];
      var left, right := 2 * i + k, 2 * j + k;
      var leftTmp := target[left];
      target[left] := target[left] - target[right] * v;
      assert target[left] == Shear(before[left], before[right], v);
      target[right] := target[right] - leftTmp * v;
      assert target[right] == Shear(before[right], before[left], v);
      assert forall x :: 0 <= x < target.Length && x != left && x != right ==> target[x] == before[x];
      assert target[..] == ElementUpdate(before, left, right, v);
    }
  }

  /** Sample i against its sibling j, in place. */
  method UpdateSibling(target: array<real>, s: Setting, i: nat, j: nat)
    requires ValidSetting(s) && Fits(target[..], s) && i < s.samples && j < s.samples && i != j
    modifies target
    ensures target[..] == SiblingStep(old(target[..]), s, i, j)
  {
    RowInside(i, s.samples, 2);
    RowInside(j, s.samples, 2);
    UpdatePair(target, i, j, SiblingVariation(target[..], s, i, j));
  }

  /** The far-away step of sample i, in place. */
  method UpdateFarAway(target: array<real>, t0: seq<real>, s: Setting, i: nat)
    requires ValidSetting(s) && Fits(target[..], s) && i < s.samples
    modifies target
    ensures target[..] == FarAwayStep(t0, old(target[..]), s, i)
  {
    var row := s.phases.farAway(t0, i, target[2 * i..2 * i + 2]);
    target[2 * i] := row[0];
    target[2 * i + 1] := row[1];
  }

  /** The facts `prepare` establishes that the sample loop relies on: the
      grid spans the box and buckets the samples by their leaves `ids`. */
  ghost predicate PreparedFrom(grid: GradientGrid, box: Box, ids: seq<nat>, s: Setting)
    reads grid, grid.reverseIndex
  {
    && grid.Valid() && grid.Bounded() && grid.depth == s.depth && grid.epsilon == s.epsilon
    && GridSpans(grid, box)
    && grid.index == ids && |ids| == s.samples
    && (forall c :: 0 <= c < grid.reverseIndex.Length ==> grid.reverseIndex[c] == Bucket(ids, c))
  }

  /** The step of sample i, in place: the far-away step, then the samples
      `iter_siblings` gives for its new position, skipping itself. */
  method UpdateSample(grid: GradientGrid, target: array<real>, t0: seq<real>, box: Box,
                      ghost ids: seq<nat>, ghost step: (seq<real>, nat) -> seq<real>, s: Setting, i: nat)
    requires ValidSetting(s) && Ordered(box) && Fits(target[..], s) && i < s.samples
    requires PreparedFrom(grid, box, ids, s) && IsSampleStep(step, t0, box, ids, s)
    modifies target
    ensures Fits(target[..], s)
    ensures target[..] == step(old(target[..]), i)
  {
    ghost var before := target[..];
    UpdateFarAway(target, t0, s, i);
    GridLeaf(grid, box, target[2 * i], target[2 * i + 1]);
    var siblings := grid.Siblings(target[2 * i], target[2 * i + 1]);
    assert siblings == Bucket(ids, MovedLeaf(t0, box, before, s, i));
    for k := 0 to |siblings|
      invariant Fits(target[..], s)
      invariant SiblingsFrom(target[..], s, i, siblings[k..]) == SampleStep(t0, box, ids, before, s, i)
    {
      assert siblings[k..][1..] == siblings[k + 1..];
      if siblings[k] != i {
        UpdateSibling(target, s, i, siblings[k]);
      }
    }
    assert target[..] == SampleStep(t0, box, ids, before, s, i);
  }

  /** The sample loop of one pass over a grid that spans `box` and buckets
      the samples by their leaves `ids`. */
  method SamplePhase(grid: GradientGrid, target: array<real>, t0: seq<real>, box: Box,
                     ghost ids: seq<nat>, ghost step: (seq<real>, nat) -> seq<real>, s: Setting)
    requires ValidSetting(s) && Ordered(box) && Fits(target[..], s)
    requires PreparedFrom(grid, box, ids, s) && IsSampleStep(step, t0, box, ids, s)
    modifies target
    ensures target[..] == Iterate(step, old(target[..]), s.samples)
  {
    ghost var u := target[..];
    for i := 0 to s.samples
      invariant Fits(target[..], s)
      invariant target[..] == Iterate(step, u, i)
    {
      UpdateSample(grid, target, t0, box, ids, step, s, i);
    }
  }

  /** One pass, in place: prepare the grid from the current target, run
      the sample loop, and apply the gradients. */
  method TrainingPass(grid: GradientGrid, target: array<real>, original: seq<real>, s: Setting,
                      ghost step: (seq<real>, nat) -> seq<real>, ghost pass: nat)
    requires ValidSetting(s) && Fits(target[..], s) && original == s.original && IsPass(step, s)
    requires grid.Valid() && grid.depth == s.depth && grid.epsilon == s.epsilon && grid.depth >= 1
    requires grid.originalDimension == s.originalDimension
    requires target != grid.gradients
    modifies grid, grid.gradients, grid.populations, grid.reverseIndex, target
    ensures grid.Valid() && grid.depth == s.depth && grid.epsilon == s.epsilon
    ensures Fits(target[..], s) && target[..] == step(old(target[..]), pass)
  {
    var t0 := target[..];
    var prepared := grid.Prepare(t0, original);
    assert prepared.Ok?;
    PreparedIndex(grid, t0);
    ghost var sampleStep := SampleSteps(t0, BoundingBox(t0), grid.index, s);
    SamplePhase(grid, target, t0, BoundingBox(t0), grid.index, sampleStep, s);
    CopyInto(target, s.phases.applyGradient(t0, target[..]));
    assert target[..] == Pass(t0, s);
  }

  /** The precondition under which the model lets `fit_transform` train:
      a non-empty target of whole two-dimensional rows, as many original
      rows as target rows, no column of the original with zero variance
      (the standardisation divides by it), and a grid with a leaf layer.
      With fewer target rows than original rows the source panics; with
      more it may complete, which the model does not cover. */
  ghost predicate TrainableInput(model: BarnesHutSigmoidDecomposition, targetLength: nat,
                                 original: seq<real>, originalDimension: nat)
  {
    && targetLength > 0
    && targetLength % 2 == 0
    && WholeRows(original, originalDimension)
    && targetLength / 2 == |original| / originalDimension
    && (forall k :: 0 <= k < originalDimension ==> ColumnVariances(original, originalDimension)[k] != 0.0)
    && model.depth >= 1
  }

  /** The training setting `fit_transform` builds from its input. */
  function SettingOf(model: BarnesHutSigmoidDecomposition, targetLength: nat, original: seq<real>,
                     originalDimension: nat, epsilon: real, exp: real -> real, phases: GradientPhases)
    : (s: Setting)
    requires WholeRows(original, originalDimension)
  {
    Setting(original, originalDimension, targetLength / 2,
            ColumnMeans(original, originalDimension), ColumnVariances(original, originalDimension),
            DecompositionTraits.GetLearningRate(model.decomposition), epsilon, model.depth, exp, phases)
  }

  /** `fit_transform`. A target length that is not a multiple of the target
      dimension, and then a target dimension other than 2, are rejected
      with the target untouched. The target is then randomly initialised,
      and the original's mean and variance are computed, whose errors are
      passed on with the target already overwritten. The source's second
      check of the original length cannot fail after them. Every pass
      prepares the grid, which fails only on an empty target, and then
      runs the sample loop and the gradient application.
      A zero target dimension or a zero original dimension makes the source
      panic (`%` by zero, `par_chunks(0)`), and a depth above 15 overflows
      the grid size once the grid is built, after the checks and the
      statistics have succeeded; a depth of 0 underflows the leaf layer's
      offset once training runs. A target with fewer rows than the original
      makes training index a target slice out of range; one with more rows
      panics only if a bucket sibling's id lies past the original's rows,
      and the model requires equal row counts for training (see
      `TrainableInput`). Hence the preconditions. `epsilon` is the target
      type's machine epsilon. */
  method FitTransform(model: BarnesHutSigmoidDecomposition, target: array<real>, targetDimension: nat,
                      original: seq<real>, originalDimension: nat, rng: Rng, epsilon: real,
                      exp: real -> real, phases: GradientPhases)
    returns (r: Result<()>)
    requires targetDimension > 0
    requires |original| > 0 ==> originalDimension > 0
    requires epsilon > 0.0
    requires (target.Length % targetDimension == 0 && targetDimension == 2 &&
              WholeRows(original, originalDimension)) ==> model.depth <= 15
    requires forall x :: exp(x) > 0.0
    requires forall t, i, row :: |phases.farAway(t, i, row)| == 2
    requires forall t, u :: |phases.applyGradient(t, u)| == |u|
    requires (target.Length > 0 && targetDimension == 2 && target.Length % 2 == 0 &&
              WholeRows(original, originalDimension) &&
              DecompositionTraits.GetIterations(model.decomposition) > 0) ==>
             TrainableInput(model, target.Length, original, originalDimension)
    modifies target
    ensures target.Length % targetDimension != 0 ==>
              r == Err(IncompatibleTargetLength(target.Length, targetDimension)) && target[..] == old(target[..])
    ensures target.Length % targetDimension == 0 && targetDimension != 2 ==>
              r == Err(UnsupportedTargetDimension) && target[..] == old(target[..])
    ensures var seed := DecompositionTraits.GetRandomState(model.decomposition);
            var iterations := DecompositionTraits.GetIterations(model.decomposition);
            var init := InitialWeights(rng, seed, target.Length);
            target.Length % targetDimension == 0 && targetDimension == 2 ==>
              (!WholeRows(original, originalDimension) ==>
                 r.Err? && target[..] == init &&
                 r.error == (if |original| == 0 then EmptyObject
                             else IncompatibleDimensionality(originalDimension, |original|))) &&
              (WholeRows(original, originalDimension) && iterations == 0 ==> r == Ok(()) && target[..] == init) &&
              (WholeRows(original, originalDimension) && iterations > 0 && target.Length == 0 ==>
                 r == Err(EmptyObject)) &&
              (WholeRows(original, originalDimension) && iterations > 0 && target.Length > 0 ==>
                 var s := SettingOf(model, target.Length, original, originalDimension, epsilon, exp, phases);
                 ValidSetting(s) && Fits(init, s) &&
                 r == Ok(()) && target[..] == Train(init, s, iterations))
  {
    if target.Length % targetDimension != 0 {
      return Err(IncompatibleTargetLength(target.Length, targetDimension));
    }
    if targetDimension != 2 {
      return Err(UnsupportedTargetDimension);
    }
    var seed := DecompositionTraits.GetRandomState(model.decomposition);
    RandomInit.RandomInit(target, rng, seed);
    var mean := MatrixMean(original, originalDimension);
    if mean.Err? {
      return Err(mean.error);
    }
    var variance := MatrixVar(original, originalDimension);
    // `matrix_var` fails exactly when `matrix_mean` does, and the source's
    // second check of the original length cannot fail after them.
    assert variance.Ok? && |original| % originalDimension == 0;
    var grid := new GradientGrid(model.depth, 2, originalDimension, epsilon);
    var iterations := DecompositionTraits.GetIterations(model.decomposition);
    if iterations == 0 {
      return Ok(());
    }
    if target.Length == 0 {
      r := grid.Prepare(target[..], original);
      return;
    }
    var s := Setting(original, originalDimension, target.Length / 2, mean.value, variance.value,
                     DecompositionTraits.GetLearningRate(model.decomposition), epsilon, model.depth, exp, phases);
    assert s == SettingOf(model, target.Length, original, originalDimension, epsilon, exp, phases);
    assert ValidSetting(s);
    Training(grid, target, original, s, iterations);
    r := Ok(());
  }

  /** The training of `fit_transform`: `iterations` passes in place. */
  method Training(grid: GradientGrid, target: array<real>, original: seq<real>, s: Setting, iterations: nat)
    requires ValidSetting(s) && Fits(target[..], s) && original == s.original
    requires grid.Valid() && grid.depth == s.depth && grid.epsilon == s.epsilon && grid.depth >= 1
    requires grid.originalDimension == s.originalDimension
    requires target != grid.gradients
    modifies grid, grid.gradients, grid.populations, grid.reverseIndex, target
    ensures target[..] == Train(old(target[..]), s, iterations)
  {
    PassesArePasses(s);
    TrainingPasses(grid, target, original, s, Passes(s), iterations);
  }

  /** The pass loop of `fit_transform`. */
  method TrainingPasses(grid: GradientGrid, target: array<real>, original: seq<real>, s: Setting,
                        ghost step: (seq<real>, nat) -> seq<real>, iterations: nat)
    requires ValidSetting(s) && Fits(target[..], s) && original == s.original && IsPass(step, s)
    requires grid.Valid() && grid.depth == s.depth && grid.epsilon == s.epsilon && grid.depth >= 1
    requires grid.originalDimension == s.originalDimension
    requires target != grid.gradients
    modifies grid, grid.gradients, grid.populations, grid.reverseIndex, target
    ensures target[..] == Iterate(step, old(target[..]), iterations)
  {
    ghost var t0 := target[..];
    for pass := 0 to iterations
      invariant grid.Valid() && grid.depth == s.depth && grid.epsilon == s.epsilon
      invariant Fits(target[..], s)
      invariant target[..] == Iterate(step, t0, pass)
    {
      TrainingPass(grid, target, original, s, step, pass);
    }
  }

  /** Writes the gradient application's result back into the target. */
  method CopyInto(target: array<real>, values: seq<real>)
    requires |values| == target.Length
    modifies target
    ensures target[..] == values
  {
    for i := 0 to target.Length
      invariant forall k :: 0 <= k < i ==> target[k] == values[k]
    {
      target[i] := values[i];
    }
  }
}
