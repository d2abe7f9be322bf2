# dimensional_reduction, modelled in Dafny

The Rust crate `dimensional_reduction` embeds high-dimensional samples
(the *original* matrix) into a low-dimensional *target* matrix. Both are
row-major flat slices of floats, one row per sample. Three models share a
configuration record and a set of column statistics:

- **`SigmoidDecomposition`** visits every pair of samples `(i, j)` with
  `i <= j` on each pass. It pulls their target rows together or apart by the
  learning-rate-scaled difference between the sigmoid of their target dot
  product and the sigmoid of their original dot product.
- **`SampledSigmoidDecomposition`** starts from random target weights and
  standardises the original by its column mean and variance. On each pass
  it advances a splitmix64 state and moves every sample against one
  pseudo-randomly drawn partner. A coordinate is overwritten only when its
  new value is finite.
- **`BarnesHutSigmoidDecomposition`** keeps a two-dimensional target and a
  `GradientGrid`: a quadtree flattened into arrays by layer.
  - Layer `L` holds `4^L` cells. A cell's id within its layer is the Morton
    code of its row and column, computed with the `pdep` bit-deposit
    instruction.
  - On each pass the grid is *prepared* from the current target. Preparing
    computes the bounding box, counts every sample into its leaf, and
    records each sample's leaf (`index`) and each leaf's samples
    (`reverse_index`).
  - Every sample is then moved, first by its far-away cells, then against
    every other sample of the leaf it has moved into. Finally the
    accumulated cell gradients are applied.

The model is organised as the crate is:

- `common.dfy`: `Option`, `Result`, the crate's error messages, and `u64`
  with wrapping arithmetic.
- `basic_decomposition.dfy`, `basic_iterative_decomposition.dfy`,
  `decomposition_traits.dfy`: the configuration records and their getters.
- `utils.dfy`: `dot`, `normal_dot` and `sigmoid`.
- `matrix_stats.dfy`: `matrix_sum`, `matrix_mean`, `matrix_min_max`,
  `matrix_var` and `matrix_std`. Each is a method with a loop, proved
  against column functions.
- `random_init.dfy`: `random_init` on an array.
- `bits.dfy`: `pdep`, bitwise OR and Morton codes.
- `grid_index.dfy`: the pure cell-id arithmetic of the grid.
- `grid.dfy`: the `GradientGrid` class. `new`, `reset` and `prepare` work on
  its arrays in place.
- `slices.dfy`: rows of a flat row-major slice.
- `sigmoid_decomposition.dfy`, `sampled_sigmoid_decomposition.dfy`,
  `barnes_hut_sigmoid_decomposition.dfy`: the three `fit_transform`s.

Each `fit_transform` is an imperative method over an `array<real>`. It is
proved to leave the target equal to a training function of its initial
contents, covering every error path as well. The properties of a pass
(which rows it touches, in which order, what it keeps) are proved about
those functions.

Floats are modelled as reals. Floating-point functions the model does not
define are parameters of the operations that call them:

- `exp` (inside the sigmoid);
- `ln`;
- `sqrt`;
- `is_finite`;
- the machine epsilon;
- the foreign generators `splitmix64` and `random_f32`.

## Model

| member | source | states |
|---|---|---|
| BasicDecomposition.New | src/basic_decomposition.rs:9-23 | fails exactly when the model name is empty, with the empty-name error; otherwise keeps the name and takes the given random state and verbosity, or 42 and true when absent |
| BasicDecomposition.NewDefaults | src/basic_decomposition.rs:18-22 | a named model built with no options has random state 42 and is verbose |
| BasicIterativeDecomposition.New | src/basic_iterative_decomposition.rs:11-23 | fails exactly when the basic record fails, with its error; otherwise wraps that record and takes the given iteration count and learning rate, or 100 and 0.01 when absent |
| BasicIterativeDecomposition.NewRejectsEmptyName | src/basic_iterative_decomposition.rs:19 | an empty model name is passed on as the empty-name error, whatever the other options |
| BasicIterativeDecomposition.NewDefaults | src/basic_iterative_decomposition.rs:18-22 | with no options a named model runs 100 passes at rate 0.01 with random state 42, verbosely |
| DecompositionTraits.StartIterations | src/traits.rs:130-132 | the pass numbers are exactly 0, 1, ..., iterations - 1, in order |
| DecompositionTraits.GettersAfterNew | src/traits.rs:80-108 | every getter of a freshly built model returns the value given to `new`, or its default |
| Utils.Dot | src/utils.rs:9-16 | the inner product of an empty input is 0 |
| Utils.DotIsSumOfPairwiseProducts | src/utils.rs:9-16 | `dot` is the sum of the products of the first min(\|left\|, \|right\|) pairs |
| Utils.DotSymmetric | src/utils.rs:9-16 | `dot` is symmetric |
| Utils.DotTruncates | src/utils.rs:9-16 | elements of the longer input beyond the shorter one are never read |
| Utils.Normalize | src/utils.rs:18-38 | the normalised input is as long as the shortest of value, mean and std, and coordinate i is (v_i - m_i) / s_i |
| Utils.NormalDotStep | src/utils.rs:18-38 | `normal_dot` is 0 once any of its four inputs is exhausted, otherwise the product of the first normalised coordinates plus `normal_dot` of the rests |
| Utils.NormalDotSymmetric | src/utils.rs:18-38 | `normal_dot` is symmetric in its first two inputs |
| Utils.NormalDotStandard | src/utils.rs:18-38 | with mean 0 and standard deviation 1 everywhere, `normal_dot` is `dot` |
| Utils.Sigmoid | src/utils.rs:40-45 | wherever the exponential is positive, the sigmoid lies strictly between 0 and 1 |
| RandomInit.InitialValueInRange | src/traits.rs:334-340 | every initial weight lies in [-1, 1) when `random_f32` lies in [0, 1) |
| RandomInit.InitialValuePeriodic | src/traits.rs:336 | the u64 index arithmetic wraps (as in a release build), so weights whose positions agree modulo 2^64 are equal |
| RandomInit.RandomInit | src/traits.rs:334-340 | every weight is overwritten, and weight i is a function of the random state and i alone |
| MatrixStats.Chunks | src/traits.rs:168-170 | `par_chunks` splits the slice into non-empty pieces of at most the row width that concatenate back to the slice |
| MatrixStats.ChunksOfMultiple | src/traits.rs:168-170 | a length that is a multiple of the width gives length / width full rows |
| MatrixStats.ColumnMinIsLeast | src/traits.rs:232-261 | the column minimum is at most every entry of the column and is attained by some row |
| MatrixStats.ColumnMaxIsGreatest | src/traits.rs:232-261 | the column maximum is at least every entry of the column and is attained by some row |
| MatrixStats.ColumnMeanBetweenMinAndMax | src/traits.rs:192-205 | a column's mean lies between its minimum and maximum |
| MatrixStats.ColumnSquaredDeviationsNonNegative | src/traits.rs:277-297 | the summed squared deviations of a column are non-negative |
| MatrixStats.ConstantColumnHasNoDeviation | src/traits.rs:277-297 | a column equal to the mean everywhere has zero summed squared deviation |
| MatrixStats.ColumnVariances | src/traits.rs:274-306 | one variance per column, each non-negative |
| MatrixStats.MatrixSum | src/traits.rs:156-180 | fails exactly when the length is not a multiple of the width, with that error; otherwise entry j is the sum of column j, and an empty slice gives zeros |
| MatrixStats.MatrixMean | src/traits.rs:192-205 | fails on an empty slice, then on a length that is not a multiple of the width; otherwise entry j is column j's sum divided by the number of rows |
| MatrixStats.ColumnExtremes | src/traits.rs:232-261 | the reduce yields each column's minimum and maximum |
| MatrixStats.MatrixMinMax | src/traits.rs:216-262 | fails on an empty slice, then on a length that is not a multiple of the width; otherwise gives each column's minimum and maximum, which bound every row |
| MatrixStats.DivideEach | src/traits.rs:200-202 | every entry is divided by the number of samples |
| MatrixStats.SquaredDeviations | src/traits.rs:277-297 | entry j is the sum over the rows of the squared deviation from mean j |
| MatrixStats.MatrixVar | src/traits.rs:274-306 | passes on the mean's errors; otherwise entry j is column j's summed squared deviation from its mean over the number of rows |
| MatrixStats.SqrtEach | src/traits.rs:321-323 | every entry is replaced by its non-negative square root |
| MatrixStats.MatrixStd | src/traits.rs:318-326 | passes on the variance's errors; otherwise entry j is non-negative and squares to column j's variance |
| Bits.EvenMaskIs32EvenBits | src/barnes_hut_sigmoid_decomposition.rs:126 | `0x5555…` is the 32 even bit positions of a word, and `0xAAAA…` is the odd ones |
| Bits.PdepEvenBits | src/barnes_hut_sigmoid_decomposition.rs:14-26 | depositing a k-bit number into k even positions spreads bit i to bit 2i |
| Bits.PdepMasks | src/barnes_hut_sigmoid_decomposition.rs:138-139 | `pdep` with the even mask spreads a 32-bit number over the even bits, and with the odd mask over the odd bits |
| Bits.BitOrInterleave | src/barnes_hut_sigmoid_decomposition.rs:138-139 | OR-ing the spread row and the spread column gives their Morton code |
| Bits.InterleaveBound | src/barnes_hut_sigmoid_decomposition.rs:138-139 | a k-bit row and column give a code below 4^k |
| Bits.CompactInterleave | src/barnes_hut_sigmoid_decomposition.rs:138-139 | the column is recovered from the even bits of the code |
| Bits.DecodeInterleave | src/barnes_hut_sigmoid_decomposition.rs:138-139 | the row and the column are both recovered from the code |
| Bits.SpreadOnes | src/barnes_hut_sigmoid_decomposition.rs:126 | spreading 2^k - 1 gives 1 + 4 + ... + 4^(k-1) |
| GridIndex.ElementsBeforeLayerIsPdep | src/barnes_hut_sigmoid_decomposition.rs:124-127 | the layer offset equals `pdep(2^L - 1, 0x5555…) - 1` for every layer up to 32, including -1 at layer 0 |
| GridIndex.ElementsBeforeLayerClosedForm | src/barnes_hut_sigmoid_decomposition.rs:124-127 | for L >= 1 the offset is (4^L - 1)/3 - 1, that is 4 + 16 + ... + 4^(L-1) |
| GridIndex.LayerBlock | src/barnes_hut_sigmoid_decomposition.rs:124-127 | layer L occupies exactly 4^L consecutive ids, and every layer starts at a multiple of 4 |
| GridIndex.ElementsBeforeLayerMonotone | src/barnes_hut_sigmoid_decomposition.rs:124-127 | later layers start no earlier |
| GridIndex.CellCoordinate | src/barnes_hut_sigmoid_decomposition.rs:106-122 | a coordinate is always a cell of the layer's grid, below 2^L |
| GridIndex.CellCoordinateInsideBox | src/barnes_hut_sigmoid_decomposition.rs:106-122 | inside the bounding box the cap and the cast never apply: the coordinate is the floor of the scaled position |
| GridIndex.CellCoordinateMonotone | src/barnes_hut_sigmoid_decomposition.rs:106-122 | coordinates never decrease as the point moves up its axis |
| GridIndex.RelativeCellIdIsMorton | src/barnes_hut_sigmoid_decomposition.rs:135-140 | the relative id of a cell of layer L is the Morton code of its row and column, below 4^L |
| GridIndex.RelativeCellIdDecodes | src/barnes_hut_sigmoid_decomposition.rs:135-140 | the row is in the odd bits of the id and the column in the even bits |
| GridIndex.RelativeCellIdInjective | src/barnes_hut_sigmoid_decomposition.rs:135-140 | distinct cells of a layer get distinct relative ids |
| GridIndex.AbsoluteCellIdInLayer | src/barnes_hut_sigmoid_decomposition.rs:148-151 | an absolute id of layer L lies in [before(L), before(L + 1)) |
| GridIndex.ChildCells | src/barnes_hut_sigmoid_decomposition.rs:154-156 | four ids, the k-th being 4·id + k |
| GridIndex.Filter | src/barnes_hut_sigmoid_decomposition.rs:160-161 | keeps exactly the ids that satisfy the predicate |
| GridIndex.SiblingCellsAsWrittenIsSelf | src/barnes_hut_sigmoid_decomposition.rs:159-162 | as written, the siblings of a cell are the cell alone |
| GridIndex.SiblingCellsAsWrittenAreSelves | src/barnes_hut_sigmoid_decomposition.rs:159-162 | the same for every cell at once |
| GridIndex.SiblingCellsAreTheOtherChildren | src/barnes_hut_sigmoid_decomposition.rs:159-162 | corrected: three ids other than the cell, with its parent, which together with the cell are all of the parent's children |
| GridIndex.SiblingOfCell | src/barnes_hut_sigmoid_decomposition.rs:159-162 | a corrected sibling differs from the cell and shares its parent |
| GridIndex.SameParentSameLayer | src/barnes_hut_sigmoid_decomposition.rs:124-127 | a cell with the same parent as a cell of layer L is in layer L |
| GridIndex.SiblingCellsStayInLayer | src/barnes_hut_sigmoid_decomposition.rs:159-162 | the corrected siblings of a cell of layer L are cells of layer L |
| GridIndex.SameParentIsNoOtherLayerCell | src/barnes_hut_sigmoid_decomposition.rs:165-169 | a sibling of the point's cell at one layer is not the point's cell at any layer |
| GridIndex.CellCoordinateHalves | src/barnes_hut_sigmoid_decomposition.rs:106-122 | a coordinate at layer L + 1, halved, is the coordinate at layer L |
| GridIndex.InterleaveQuadrant | src/barnes_hut_sigmoid_decomposition.rs:135-140 | the codes of a cell's four quadrants are 4 times its code plus 0 to 3 |
| GridIndex.QuadrantIsChild | src/barnes_hut_sigmoid_decomposition.rs:154-156 | corrected: quadrant (dr, dc) of a cell is child 2·dr + dc of the range starting at (id + 1)·4 |
| GridIndex.ChildCellsAsWrittenMissQuadrants | src/barnes_hut_sigmoid_decomposition.rs:154-156 | as written, no quadrant of a cell is in its child range |
| GridIndex.CellsNest | src/barnes_hut_sigmoid_decomposition.rs:154-156 | cells whose coordinates halve to a cell are its corrected children and never its children as written |
| Grid.HistogramTotal | src/barnes_hut_sigmoid_decomposition.rs:258-272 | when every id names a leaf, the leaf counts add up to the number of samples |
| Grid.Bucket | src/barnes_hut_sigmoid_decomposition.rs:432-442 | a bucket holds only sample indices |
| Grid.BucketMembership | src/barnes_hut_sigmoid_decomposition.rs:432-442 | a sample is in the bucket of c exactly when its leaf is c |
| Grid.BucketIncreasing | src/barnes_hut_sigmoid_decomposition.rs:432-442 | buckets are strictly increasing, so no sample is repeated |
| Grid.BucketSize | src/barnes_hut_sigmoid_decomposition.rs:432-442 | a leaf's bucket is as long as the leaf's count |
| Grid.SampleCount | src/barnes_hut_sigmoid_decomposition.rs:258-260 | zipping target rows with original chunks counts no more than the target rows, and stops only at the end of one of them |
| Grid.CountsTotal | src/barnes_hut_sigmoid_decomposition.rs:258-272 | zeros above the leaf layer plus the leaf counts add up to the number of samples |
| Grid.GradientGrid.constructor | src/barnes_hut_sigmoid_decomposition.rs:51-77 | sizes the arrays for layers 1 to depth (4 + 16 + ... + 4^depth cells, two gradient coordinates per cell, 4^depth buckets), all cleared |
| Grid.GradientGrid.Reset | src/barnes_hut_sigmoid_decomposition.rs:79-98 | zeroes gradients and populations and empties every bucket, changing no length |
| Grid.GradientGrid.CellCoordinates | src/barnes_hut_sigmoid_decomposition.rs:106-122 | the point's cell is a cell of the layer's grid |
| Grid.GradientGrid.RelativeCellIdOf | src/barnes_hut_sigmoid_decomposition.rs:135-140 | the point's relative id is one of the layer's 4^L ids |
| Grid.GradientGrid.AbsoluteCellIdOf | src/barnes_hut_sigmoid_decomposition.rs:148-151 | the point's absolute id lies in its layer's block, so at depth it is below the number of populations |
| Grid.GradientGrid.LeafsFromOwnCellCount | src/barnes_hut_sigmoid_decomposition.rs:165-169 | with a one-cell sibling function, the far-away walk gives one id per layer |
| Grid.GradientGrid.LeafsFromOwnCell | src/barnes_hut_sigmoid_decomposition.rs:165-169 | with the identity sibling function, the k-th id is the point's own cell k layers down |
| Grid.GradientGrid.LeafsFromOwnCells | src/barnes_hut_sigmoid_decomposition.rs:165-169 | with the identity sibling function, the walk from layer 1 gives the point's own cells of layers 1 to depth - 1 |
| Grid.GradientGrid.FarAwayLeafsAsWrittenAreOwnCells | src/barnes_hut_sigmoid_decomposition.rs:159-169 | as written, the far-away leaves of a point are its own cells, one per layer 1 to depth - 1 |
| Grid.GradientGrid.LeafsFromCount | src/barnes_hut_sigmoid_decomposition.rs:165-169 | with a three-cell sibling function, the walk gives three ids per layer |
| Grid.GradientGrid.LeafsFromAreSiblings | src/barnes_hut_sigmoid_decomposition.rs:165-169 | every id of the walk is a sibling of the point's cell at one of its layers |
| Grid.GradientGrid.SiblingsAreInLeafsFrom | src/barnes_hut_sigmoid_decomposition.rs:165-169 | every sibling of the point's cell at one of its layers is in the walk |
| Grid.GradientGrid.FarAwayLeafsAreSiblings | src/barnes_hut_sigmoid_decomposition.rs:159-169 | corrected: the far-away leaves are exactly the siblings of the point's cells, three per layer, none of them a cell holding the point |
| Grid.GradientGrid.SiblingIsNotOwnCell | src/barnes_hut_sigmoid_decomposition.rs:159-169 | a corrected sibling of the point's cell at one layer is not its cell at any layer |
| Grid.GradientGrid.PointCellsNest | src/barnes_hut_sigmoid_decomposition.rs:148-156 | the point's cell one layer down is a corrected child of its cell, and not a child as written |
| Grid.GradientGrid.PointCellsAtNextLayer | src/barnes_hut_sigmoid_decomposition.rs:106-151 | the point's coordinates one layer down halve to its coordinates, and its ids are those of its coordinates |
| Grid.GradientGrid.CellCoordinatesHalve | src/barnes_hut_sigmoid_decomposition.rs:106-122 | the point's coordinates one layer down halve to its coordinates |
| Grid.GradientGrid.AbsoluteCellIdOfCell | src/barnes_hut_sigmoid_decomposition.rs:148-151 | the point's absolute id is that of its cell coordinates |
| Grid.GradientGrid.LeafIds | src/barnes_hut_sigmoid_decomposition.rs:444-447 | one leaf per target row, the relative id at depth of that row's point |
| Grid.GradientGrid.CountSamples | src/barnes_hut_sigmoid_decomposition.rs:258-272 | every counted sample adds one to its leaf's population: nothing above the leaf layer, each leaf's count, the number of samples in all |
| Grid.GradientGrid.LeafCountsAtLeafLayer | src/barnes_hut_sigmoid_decomposition.rs:258-272 | after counting m samples into an otherwise empty grid, the leaf layer alone holds all m of them, each leaf its own samples' count |
| Grid.GradientGrid.FillReverseIndex | src/barnes_hut_sigmoid_decomposition.rs:432-442 | every leaf's bucket is exactly its samples, in increasing order |
| Grid.GradientGrid.Prepare | src/barnes_hut_sigmoid_decomposition.rs:241-450 | resets the grid; fails on an empty or odd-length target with the grid cleared; otherwise bounds the target, gives each leaf of the leaf layer the number of zipped samples in it (their total being the number of zipped samples), and makes `index` and `reverse_index` inverse to each other |
| Grid.GradientGrid.UpdateBounds | src/barnes_hut_sigmoid_decomposition.rs:251-253 | the bounding box is the per-axis minimum and maximum of the target's rows, or the min-max error with the old box kept |
| Grid.GradientGrid.SamplesInOwnLeaf | src/barnes_hut_sigmoid_decomposition.rs:172-176 | every sample is among the samples `iter_siblings` gives at its own position |
| BarnesHutSigmoidDecomposition.New | src/barnes_hut_sigmoid_decomposition.rs:460-465 | keeps the record, and the depth defaults to 3 |
| BarnesHutSigmoidDecomposition.BoundingBox | src/barnes_hut_sigmoid_decomposition.rs:251-253 | the target's box has each minimum below its maximum |
| BarnesHutSigmoidDecomposition.LeafOf | src/barnes_hut_sigmoid_decomposition.rs:106-140 | a point's leaf is one of the 4^depth leaves |
| BarnesHutSigmoidDecomposition.TargetLeafIds | src/barnes_hut_sigmoid_decomposition.rs:444-447 | one leaf per target row, each a valid leaf |
| BarnesHutSigmoidDecomposition.GridLeaf | src/barnes_hut_sigmoid_decomposition.rs:172-176 | a grid spanning a box finds each point in the leaf the box gives it |
| BarnesHutSigmoidDecomposition.PreparedIndex | src/barnes_hut_sigmoid_decomposition.rs:444-447 | the prepared grid spans the target's box and its index is the target's leaves |
| BarnesHutSigmoidDecomposition.ElementUpdate | src/barnes_hut_sigmoid_decomposition.rs:609-613 | one coordinate update keeps the target's length |
| BarnesHutSigmoidDecomposition.PairUpdate | src/barnes_hut_sigmoid_decomposition.rs:606-613 | the sibling update keeps the target's length |
| BarnesHutSigmoidDecomposition.PairUpdateScales | src/barnes_hut_sigmoid_decomposition.rs:606-613 | the update scales the pair's sum by 1 - v and its difference by 1 + v, and leaves every other row alone |
| BarnesHutSigmoidDecomposition.SiblingStep | src/barnes_hut_sigmoid_decomposition.rs:592-613 | meeting one sibling keeps the target's length |
| BarnesHutSigmoidDecomposition.SiblingsFrom | src/barnes_hut_sigmoid_decomposition.rs:582-614 | meeting a bucket keeps the target's length |
| BarnesHutSigmoidDecomposition.SiblingsFromFrame | src/barnes_hut_sigmoid_decomposition.rs:582-614 | meeting a bucket changes only the sample's row and the bucket's rows |
| BarnesHutSigmoidDecomposition.FarAwayStep | src/barnes_hut_sigmoid_decomposition.rs:546-579 | the far-away step keeps the target's length |
| BarnesHutSigmoidDecomposition.SampleStep | src/barnes_hut_sigmoid_decomposition.rs:544-617 | a sample's step keeps the target's length |
| BarnesHutSigmoidDecomposition.SampleStepFrame | src/barnes_hut_sigmoid_decomposition.rs:544-617 | a sample's step moves only the sample and the samples prepared into the leaf it has moved to |
| BarnesHutSigmoidDecomposition.SampleStepsFit | src/barnes_hut_sigmoid_decomposition.rs:532-619 | the sample loop keeps one two-dimensional row per sample |
| BarnesHutSigmoidDecomposition.Pass | src/barnes_hut_sigmoid_decomposition.rs:530-622 | a pass keeps the target's length |
| BarnesHutSigmoidDecomposition.PassesArePasses | src/barnes_hut_sigmoid_decomposition.rs:529-624 | each step of training is one pass of every target that fits |
| BarnesHutSigmoidDecomposition.UpdatePair | src/barnes_hut_sigmoid_decomposition.rs:606-613 | saving the left value first makes the in-place update the simultaneous sibling update |
| BarnesHutSigmoidDecomposition.UpdateSibling | src/barnes_hut_sigmoid_decomposition.rs:592-613 | meets one sibling in place |
| BarnesHutSigmoidDecomposition.UpdateFarAway | src/barnes_hut_sigmoid_decomposition.rs:546-579 | the far-away step in place |
| BarnesHutSigmoidDecomposition.UpdateSample | src/barnes_hut_sigmoid_decomposition.rs:544-617 | a sample's step in place, the sibling loop reading the moved position's leaf and skipping the sample itself |
| BarnesHutSigmoidDecomposition.SamplePhase | src/barnes_hut_sigmoid_decomposition.rs:532-619 | the samples' steps in sample order |
| BarnesHutSigmoidDecomposition.TrainingPass | src/barnes_hut_sigmoid_decomposition.rs:530-622 | prepares the grid from the current target and performs one pass in place |
| BarnesHutSigmoidDecomposition.CopyInto | src/barnes_hut_sigmoid_decomposition.rs:621 | the gradient application's result is written into the target |
| BarnesHutSigmoidDecomposition.TrainingPasses | src/barnes_hut_sigmoid_decomposition.rs:529-624 | the pass loop applies one pass per iteration |
| BarnesHutSigmoidDecomposition.Training | src/barnes_hut_sigmoid_decomposition.rs:529-624 | the target ends up trained for the given number of passes |
| BarnesHutSigmoidDecomposition.FitTransform | src/barnes_hut_sigmoid_decomposition.rs:475-625 | rejects a non-divisible target, then a dimension other than 2, both with the target untouched; then initialises randomly and passes on the statistics' errors; with zero passes stops there; fails on an empty target; otherwise trains from the random weights |
| SigmoidDecomposition.VariationBounded | src/sigmoid_decomposition.rs:144-145 | the variation never exceeds the learning rate in magnitude |
| SigmoidDecomposition.ElementStep | src/sigmoid_decomposition.rs:149-152 | one coordinate update keeps the target's length |
| SigmoidDecomposition.UpdateRowsFrom | src/sigmoid_decomposition.rs:146-152 | the row update writes only the two rows' remaining coordinates |
| SigmoidDecomposition.UpdateDisjointRows | src/sigmoid_decomposition.rs:146-152 | for distinct rows, l becomes l - r·v and r becomes r - (new l)·v |
| SigmoidDecomposition.UpdateSameRow | src/sigmoid_decomposition.rs:146-152 | for the self-pair the two writes alias the same coordinate |
| SigmoidDecomposition.PairStep | src/sigmoid_decomposition.rs:134-152 | a pair's update writes only rows i and j |
| SigmoidDecomposition.RowPairs | src/sigmoid_decomposition.rs:122-133 | the inner loop of sample i gives the pairs (i, j) for j from its start to n - 1 |
| SigmoidDecomposition.PairsFrom | src/sigmoid_decomposition.rs:107-133 | the outer loop from sample i gives pairs i <= a <= b < n |
| SigmoidDecomposition.RowPairsMembership | src/sigmoid_decomposition.rs:122-133 | the inner loop visits exactly (i, j), ..., (i, n - 1) |
| SigmoidDecomposition.PairsFromMembership | src/sigmoid_decomposition.rs:107-133 | the outer loop from i visits exactly the pairs i <= a <= b < n |
| SigmoidDecomposition.PairsMembership | src/sigmoid_decomposition.rs:107-133 | a pass visits exactly the pairs a <= b < n, the self-pairs included |
| SigmoidDecomposition.RowPairsOrdered | src/sigmoid_decomposition.rs:122-133 | the inner loop's j strictly increases |
| SigmoidDecomposition.PairsFromOrdered | src/sigmoid_decomposition.rs:107-133 | the outer loop's pairs come in increasing lexicographic order |
| SigmoidDecomposition.PairsOrdered | src/sigmoid_decomposition.rs:107-133 | a pass visits its pairs in increasing lexicographic order, none twice |
| SigmoidDecomposition.PairsFromCount | src/sigmoid_decomposition.rs:107-133 | the outer loop from i performs (n - i)(n - i + 1)/2 updates |
| SigmoidDecomposition.PairsCount | src/sigmoid_decomposition.rs:107-133 | a pass performs n(n + 1)/2 updates |
| SigmoidDecomposition.Remaining | src/sigmoid_decomposition.rs:107-133 | the pairs still to visit are pairs of samples |
| SigmoidDecomposition.RemainingStep | src/sigmoid_decomposition.rs:122-133 | the next pair to visit is (i, j), after which (i, j + 1) onward remain |
| SigmoidDecomposition.ApplyPairs | src/sigmoid_decomposition.rs:107-158 | updating a sequence of pairs keeps the target's length |
| SigmoidDecomposition.Pass | src/sigmoid_decomposition.rs:106-159 | a pass keeps the target's length |
| SigmoidDecomposition.Train | src/sigmoid_decomposition.rs:105-160 | training keeps the target's length |
| SigmoidDecomposition.ApplyPairsKeepsTail | src/sigmoid_decomposition.rs:107-152 | target entries beyond the original samples' rows are never written |
| SigmoidDecomposition.PairStepKeepsTail | src/sigmoid_decomposition.rs:134-152 | a pair's update never writes beyond the original samples' rows |
| SigmoidDecomposition.TrainKeepsTail | src/sigmoid_decomposition.rs:105-160 | training never writes beyond the original samples' rows |
| SigmoidDecomposition.ApplyElement | src/sigmoid_decomposition.rs:149-152 | one coordinate update in place |
| SigmoidDecomposition.UpdatePair | src/sigmoid_decomposition.rs:146-152 | the element loop updates the two rows in place |
| SigmoidDecomposition.UpdateSamplePair | src/sigmoid_decomposition.rs:134-152 | one pair's update in place |
| SigmoidDecomposition.TrainingPass | src/sigmoid_decomposition.rs:106-159 | the nested loops perform one pass in place |
| SigmoidDecomposition.FitTransform | src/sigmoid_decomposition.rs:63-161 | rejects a non-divisible target, then a non-divisible original, both with the target untouched; zero passes leave it unchanged; otherwise it is trained for the configured passes |
| SampledSigmoidDecomposition.From | src/sampled_sigmoid_decomposition.rs:16-20 | the model keeps the record's iterations, random state and learning rate |
| SampledSigmoidDecomposition.Partner | src/sampled_sigmoid_decomposition.rs:98-101 | the drawn partner is always a valid sample |
| SampledSigmoidDecomposition.GuardedElementStep | src/sampled_sigmoid_decomposition.rs:133-142 | one guarded coordinate update keeps the target's length |
| SampledSigmoidDecomposition.GuardedRowsFrom | src/sampled_sigmoid_decomposition.rs:130-142 | the guarded update writes only the two rows' remaining coordinates |
| SampledSigmoidDecomposition.GuardedDisjointRows | src/sampled_sigmoid_decomposition.rs:130-142 | for distinct rows each coordinate becomes l - r·v and r - l·v from the old values, each only when finite |
| SampledSigmoidDecomposition.GuardedRowsKeepFinite | src/sampled_sigmoid_decomposition.rs:130-142 | the guard never lets a non-finite value in |
| SampledSigmoidDecomposition.SampleStep | src/sampled_sigmoid_decomposition.rs:97-144 | a sample's step keeps the target's length |
| SampledSigmoidDecomposition.SampleStepFrame | src/sampled_sigmoid_decomposition.rs:97-144 | a sample's step writes only its row and its partner's, and keeps every entry finite |
| SampledSigmoidDecomposition.PassFrom | src/sampled_sigmoid_decomposition.rs:81-146 | a pass keeps the target's length |
| SampledSigmoidDecomposition.PassFromKeepsFinite | src/sampled_sigmoid_decomposition.rs:81-146 | a pass keeps every entry finite |
| SampledSigmoidDecomposition.TrainFrom | src/sampled_sigmoid_decomposition.rs:78-148 | training keeps the target's length |
| SampledSigmoidDecomposition.TrainFromKeepsFinite | src/sampled_sigmoid_decomposition.rs:78-148 | training keeps every entry finite |
| SampledSigmoidDecomposition.ApplyGuardedElement | src/sampled_sigmoid_decomposition.rs:133-142 | one guarded coordinate update in place |
| SampledSigmoidDecomposition.UpdateGuardedPair | src/sampled_sigmoid_decomposition.rs:130-142 | the element loop updates the two rows in place under the guard |
| SampledSigmoidDecomposition.UpdateSample | src/sampled_sigmoid_decomposition.rs:97-144 | one sample's step in place |
| SampledSigmoidDecomposition.TrainingPass | src/sampled_sigmoid_decomposition.rs:82-146 | the sample loop performs one pass in place |
| SampledSigmoidDecomposition.FitTransform | src/sampled_sigmoid_decomposition.rs:29-149 | rejects a non-divisible target untouched; otherwise initialises randomly, then passes on the statistics' errors with the target overwritten; otherwise trains from the random weights, the state starting at splitmix64 of the seed and advancing once per pass |

## Left out

- Floating point: `f32` and `f64` are modelled as reals. Rounding, infinities and NaN do not exist in the model. `is_finite` is a parameter, and the conversions between the target and original types (`as_()`) are the identity.
- `exp`, `ln`, `sqrt`, `splitmix64` and `random_f32`: parameters of the operations that use them. Their definitions are numeric or foreign code outside the crate.
- Parallelism: rayon's parallel iterators, `DataRaceAware`/`UnsafeCell` and `AtomicUsize`. Every parallel loop runs sequentially, in index order. The source lets the samples of one pass race on shared rows; the model fixes one interleaving.
- `pdep`'s inline assembly: modelled by its meaning, the bit deposit.
- The progress bar around the passes: user interface only.
- The Python bindings, numpy dispatch, macros, `src/lib.rs`, the duplicate declarations under `dimensional_reduction/`, and the Python smoke test: glue, not behaviour of the core.
- Grid.GradientGrid.Prepare: does not compute the per-cell target and original sums and averages, nor their upward propagation with the populations. Those are floating-point sums written in parallel, and their child range is the one of the second finding. The upward loop also adds each cell's population into its parent, so after `prepare` the layers above the leaves hold propagated counts. The model states the populations of the leaf layer only: each leaf's count and their total. Grid.GradientGrid.CountSamples states the whole array as it stands after the counting loop, before propagation.
- Grid.GradientGrid.Reset: the target and original averages are not fields of the model, so their clearing is not modelled.
- BarnesHutSigmoidDecomposition.FarAwayStep: the far-away update reads the cell averages and writes the cell gradients, which the model does not compute. It is the parameter `farAway`, of which the model only knows that it returns a two-dimensional row.
- BarnesHutSigmoidDecomposition.Pass: `downpropagate_gradient` and `apply_gradient` are the parameter `applyGradient`, which keeps the target's length. The corrected child range of the second finding is therefore used only by the lemmas about cell nesting.
- Grid.GradientGrid.constructor: requires a depth of at most 15. From depth 16 on, `2_u32.pow(2 * depth)` overflows, and the model does not state what the source then allocates. BarnesHutSigmoidDecomposition.FitTransform requires the bound only on the path that builds the grid, after the target checks and the statistics have succeeded.
- GridIndex.ElementsBeforeLayer: defined for layers up to 32 only. Beyond that the 32 even positions of the mask no longer hold every bit.
- SampledSigmoidDecomposition.FitTransform: requires every original column to have non-zero variance, because with reals a division by zero has no value. In `f32` it yields an infinity or NaN. The same holds for Utils.Normalize and BarnesHutSigmoidDecomposition.FitTransform.
- SampledSigmoidDecomposition.FitTransform: requires as many target rows as original rows when training runs. With fewer target rows, the source indexes a target slice out of range and panics. With more, it panics only when a drawn partner's index lies past the original's rows (src/sampled_sigmoid_decomposition.rs:98-109); otherwise it completes, and the extra target rows still move as partners. The model does not cover those completing runs.
- BarnesHutSigmoidDecomposition.FitTransform: requires as many target rows as original rows when training runs. With fewer target rows, the source indexes a target slice out of range and panics. With more, it panics only when a bucket sibling's id lies past the original's rows (src/barnes_hut_sigmoid_decomposition.rs:585-590); otherwise it completes, and the extra target rows still move. The model does not cover those completing runs.
- SigmoidDecomposition.FitTransform: requires no more original samples than target rows when training runs, the source's own slice bound.
- RandomInit.InitialValuePeriodic: the model wraps the u64 index arithmetic modulo 2^64, as a release build does. The source uses plain `+` and `*` (src/traits.rs:336), which panic on overflow when overflow checks are on, as in a debug build. The same holds for RandomInit.InitialValue.
- SigmoidDecomposition.UpdateSameRow: for the self-pair, the source takes two `&mut` slices of the same target row (src/sigmoid_decomposition.rs:111-130). Aliasing mutable references are undefined behaviour in Rust. The model reads them as one row, with the two writes applied in program order; that is one choice among the behaviours a compiler may produce. The same holds for SigmoidDecomposition.ElementStep.
- MatrixStats.MatrixStd: the square root is a parameter assumed exact on non-negative reals.
- Zero dimensions: a `% 0` or `par_chunks(0)` panics in the source. The affected operations require a positive dimension instead.
- `normal_dot` in the sampled and Barnes–Hut models is given the column variance where a standard deviation is expected. The source does this and so does the model.

## Findings

| source | as written | input that shows it | evidently intended | confidence | as-written member | corrected member |
|---|---|---|---|---|---|---|
| src/barnes_hut_sigmoid_decomposition.rs:159-162 | `iter_siblings_cells` keeps the children of the parent that are equal to `id`, so it yields `id` alone, and `iter_far_away_leafs` yields the point's own cells | `id = 5`: the children of cell 1 are 4, 5, 6, 7 and the filter keeps only 5 | the other three children of the parent (`!= id`), none of which holds the point | high, not executed | GridIndex.SiblingCellsAsWrittenIsSelf | GridIndex.SiblingCellsAreTheOtherChildren |
| src/barnes_hut_sigmoid_decomposition.rs:154-156 | `iter_child_cells(id)` is `4·id .. 4·id + 3`, which misses every quadrant of the cell in the next layer | `id = 0`, the first cell of layer 1: its quadrants are ids 4 to 7 of layer 2, but the range gives 0 to 3, layer 1 itself | the range `(id + 1)·4 .. (id + 1)·4 + 3`, since each layer starts 4 ids after 4 times the previous layer's start | high, not executed | GridIndex.ChildCellsAsWrittenMissQuadrants | GridIndex.QuadrantIsChild |
