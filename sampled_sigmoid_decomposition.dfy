/** `SampledSigmoidDecomposition::fit_transform`: validates the target
    length, randomly initialises the target, standardises the original
    samples by their column means and variances, and then, once per pass,
    advances a splitmix64 state and moves every sample towards or away from
    one pseudo-randomly drawn partner. A coordinate is written only when its
    new value is finite. The source runs the samples of a pass in parallel
    over racing rows; the model runs them in order. */
module SampledSigmoidDecomposition {
  import opened Common
  import opened Utils
  import opened Slices
  import opened MatrixStats
  import opened RandomInit
  import DecompositionTraits
  import BasicIterativeDecomposition

  datatype SampledSigmoidDecomposition = SampledSigmoidDecomposition(
    decomposition: BasicIterativeDecomposition.BasicIterativeDecomposition)

  /** `From<BasicIterativeDecomposition>`: wraps the record unchanged. */
  function From(decomposition: BasicIterativeDecomposition.BasicIterativeDecomposition)
    : (model: SampledSigmoidDecomposition)
    ensures DecompositionTraits.GetIterations(model.decomposition) == DecompositionTraits.GetIterations(decomposition)
    ensures DecompositionTraits.GetRandomState(model.decomposition) == DecompositionTraits.GetRandomState(decomposition)
    ensures DecompositionTraits.GetLearningRate(model.decomposition) == DecompositionTraits.GetLearningRate(decomposition)
  {
    SampledSigmoidDecomposition(decomposition)
  }

  /** The floating-point functions the update uses and the model does not
      define: the exponential inside the sigmoid, the natural logarithm, and
      `is_finite`. */
  datatype Numerics = Numerics(exp: real -> real, ln: real -> real, isFinite: real -> bool)

  /** What a training run works with besides the target. `samples` is both
      the number of target rows and the number of original rows. */
  datatype Setting = Setting(
    original: seq<real>,
    targetDimension: nat,
    originalDimension: nat,
    samples: nat,
    mean: seq<real>,
    variance: seq<real>,
    learningRate: real,
    numerics: Numerics,
    splitmix64: U64 -> U64)

  ghost predicate ValidSetting(s: Setting)
  {
    && s.targetDimension > 0
    && s.originalDimension > 0
    && s.samples > 0
    && s.samples * s.originalDimension == |s.original|
    && (forall k :: 0 <= k < |s.variance| ==> s.variance[k] != 0.0)
    && (forall x :: s.numerics.exp(x) > 0.0)
  }

  predicate Fits(t: seq<real>, s: Setting)
  {
    s.samples * s.targetDimension <= |t|
  }

  /** The partner of sample i in the pass with random state `state`:
      splitmix64(state + i * state) modulo the number of samples, with the
      u64 arithmetic wrapping. It is always a valid sample. */
  function Partner(s: Setting, state: U64, i: nat): (j: nat)
    requires s.samples > 0
    ensures j < s.samples
  {
    s.splitmix64(WrappingAdd(state, WrappingMul(i % U64_MODULUS, state))) % s.samples
  }

  /** sigmoid(target dot) - sigmoid(ln(normal dot)), scaled by the learning
      rate. */
  function Variation(targetDot: real, originalDot: real, s: Setting): (v: real)
    requires ValidSetting(s)
  {
    var x := s.numerics.ln(originalDot);
    assert s.numerics.exp(-targetDot) > 0.0 && s.numerics.exp(-x) > 0.0;
    (Sigmoid(targetDot, s.numerics.exp) - Sigmoid(x, s.numerics.exp)) * s.learningRate
  }

  /** One coordinate of the update: both new values are computed from the
      old ones, and each is written only when it is finite. When the two
      positions coincide (a sample drawn as its own partner) they alias. */
  function GuardedElementStep(t: seq<real>, p: nat, q: nat, v: real, isFinite: real -> bool): (r: seq<real>)
    requires p < |t| && q < |t|
    ensures |r| == |t|
  {
    var newLeft, newRight := Shear(t[p], t[q], v), Shear(t[q], t[p], v);
    var t1 := if isFinite(newLeft) then t[p := newLeft] else t;
    if isFinite(newRight) then t1[q := newRight] else t1
  }

  /** Coordinates k, ..., width - 1 of the guarded update of the rows
      starting at a and b. Nothing outside those rows changes. */
  function GuardedRowsFrom(t: seq<real>, a: nat, b: nat, width: nat, k: nat, v: real,
                           isFinite: real -> bool): (r: seq<real>)
    requires a + width <= |t| && b + width <= |t| && k <= width
    ensures |r| == |t|
    ensures forall x :: 0 <= x < |t| && !(a + k <= x < a + width) && !(b + k <= x < b + width) ==>
              r[x] == t[x]
    decreases width - k
  {
    if k == width then t
    else GuardedRowsFrom(GuardedElementStep(t, a + k, b + k, v, isFinite), a, b, width, k + 1, v, isFinite)
  }

  /** For two rows that do not overlap, each coordinate l of the left row and
      the matching coordinate r of the right row become l - r * v and
      r - l * v, each only when finite. */
  lemma {:induction false} GuardedDisjointRows(t: seq<real>, a: nat, b: nat, width: nat, k: nat, v: real,
                                               isFinite: real -> bool)
    requires a + width <= |t| && b + width <= |t| && k <= width
    requires a + width <= b || b + width <= a
    ensures forall p :: a + k <= p < a + width ==>
              var l, r, u := t[p], t[p - a + b], GuardedRowsFrom(t, a, b, width, k, v, isFinite);
              u[p] == (if isFinite(Shear(l, r, v)) then Shear(l, r, v) else l) &&
              u[p - a + b] == (if isFinite(Shear(r, l, v)) then Shear(r, l, v) else r)
    decreases width - k
  {
    if k < width {
      var t1 := GuardedElementStep(t, a + k, b + k, v, isFinite);
      var u := GuardedRowsFrom(t, a, b, width, k, v, isFinite);
      assert u == GuardedRowsFrom(t1, a, b, width, k + 1, v, isFinite);
      GuardedDisjointRows(t1, a, b, width, k + 1, v, isFinite);
      assert u[a + k] == t1[a + k] && u[b + k] == t1[b + k];
      forall p | a + k <= p < a + width
        ensures var l, r := t[p], t[p - a + b];
                u[p] == (if isFinite(Shear(l, r, v)) then Shear(l, r, v) else l) &&
                u[p - a + b] == (if isFinite(Shear(r, l, v)) then Shear(r, l, v) else r)
      {
        if p > a + k {
          assert t1[p] == t[p] && t1[p - a + b] == t[p - a + b];
        }
      }
    }
  }

  /** Every entry satisfies `is_finite`. */
  ghost predicate AllFinite(t: seq<real>, isFinite: real -> bool)
  {
    forall x :: 0 <= x < |t| ==> isFinite(t[x])
  }

  /** The guard never lets a non-finite value in. */
  lemma {:induction false} GuardedRowsKeepFinite(t: seq<real>, a: nat, b: nat, width: nat, k: nat, v: real,
                                                 isFinite: real -> bool)
    requires a + width <= |t| && b + width <= |t| && k <= width
    requires AllFinite(t, isFinite)
    ensures AllFinite(GuardedRowsFrom(t, a, b, width, k, v, isFinite), isFinite)
    decreases width - k
  {
    if k < width {
      var t1 := GuardedElementStep(t, a + k, b + k, v, isFinite);
      assert AllFinite(t1, isFinite);
      GuardedRowsKeepFinite(t1, a, b, width, k + 1, v, isFinite);
    }
  }

  /** The variation sample i and its partner are moved by: computed from
      the dot product of their target rows and the normalised dot product of
      their original rows. */
  function SampleVariation(t: seq<real>, s: Setting, state: U64, i: nat): real
    requires ValidSetting(s) && Fits(t, s) && i < s.samples
  {
    var w, ow, j := s.targetDimension, s.originalDimension, Partner(s, state, i);
    RowInside(i, s.samples, w);
    RowInside(j, s.samples, w);
    RowInside(i, s.samples, ow);
    RowInside(j, s.samples, ow);
    Variation(Dot(Row(t, i, w), Row(t, j, w)),
              NormalDot(Row(s.original, i, ow), Row(s.original, j, ow), s.mean, s.variance), s)
  }

  /** The step of sample i in the pass with random state `state`: draw the
      partner and update both rows under the guard. */
  function SampleStep(t: seq<real>, s: Setting, state: U64, i: nat): (r: seq<real>)
    requires ValidSetting(s) && Fits(t, s) && i < s.samples
    ensures |r| == |t|
  {
    var w, j := s.targetDimension, Partner(s, state, i);
    RowInside(i, s.samples, w);
    RowInside(j, s.samples, w);
    GuardedRowsFrom(t, i * w, j * w, w, 0, SampleVariation(t, s, state, i), s.numerics.isFinite)
  }

  /** Position x is in neither row i nor row j. */
  predicate OutsideRows(x: nat, i: nat, j: nat, width: nat)
  {
    !(i * width <= x < i * width + width) && !(j * width <= x < j * width + width)
  }

  /** The step of sample i writes only rows i and its partner, and keeps
      every entry finite. */
  lemma SampleStepFrame(t: seq<real>, s: Setting, state: U64, i: nat)
    requires ValidSetting(s) && Fits(t, s) && i < s.samples
    ensures forall x :: 0 <= x < |t| && OutsideRows(x, i, Partner(s, state, i), s.targetDimension) ==>
              SampleStep(t, s, state, i)[x] == t[x]
    ensures AllFinite(t, s.numerics.isFinite) ==> AllFinite(SampleStep(t, s, state, i), s.numerics.isFinite)
  {
    var w, j := s.targetDimension, Partner(s, state, i);
    RowInside(i, s.samples, w);
    RowInside(j, s.samples, w);
    if AllFinite(t, s.numerics.isFinite) {
      GuardedRowsKeepFinite(t, i * w, j * w, w, 0, SampleVariation(t, s, state, i), s.numerics.isFinite);
    }
  }

  /** The steps of samples i, ..., n - 1 of one pass. */
  function PassFrom(t: seq<real>, s: Setting, state: U64, i: nat): (r: seq<real>)
    requires ValidSetting(s) && Fits(t, s) && i <= s.samples
    ensures |r| == |t|
    decreases s.samples - i
  {
    if i == s.samples then t else PassFrom(SampleStep(t, s, state, i), s, state, i + 1)
  }

  /** A pass never lets a non-finite value in. */
  lemma {:induction false} PassFromKeepsFinite(t: seq<real>, s: Setting, state: U64, i: nat)
    requires ValidSetting(s) && Fits(t, s) && i <= s.samples
    requires AllFinite(t, s.numerics.isFinite)
    ensures AllFinite(PassFrom(t, s, state, i), s.numerics.isFinite)
    decreases s.samples - i
  {
    if i < s.samples {
      SampleStepFrame(t, s, state, i);
      PassFromKeepsFinite(SampleStep(t, s, state, i), s, state, i + 1);
    }
  }

  /** `f` applied k times. */
  function Iterate(f: U64 -> U64, x: U64, k: nat): U64
  {
    if k == 0 then x else f(Iterate(f, x, k - 1))
  }

  /** The random state pass p works with: the seed hashed once before the
      passes and once more at the start of every pass, p + 2 times in all. */
  function PassState(s: Setting, seed: U64, p: nat): U64
  {
    Iterate(s.splitmix64, seed, p + 2)
  }

  /** Passes p, ..., iterations - 1. */
  function TrainFrom(t: seq<real>, s: Setting, seed: U64, p: nat, iterations: nat): (r: seq<real>)
    requires ValidSetting(s) && Fits(t, s) && p <= iterations
    ensures |r| == |t|
    decreases iterations - p
  {
    if p == iterations then t
    else TrainFrom(PassFrom(t, s, PassState(s, seed, p), 0), s, seed, p + 1, iterations)
  }

  /** Training never lets a non-finite value in. */
  lemma {:induction false} TrainFromKeepsFinite(t: seq<real>, s: Setting, seed: U64, p: nat, iterations: nat)
    requires ValidSetting(s) && Fits(t, s) && p <= iterations
    requires AllFinite(t, s.numerics.isFinite)
    ensures AllFinite(TrainFrom(t, s, seed, p, iterations), s.numerics.isFinite)
    decreases iterations - p
  {
    if p < iterations {
      PassFromKeepsFinite(t, s, PassState(s, seed, p), 0);
      TrainFromKeepsFinite(PassFrom(t, s, PassState(s, seed, p), 0), s, seed, p + 1, iterations);
    }
  }

  /** One coordinate of the guarded update, in place. */
  method ApplyGuardedElement(target: array<real>, p: nat, q: nat, v: real, isFinite: real -> bool)
    requires p < target.Length && q < target.Length
    modifies target
    ensures target[..] == GuardedElementStep(old(target[..]), p, q, v, isFinite)
  {
    var newLeft := Shear(target[p], target[q], v);
    var newRight := Shear(target[q], target[p], v);
    if isFinite(newLeft) {
      target[p] := newLeft;
    }
    if isFinite(newRight) {
      target[q] := newRight;
    }
  }

  /** The element loop of one step. */
  method UpdateGuardedPair(target: array<real>, a: nat, b: nat, width: nat, v: real, isFinite: real -> bool)
    requires a + width <= target.Length && b + width <= target.Length
    modifies target
    ensures target[..] == GuardedRowsFrom(old(target[..]), a, b, width, 0, v, isFinite)
  {
    for k := 0 to width
      invariant GuardedRowsFrom(target[..], a, b, width, k, v, isFinite)
                == GuardedRowsFrom(old(target[..]), a, b, width, 0, v, isFinite)
    {
      ApplyGuardedElement(target, a + k, b + k, v, isFinite);
    }
  }

  /** The step of sample i, in place. */
  method UpdateSample(target: array<real>, s: Setting, state: U64, i: nat)
    requires ValidSetting(s) && Fits(target[..], s) && i < s.samples
    modifies target
    ensures target[..] == SampleStep(old(target[..]), s, state, i)
  {
    var w, j := s.targetDimension, Partner(s, state, i);
    RowInside(i, s.samples, w);
    RowInside(j, s.samples, w);
    var v := SampleVariation(target[..], s, state, i);
    UpdateGuardedPair(target, i * w, j * w, w, v, s.numerics.isFinite);
  }

  /** One pass with the given random state. */
  method TrainingPass(target: array<real>, s: Setting, state: U64)
    requires ValidSetting(s) && Fits(target[..], s)
    modifies target
    ensures target[..] == PassFrom(old(target[..]), s, state, 0)
  {
    ghost var goal := PassFrom(target[..], s, state, 0);
    for i := 0 to s.samples
      invariant Fits(target[..], s)
      invariant PassFrom(target[..], s, state, i) == goal
    {
      UpdateSample(target, s, state, i);
    }
  }

  /** The precondition under which the model lets `fit_transform` get past
      its checks and train: whole target and original rows, as many
      original rows as target rows, and no column of the original with zero
      variance (the standardisation divides by it). With fewer target rows
      than original rows the source panics; with more it may complete,
      which the model does not cover. */
  ghost predicate TrainableInput(targetLength: nat, targetDimension: nat, original: seq<real>, originalDimension: nat)
  {
    && targetDimension > 0
    && targetLength % targetDimension == 0
    && WholeRows(original, originalDimension)
    && targetLength / targetDimension == |original| / originalDimension
    && (forall k :: 0 <= k < originalDimension ==> ColumnVariances(original, originalDimension)[k] != 0.0)
  }

  /** The training setting `fit_transform` builds from its input. */
  function SettingOf(model: SampledSigmoidDecomposition, targetLength: nat, targetDimension: nat,
                     original: seq<real>, originalDimension: nat, numerics: Numerics, rng: Rng)
    : (s: Setting)
    requires targetDimension > 0 && WholeRows(original, originalDimension)
  {
    Setting(original, targetDimension, originalDimension, targetLength / targetDimension,
            ColumnMeans(original, originalDimension), ColumnVariances(original, originalDimension),
            DecompositionTraits.GetLearningRate(model.decomposition), numerics, rng.splitmix64)
  }

  /** `fit_transform`. A target length that is not a multiple of the target
      dimension is rejected with the target untouched. Otherwise the target
      is randomly initialised first, and only then are the original's mean
      and variance computed, so an empty original, or one whose length is
      not a multiple of its dimension, is rejected with the target already
      overwritten. The source then checks the original length again; that
      check cannot fail, since the variance succeeded. Training runs the
      configured number of passes, the random state starting from
      splitmix64 of the model's random state.
      A zero target dimension or a zero original dimension makes the source
      panic (`%` by zero). When training runs, a target with fewer rows than
      the original makes it index a target slice out of range; one with
      more rows panics only if a drawn partner's index lies past the
      original's rows, and otherwise completes with the extra rows moved as
      partners. The model requires equal row counts for training, hence
      the preconditions. */
  method FitTransform(model: SampledSigmoidDecomposition, target: array<real>, targetDimension: nat,
                      original: seq<real>, originalDimension: nat, numerics: Numerics, rng: Rng)
    returns (r: Result<()>)
    requires targetDimension > 0
    requires |original| > 0 ==> originalDimension > 0
    requires forall x :: numerics.exp(x) > 0.0
    requires target.Length % targetDimension == 0 && WholeRows(original, originalDimension) &&
             DecompositionTraits.GetIterations(model.decomposition) > 0 ==>
             TrainableInput(target.Length, targetDimension, original, originalDimension)
    modifies target
    ensures target.Length % targetDimension != 0 ==>
              r == Err(IncompatibleTargetLength(target.Length, targetDimension)) &&
              target[..] == old(target[..])
    ensures var init := InitialWeights(rng, DecompositionTraits.GetRandomState(model.decomposition), target.Length);
            target.Length % targetDimension == 0 && !WholeRows(original, originalDimension) ==>
              r.Err? && target[..] == init &&
              r.error == (if |original| == 0 then EmptyObject
                          else IncompatibleDimensionality(originalDimension, |original|))
    ensures var seed := DecompositionTraits.GetRandomState(model.decomposition);
            var iterations := DecompositionTraits.GetIterations(model.decomposition);
            var init := InitialWeights(rng, seed, target.Length);
            target.Length % targetDimension == 0 && WholeRows(original, originalDimension) ==>
              r == Ok(()) &&
              (iterations == 0 ==> target[..] == init) &&
              (iterations > 0 ==>
                 var s := SettingOf(model, target.Length, targetDimension, original, originalDimension, numerics, rng);
                 ValidSetting(s) && Fits(init, s) &&
                 target[..] == TrainFrom(init, s, seed, 0, iterations))
  {
    if target.Length % targetDimension != 0 {
      return Err(IncompatibleTargetLength(target.Length, targetDimension));
    }
    var seed := DecompositionTraits.GetRandomState(model.decomposition);
    RandomInit.RandomInit(target, rng, seed);
    var numberOfSamples := target.Length / targetDimension;
    var mean := MatrixMean(original, originalDimension);
    if mean.Err? {
      return Err(mean.error);
    }
    var variance := MatrixVar(original, originalDimension);
    // `matrix_var` fails exactly when `matrix_mean` does, and the source's
    // second check of the original length cannot fail after them.
    assert variance.Ok? && |original| % originalDimension == 0;
    var iterations := DecompositionTraits.GetIterations(model.decomposition);
    if iterations == 0 {
      return Ok(());
    }
    var s := Setting(original, targetDimension, originalDimension, numberOfSamples, mean.value, variance.value,
                     DecompositionTraits.GetLearningRate(model.decomposition), numerics, rng.splitmix64);
    assert s == SettingOf(model, target.Length, targetDimension, original, originalDimension, numerics, rng);
    assert ValidSetting(s);
    var state := rng.splitmix64(seed);
    ghost var goal := TrainFrom(target[..], s, seed, 0, iterations);
    for pass := 0 to iterations
      invariant Fits(target[..], s)
      invariant state == Iterate(rng.splitmix64, seed, pass + 1)
      invariant TrainFrom(target[..], s, seed, pass, iterations) == goal
    {
      state := rng.splitmix64(state);
      TrainingPass(target, s, state);
    }
    r := Ok(());
  }
}
