/** `SigmoidDecomposition::fit_transform`: after validating the two slice
    lengths, every pass visits each pair of samples (i, j) with i <= j, in
    order, and pulls target rows i and j together or apart by a variation
    computed from their target and original dot products. The source runs
    the outer loop in parallel over racing rows; the model runs it in order. */
module SigmoidDecomposition {
  import opened Common
  import opened Utils
  import opened Slices
  import DecompositionTraits
  import BasicIterativeDecomposition

  datatype SigmoidDecomposition = SigmoidDecomposition(decomposition: BasicIterativeDecomposition.BasicIterativeDecomposition)

  /** What one training run works with besides the target: the original
      samples and both row widths, the number of samples, the learning rate
      and the exponential used by the sigmoid. */
  datatype Setting = Setting(
    original: seq<real>,
    targetDimension: nat,
    originalDimension: nat,
    samples: nat,
    learningRate: real,
    exp: real -> real)

  ghost predicate ValidSetting(s: Setting)
  {
    && s.targetDimension > 0
    && s.originalDimension > 0
    && s.samples * s.originalDimension == |s.original|
    && (forall x :: s.exp(x) > 0.0)
  }

  /** The target holds at least one row per original sample. */
  predicate Fits(t: seq<real>, s: Setting)
  {
    s.samples * s.targetDimension <= |t|
  }

  /** The learning-rate-scaled difference of the two sigmoids; its magnitude
      never exceeds the learning rate. */
  function Variation(targetDot: real, originalDot: real, s: Setting): (v: real)
    requires ValidSetting(s)
  {
    assert s.exp(-targetDot) > 0.0 && s.exp(-originalDot) > 0.0;
    (Sigmoid(targetDot, s.exp) - Sigmoid(originalDot, s.exp)) * s.learningRate
  }

  lemma VariationBounded(targetDot: real, originalDot: real, s: Setting)
    requires ValidSetting(s) && s.learningRate >= 0.0
    ensures -s.learningRate <= Variation(targetDot, originalDot, s) <= s.learningRate
  {
    assert s.exp(-targetDot) > 0.0 && s.exp(-originalDot) > 0.0;
    var d := Sigmoid(targetDot, s.exp) - Sigmoid(originalDot, s.exp);
    assert -1.0 <= d <= 1.0;
    assert s.learningRate - d * s.learningRate == (1.0 - d) * s.learningRate;
    assert d * s.learningRate + s.learningRate == (1.0 + d) * s.learningRate;
  }

  /** One coordinate of the update: `*left -= *right * v; *right -= *left * v`,
      where the second line reads the left value just written. When both
      positions are the same (the self-pair) they alias, as in the source. */
  function ElementStep(t: seq<real>, p: nat, q: nat, v: real): (r: seq<real>)
    requires p < |t| && q < |t|
    ensures |r| == |t|
  {
    var t1 := t[p := Shear(t[p], t[q], v)];
    t1[q := Shear(t1[q], t1[p], v)]
  }


  /** The coordinates k, k + 1, ..., width - 1 of the update of the rows
      starting at a and b, in order. */
  function UpdateRowsFrom(t: seq<real>, a: nat, b: nat, width: nat, k: nat, v: real): (r: seq<real>)
    requires a + width <= |t| && b + width <= |t| && k <= width
    ensures |r| == |t|
    ensures forall x :: 0 <= x < |t| && !(a + k <= x < a + width) && !(b + k <= x < b + width) ==>
              r[x] == t[x]
    decreases width - k
  {
    if k == width then t
    else UpdateRowsFrom(ElementStep(t, a + k, b + k, v), a, b, width, k + 1, v)
  }

  /** For two rows that do not overlap, each coordinate l of the left row
      becomes l' = l - r * v and the matching coordinate r of the right row
      becomes r - l' * v. */
  lemma {:induction false} UpdateDisjointRows(t: seq<real>, a: nat, b: nat, width: nat, k: nat, v: real)
    requires a + width <= |t| && b + width <= |t| && k <= width
    requires a + width <= b || b + width <= a
    ensures forall p :: a + k <= p < a + width ==>
              var l, r := t[p], t[p - a + b];
              UpdateRowsFrom(t, a, b, width, k, v)[p] == Shear(l, r, v) &&
              UpdateRowsFrom(t, a, b, width, k, v)[p - a + b] == Shear(r, Shear(l, r, v), v)
    decreases width - k
  {
    if k < width {
      var t1 := ElementStep(t, a + k, b + k, v);
      var r := UpdateRowsFrom(t, a, b, width, k, v);
      assert r == UpdateRowsFrom(t1, a, b, width, k + 1, v);
      UpdateDisjointRows(t1, a, b, width, k + 1, v);
      assert t1[a + k] == Shear(t[a + k], t[b + k], v);
      assert t1[b + k] == Shear(t[b + k], t1[a + k], v);
      assert r[a + k] == t1[a + k] && r[b + k] == t1[b + k];
      forall p | a + k <= p < a + width
        ensures r[p] == Shear(t[p], t[p - a + b], v)
        ensures r[p - a + b] == Shear(t[p - a + b], Shear(t[p], t[p - a + b], v), v)
      {
        if p > a + k {
          assert t1[p] == t[p] && t1[p - a + b] == t[p - a + b];
        }
      }
    }
  }

  /** For the self-pair each coordinate x becomes y - y * v with
      y = x - x * v, since left and right are the same place. */
  lemma {:induction false} UpdateSameRow(t: seq<real>, a: nat, width: nat, k: nat, v: real)
    requires a + width <= |t| && k <= width
    ensures forall p :: a + k <= p < a + width ==>
              UpdateRowsFrom(t, a, a, width, k, v)[p] == Shear(Shear(t[p], t[p], v), Shear(t[p], t[p], v), v)
    decreases width - k
  {
    if k < width {
      UpdateSameRow(ElementStep(t, a + k, a + k, v), a, width, k + 1, v);
    }
  }

  /** Position x is in neither row i nor row j. */
  predicate OutsideRows(x: nat, i: nat, j: nat, width: nat)
  {
    !(i * width <= x < i * width + width) && !(j * width <= x < j * width + width)
  }

  /** The variation of the pair (i, j): the sigmoid of the dot product of
      their target rows against that of their original rows. */
  function PairVariation(t: seq<real>, s: Setting, i: nat, j: nat): real
    requires ValidSetting(s) && Fits(t, s) && i < s.samples && j < s.samples
  {
    var w, ow := s.targetDimension, s.originalDimension;
    RowInside(i, s.samples, w);
    RowInside(j, s.samples, w);
    RowInside(i, s.samples, ow);
    RowInside(j, s.samples, ow);
    Variation(Dot(Row(t, i, w), Row(t, j, w)), Dot(Row(s.original, i, ow), Row(s.original, j, ow)), s)
  }

  /** The update of the pair (i, j): the variation of the pair's target and
      original dot products, then the row update. Only rows i and j change. */
  function PairStep(t: seq<real>, s: Setting, i: nat, j: nat): (r: seq<real>)
    requires ValidSetting(s) && Fits(t, s) && i < s.samples && j < s.samples
    ensures |r| == |t|
    ensures forall x :: 0 <= x < |t| && OutsideRows(x, i, j, s.targetDimension) ==> r[x] == t[x]
  {
    var w := s.targetDimension;
    RowInside(i, s.samples, w);
    RowInside(j, s.samples, w);
    UpdateRowsFrom(t, i * w, j * w, w, 0, PairVariation(t, s, i, j))
  }

  /** Pairs (i, j), (i, j + 1), ..., (i, n - 1): the inner loop of sample i
      from position j on. */
  function RowPairs(i: nat, j: nat, n: nat): (ps: seq<(nat, nat)>)
    ensures forall k :: 0 <= k < |ps| ==> ps[k].0 == i && j <= ps[k].1 < n
    ensures |ps| == if j < n then n - j else 0
    decreases n - j
  {
    if j >= n then [] else [(i, j)] + RowPairs(i, j + 1, n)
  }

  /** All pairs visited by the outer loop from sample i on. */
  function PairsFrom(i: nat, n: nat): (ps: seq<(nat, nat)>)
    ensures forall k :: 0 <= k < |ps| ==> i <= ps[k].0 <= ps[k].1 < n
    decreases n - i
  {
    if i >= n then [] else RowPairs(i, i, n) + PairsFrom(i + 1, n)
  }

  /** The pairs one pass visits, in order. */
  function Pairs(n: nat): seq<(nat, nat)>
  {
    PairsFrom(0, n)
  }

  lemma {:induction false} RowPairsMembership(i: nat, j: nat, n: nat, a: nat, b: nat)
    ensures (a, b) in RowPairs(i, j, n) <==> a == i && j <= b < n
    decreases n - j
  {
    if j < n {
      RowPairsMembership(i, j + 1, n, a, b);
    }
  }

  lemma {:induction false} PairsFromMembership(i: nat, n: nat, a: nat, b: nat)
    ensures (a, b) in PairsFrom(i, n) <==> i <= a <= b < n
    decreases n - i
  {
    if i < n {
      RowPairsMembership(i, i, n, a, b);
      PairsFromMembership(i + 1, n, a, b);
    }
  }

  /** A pass visits exactly the pairs (i, j) with i <= j < n, the self-pairs
      included. */
  lemma PairsMembership(n: nat, a: nat, b: nat)
    ensures (a, b) in Pairs(n) <==> a <= b < n
  {
    PairsFromMembership(0, n, a, b);
  }

  predicate Before(p: (nat, nat), q: (nat, nat))
  {
    p.0 < q.0 || (p.0 == q.0 && p.1 < q.1)
  }

  lemma {:induction false} RowPairsOrdered(i: nat, j: nat, n: nat)
    ensures forall x, y :: 0 <= x < y < |RowPairs(i, j, n)| ==>
              RowPairs(i, j, n)[x].1 < RowPairs(i, j, n)[y].1
    decreases n - j
  {
    if j < n {
      RowPairsOrdered(i, j + 1, n);
      var ps := RowPairs(i, j, n);
      forall x, y | 0 <= x < y < |ps|
        ensures ps[x].1 < ps[y].1
      {
        assert ps[y] == RowPairs(i, j + 1, n)[y - 1];
        if x > 0 {
          assert ps[x] == RowPairs(i, j + 1, n)[x - 1];
        }
      }
    }
  }

  lemma {:induction false} PairsFromOrdered(i: nat, n: nat)
    ensures forall x, y :: 0 <= x < y < |PairsFrom(i, n)| ==>
              Before(PairsFrom(i, n)[x], PairsFrom(i, n)[y])
    decreases n - i
  {
    if i < n {
      var head, tail := RowPairs(i, i, n), PairsFrom(i + 1, n);
      RowPairsOrdered(i, i, n);
      PairsFromOrdered(i + 1, n);
      var ps := head + tail;
      forall x, y | 0 <= x < y < |ps|
        ensures Before(ps[x], ps[y])
      {
        if y >= |head| {
          assert ps[y] == tail[y - |head|];
          if x >= |head| {
            assert ps[x] == tail[x - |head|];
          }
        }
      }
    }
  }

  /** The pairs come in increasing lexicographic order: for each i, j runs
      upward, and then i moves on. In particular no pair is visited twice. */
  lemma PairsOrdered(n: nat)
    ensures forall x, y :: 0 <= x < y < |Pairs(n)| ==> Before(Pairs(n)[x], Pairs(n)[y])
  {
    PairsFromOrdered(0, n);
  }

  lemma {:induction false} PairsFromCount(i: nat, n: nat)
    requires i <= n
    ensures 2 * |PairsFrom(i, n)| == (n - i) * (n - i + 1)
    decreases n - i
  {
    if i < n {
      PairsFromCount(i + 1, n);
      assert (n - i) * (n - i + 1) == (n - i - 1) * (n - i) + 2 * (n - i);
    }
  }

  /** A pass performs n (n + 1) / 2 updates. */
  lemma PairsCount(n: nat)
    ensures 2 * |Pairs(n)| == n * (n + 1)
  {
    PairsFromCount(0, n);
  }

  /** The pairs still to visit when the inner loop of sample i is at j:
      the rest of row i, then all later rows. */
  function Remaining(i: nat, j: nat, n: nat): (ps: seq<(nat, nat)>)
    requires i <= j
    ensures PairsInRange(ps, n)
  {
    var head, tail := RowPairs(i, j, n), PairsFrom(i + 1, n);
    assert forall k :: 0 <= k < |head| ==> (head + tail)[k] == head[k];
    assert forall k :: |head| <= k < |head| + |tail| ==> (head + tail)[k] == tail[k - |head|];
    head + tail
  }

  lemma RemainingStep(i: nat, j: nat, n: nat)
    requires i <= j < n
    ensures Remaining(i, j, n)[0] == (i, j)
    ensures Remaining(i, j, n)[1..] == Remaining(i, j + 1, n)
  {
    var next, tail := RowPairs(i, j + 1, n), PairsFrom(i + 1, n);
    assert RowPairs(i, j, n) == [(i, j)] + next;
    assert Remaining(i, j, n) == [(i, j)] + (next + tail);
    assert Remaining(i, j + 1, n) == next + tail;
  }

  predicate PairsInRange(ps: seq<(nat, nat)>, n: nat)
  {
    forall k :: 0 <= k < |ps| ==> ps[k].0 < n && ps[k].1 < n
  }

  /** The updates of the given pairs, one after another. */
  function ApplyPairs(t: seq<real>, ps: seq<(nat, nat)>, s: Setting): (r: seq<real>)
    requires ValidSetting(s) && Fits(t, s) && PairsInRange(ps, s.samples)
    ensures |r| == |t|
    decreases |ps|
  {
    if ps == [] then t
    else ApplyPairs(PairStep(t, s, ps[0].0, ps[0].1), ps[1..], s)
  }

  /** A whole pass over all pairs. */
  function Pass(t: seq<real>, s: Setting): (r: seq<real>)
    requires ValidSetting(s) && Fits(t, s)
    ensures |r| == |t|
  {
    ApplyPairs(t, Pairs(s.samples), s)
  }

  /** `iterations` passes, one after another. */
  function Train(t: seq<real>, s: Setting, iterations: nat): (r: seq<real>)
    requires ValidSetting(s) && Fits(t, s)
    ensures |r| == |t|
    decreases iterations
  {
    if iterations == 0 then t else Train(Pass(t, s), s, iterations - 1)
  }

  /** Target entries beyond the rows of the original samples are never
      written by training. */
  lemma {:induction false} ApplyPairsKeepsTail(t: seq<real>, ps: seq<(nat, nat)>, s: Setting)
    requires ValidSetting(s) && Fits(t, s) && PairsInRange(ps, s.samples)
    ensures forall x :: s.samples * s.targetDimension <= x < |t| ==> ApplyPairs(t, ps, s)[x] == t[x]
    decreases |ps|
  {
    if ps != [] {
      PairStepKeepsTail(t, s, ps[0].0, ps[0].1);
      ApplyPairsKeepsTail(PairStep(t, s, ps[0].0, ps[0].1), ps[1..], s);
    }
  }

  lemma PairStepKeepsTail(t: seq<real>, s: Setting, i: nat, j: nat)
    requires ValidSetting(s) && Fits(t, s) && i < s.samples && j < s.samples
    ensures forall x :: s.samples * s.targetDimension <= x < |t| ==> PairStep(t, s, i, j)[x] == t[x]
  {
    var w := s.targetDimension;
    RowInside(i, s.samples, w);
    RowInside(j, s.samples, w);
    assert forall x :: s.samples * w <= x ==> OutsideRows(x, i, j, w);
  }

  lemma {:induction false} TrainKeepsTail(t: seq<real>, s: Setting, iterations: nat)
    requires ValidSetting(s) && Fits(t, s)
    ensures forall x :: s.samples * s.targetDimension <= x < |t| ==> Train(t, s, iterations)[x] == t[x]
    decreases iterations
  {
    if iterations > 0 {
      ApplyPairsKeepsTail(t, Pairs(s.samples), s);
      TrainKeepsTail(Pass(t, s), s, iterations - 1);
    }
  }

  /** One coordinate of the pair update, in place. */
  method ApplyElement(target: array<real>, p: nat, q: nat, v: real)
    requires p < target.Length && q < target.Length
    modifies target
    ensures target[..] == ElementStep(old(target[..]), p, q, v)
  {
    target[p] := Shear(target[p], target[q], v);
    target[q] := Shear(target[q], target[p], v);
  }

  /** The element loop of one pair: updates the rows starting at a and b in
      place. */
  method UpdatePair(target: array<real>, a: nat, b: nat, width: nat, v: real)
    requires a + width <= target.Length && b + width <= target.Length
    modifies target
    ensures target[..] == UpdateRowsFrom(old(target[..]), a, b, width, 0, v)
  {
    for k := 0 to width
      invariant UpdateRowsFrom(target[..], a, b, width, k, v) == UpdateRowsFrom(old(target[..]), a, b, width, 0, v)
    {
      ApplyElement(target, a + k, b + k, v);
    }
  }

  /** The update of the pair (i, j) on the target in place. */
  method UpdateSamplePair(target: array<real>, s: Setting, i: nat, j: nat)
    requires ValidSetting(s) && Fits(target[..], s) && i < s.samples && j < s.samples
    modifies target
    ensures target[..] == PairStep(old(target[..]), s, i, j)
  {
    var w, ow := s.targetDimension, s.originalDimension;
    RowInside(i, s.samples, w);
    RowInside(j, s.samples, w);
    RowInside(i, s.samples, ow);
    RowInside(j, s.samples, ow);
    var targetDot := Dot(Row(target[..], i, w), Row(target[..], j, w));
    var originalDot := Dot(Row(s.original, i, ow), Row(s.original, j, ow));
    var v := Variation(targetDot, originalDot, s);
    UpdatePair(target, i * w, j * w, w, v);
  }

  /** One pass: for every sample i, the inner loop over j = i, ..., n - 1. */
  method TrainingPass(target: array<real>, s: Setting)
    requires ValidSetting(s) && Fits(target[..], s)
    modifies target
    ensures target[..] == Pass(old(target[..]), s)
  {
    var n := s.samples;
    ghost var goal := Pass(target[..], s);
    for i := 0 to n
      invariant Fits(target[..], s)
      invariant ApplyPairs(target[..], Remaining(i, i, n), s) == goal
    {
      for j := i to n
        invariant Fits(target[..], s)
        invariant ApplyPairs(target[..], Remaining(i, j, n), s) == goal
      {
        RemainingStep(i, j, n);
        ghost var before := target[..];
        UpdateSamplePair(target, s, i, j);
        assert ApplyPairs(before, Remaining(i, j, n), s) == ApplyPairs(target[..], Remaining(i, j + 1, n), s);
      }
      assert Remaining(i, n, n) == Remaining(i + 1, i + 1, n);
    }
  }

  /** `fit_transform`: the target length must be a multiple of the target
      dimension, then the original length a multiple of the original
      dimension; either error leaves the target untouched. Otherwise the
      target ends up trained for the configured number of passes.
      A zero dimension, or more original samples than target rows, makes the
      source panic (`%` by zero, a slice out of range), hence the
      preconditions. */
  method FitTransform(model: SigmoidDecomposition, target: array<real>, targetDimension: nat,
                      original: seq<real>, originalDimension: nat, exp: real -> real)
    returns (r: Result<()>)
    requires targetDimension > 0
    requires target.Length % targetDimension == 0 ==> originalDimension > 0
    requires forall x :: exp(x) > 0.0
    requires target.Length % targetDimension == 0 && |original| % originalDimension == 0 &&
             DecompositionTraits.GetIterations(model.decomposition) > 0 ==>
             |original| / originalDimension * targetDimension <= target.Length
    modifies target
    ensures target.Length % targetDimension != 0 ==>
              r == Err(IncompatibleTargetLength(target.Length, targetDimension)) &&
              target[..] == old(target[..])
    ensures target.Length % targetDimension == 0 && |original| % originalDimension != 0 ==>
              r == Err(IncompatibleOriginalLength(|original|, originalDimension)) &&
              target[..] == old(target[..])
    ensures target.Length % targetDimension == 0 && |original| % originalDimension == 0 ==>
              var s := Setting(original, targetDimension, originalDimension, |original| / originalDimension,
                               DecompositionTraits.GetLearningRate(model.decomposition), exp);
              r == Ok(()) &&
              (DecompositionTraits.GetIterations(model.decomposition) == 0 ==> target[..] == old(target[..])) &&
              (DecompositionTraits.GetIterations(model.decomposition) > 0 ==>
                 Fits(old(target[..]), s) &&
                 target[..] == Train(old(target[..]), s, DecompositionTraits.GetIterations(model.decomposition)))
  {
    if target.Length % targetDimension != 0 {
      return Err(IncompatibleTargetLength(target.Length, targetDimension));
    }
    if |original| % originalDimension != 0 {
      return Err(IncompatibleOriginalLength(|original|, originalDimension));
    }
    var iterations := DecompositionTraits.GetIterations(model.decomposition);
    if iterations == 0 {
      return Ok(());
    }
    var s := Setting(original, targetDimension, originalDimension, |original| / originalDimension,
                     DecompositionTraits.GetLearningRate(model.decomposition), exp);
    ghost var initial := target[..];
    for pass := 0 to iterations
      invariant |target[..]| == |initial|
      invariant Train(target[..], s, iterations - pass) == Train(initial, s, iterations)
    {
      TrainingPass(target, s);
    }
    r := Ok(());
  }
}
