/** `dot` and `normal_dot`: inner products over zipped sequences of features. */
module Utils {

  /** Sum of a sequence, as a right fold. Over reals it equals the
      left-to-right addition of `Iterator::sum`. */
  function Sum(s: seq<real>): real
  {
    if s == [] then 0.0 else s[0] + Sum(s[1..])
  }

  function Min(a: nat, b: nat): nat
  {
    if a <= b then a else b
  }

  /** `dot`: `left.zip(right).map(|(l, r)| l * r).sum()`. Zipping stops at
      the end of the shorter input. */
  function Dot(left: seq<real>, right: seq<real>): (r: real)
    ensures |left| == 0 || |right| == 0 ==> r == 0.0
  {
    if |left| == 0 || |right| == 0 then 0.0
    else left[0] * right[0] + Dot(left[1..], right[1..])
  }

  /** The element-wise products of the zipped inputs, by index. */
  function PairwiseProducts(left: seq<real>, right: seq<real>): seq<real>
  {
    seq(Min(|left|, |right|), i requires 0 <= i < Min(|left|, |right|) => left[i] * right[i])
  }

  /** `dot` is the sum of the products of the first min(|left|, |right|)
      pairs. */
  lemma {:induction false} DotIsSumOfPairwiseProducts(left: seq<real>, right: seq<real>)
    ensures Dot(left, right) == Sum(PairwiseProducts(left, right))
    decreases |left|
  {
    if |left| > 0 && |right| > 0 {
      var p, q := PairwiseProducts(left, right), PairwiseProducts(left[1..], right[1..]);
      assert |p[1..]| == |q|;
      assert forall i :: 0 <= i < |q| ==> p[1..][i] == q[i];
      assert p[1..] == q;
      DotIsSumOfPairwiseProducts(left[1..], right[1..]);
    }
  }

  /** `dot` is symmetric. */
  lemma {:induction false} DotSymmetric(left: seq<real>, right: seq<real>)
    ensures Dot(left, right) == Dot(right, left)
    decreases |left|
  {
    if |left| > 0 && |right| > 0 {
      DotSymmetric(left[1..], right[1..]);
    }
  }

  /** Elements of the longer input past the end of the shorter one are
      never read. */
  lemma {:induction false} DotTruncates(left: seq<real>, right: seq<real>)
    ensures Dot(left, right) == Dot(left[..Min(|left|, |right|)], right[..Min(|left|, |right|)])
    decreases |left|
  {
    if |left| > 0 && |right| > 0 {
      var m := Min(|left|, |right|);
      assert left[..m][1..] == left[1..][..m - 1];
      assert right[..m][1..] == right[1..][..m - 1];
      DotTruncates(left[1..], right[1..]);
    }
  }

  /** The normalised coordinates `(v - m) / s` that `normal_dot` maps each
      input through, zipped with mean and std. */
  function Normalize(v: seq<real>, mean: seq<real>, std: seq<real>): (r: seq<real>)
    requires forall i :: 0 <= i < |std| ==> std[i] != 0.0
    ensures |r| == Min(|v|, Min(|mean|, |std|))
    ensures forall i :: 0 <= i < |r| ==> r[i] == (v[i] - mean[i]) / std[i]
  {
    if |v| == 0 || |mean| == 0 || |std| == 0 then []
    else [(v[0] - mean[0]) / std[0]] + Normalize(v[1..], mean[1..], std[1..])
  }

  /** `normal_dot`: `dot` of the two inputs after normalisation. */
  function NormalDot(left: seq<real>, right: seq<real>, mean: seq<real>, std: seq<real>): real
    requires forall i :: 0 <= i < |std| ==> std[i] != 0.0
  {
    Dot(Normalize(left, mean, std), Normalize(right, mean, std))
  }

  /** `normal_dot` walks the four inputs together: it is 0 once any of
      them is exhausted, and otherwise the product of the first normalised
      coordinates plus `normal_dot` of the rests. */
  lemma NormalDotStep(left: seq<real>, right: seq<real>, mean: seq<real>, std: seq<real>)
    requires forall i :: 0 <= i < |std| ==> std[i] != 0.0
    ensures |left| == 0 || |right| == 0 || |mean| == 0 || |std| == 0 ==>
              NormalDot(left, right, mean, std) == 0.0
    ensures |left| > 0 && |right| > 0 && |mean| > 0 && |std| > 0 ==>
              NormalDot(left, right, mean, std)
              == ((left[0] - mean[0]) / std[0]) * ((right[0] - mean[0]) / std[0])
                 + NormalDot(left[1..], right[1..], mean[1..], std[1..])
  {
    if |left| > 0 && |right| > 0 && |mean| > 0 && |std| > 0 {
      var l, r := Normalize(left, mean, std), Normalize(right, mean, std);
      assert l[1..] == Normalize(left[1..], mean[1..], std[1..]);
      assert r[1..] == Normalize(right[1..], mean[1..], std[1..]);
    }
  }

  /** `normal_dot` is symmetric in its first two arguments. */
  lemma NormalDotSymmetric(left: seq<real>, right: seq<real>, mean: seq<real>, std: seq<real>)
    requires forall i :: 0 <= i < |std| ==> std[i] != 0.0
    ensures NormalDot(left, right, mean, std) == NormalDot(right, left, mean, std)
  {
    DotSymmetric(Normalize(left, mean, std), Normalize(right, mean, std));
  }

  /** With mean 0 and standard deviation 1 on every coordinate of both
      inputs, `normal_dot` is `dot`. */
  lemma NormalDotStandard(left: seq<real>, right: seq<real>, mean: seq<real>, std: seq<real>)
    requires |left| <= |mean| && |right| <= |mean| && |left| <= |std| && |right| <= |std|
    requires forall i :: 0 <= i < |mean| ==> mean[i] == 0.0
    requires forall i :: 0 <= i < |std| ==> std[i] == 1.0
    ensures NormalDot(left, right, mean, std) == Dot(left, right)
  {
    NormalizeStandard(left, mean, std);
    NormalizeStandard(right, mean, std);
  }

  lemma {:induction false} NormalizeStandard(v: seq<real>, mean: seq<real>, std: seq<real>)
    requires |v| <= |mean| && |v| <= |std|
    requires forall i :: 0 <= i < |mean| ==> mean[i] == 0.0
    requires forall i :: 0 <= i < |std| ==> std[i] == 1.0
    ensures Normalize(v, mean, std) == v
    decreases |v|
  {
    if |v| > 0 {
      NormalizeStandard(v[1..], mean[1..], std[1..]);
      assert [(v[0] - mean[0]) / std[0]] == [v[0]];
      assert v == [v[0]] + v[1..];
    }
  }

  /** `sigmoid`: 1 / (1 + e^-x). The exponential is floating-point arithmetic
      the model does not define, so it is a parameter; wherever it is
      positive the result is a probability strictly between 0 and 1. */
  function Sigmoid(x: real, exp: real -> real): (r: real)
    requires exp(-x) > 0.0
    ensures 0.0 < r < 1.0
  {
    SigmoidBounds(exp(-x));
    1.0 / (1.0 + exp(-x))
  }

  lemma SigmoidBounds(e: real)
    requires e > 0.0
    ensures 0.0 < 1.0 / (1.0 + e) < 1.0
  {
    assert 1.0 - 1.0 / (1.0 + e) == e / (1.0 + e);
  }

  /** `x -= y * v`. */
  function Shear(x: real, y: real, v: real): real
  {
    x - y * v
  }
}
