/** `random_init` on a mutable slice: every weight is overwritten with a
    pseudo-random value in [-1, 1) that depends only on the random state and
    the weight's position. */
module RandomInit {
  import opened Common

  /** The two foreign generators the crate calls: `vec_rand::splitmix64`
      and `vec_rand::random_f32`. Their definitions are not part of this
      model, so they travel as a record of functions. */
  datatype Rng = Rng(splitmix64: U64 -> U64, randomF32: U64 -> real)

  /** `random_f32` returns a value in [0, 1). */
  predicate UnitInterval(rng: Rng)
  {
    forall x: U64 :: 0.0 <= rng.randomF32(x) < 1.0
  }

  /** The value weight i receives: 2 * random_f32(splitmix64(s + s * i)) - 1,
      with the u64 arithmetic wrapping. */
  function InitialValue(rng: Rng, randomState: U64, i: nat): real
  {
    2.0 * rng.randomF32(rng.splitmix64(
      WrappingAdd(randomState, WrappingMul(randomState, i % U64_MODULUS)))) - 1.0
  }

  /** Every initial value lies in [-1, 1). */
  lemma InitialValueInRange(rng: Rng, randomState: U64, i: nat)
    requires UnitInterval(rng)
    ensures -1.0 <= InitialValue(rng, randomState, i) < 1.0
  {
    var x := rng.splitmix64(WrappingAdd(randomState, WrappingMul(randomState, i % U64_MODULUS)));
    assert 0.0 <= rng.randomF32(x) < 1.0;
  }

  /** Positions whose indices agree modulo 2^64 receive the same value, so
      the initial values repeat with that period. This reads the index
      arithmetic as wrapping, as a release build does; with overflow checks
      on, the source panics instead. */
  lemma InitialValuePeriodic(rng: Rng, randomState: U64, i: nat)
    ensures InitialValue(rng, randomState, i + U64_MODULUS) == InitialValue(rng, randomState, i)
  {
    assert (i + U64_MODULUS) % U64_MODULUS == i % U64_MODULUS;
  }

  /** The weights `random_init` produces for a slice of the given length. */
  function InitialWeights(rng: Rng, randomState: U64, length: nat): (w: seq<real>)
    ensures |w| == length
  {
    seq(length, i requires 0 <= i => InitialValue(rng, randomState, i))
  }

  /** `random_init`: overwrites every weight with its initial value. */
  method RandomInit(weights: array<real>, rng: Rng, randomState: U64)
    modifies weights
    ensures forall i :: 0 <= i < weights.Length ==>
              weights[i] == InitialValue(rng, randomState, i)
    ensures weights[..] == InitialWeights(rng, randomState, weights.Length)
  {
    for i := 0 to weights.Length
      invariant forall k :: 0 <= k < i ==> weights[k] == InitialValue(rng, randomState, k)
    {
      weights[i] := InitialValue(rng, randomState, i);
    }
  }
}
