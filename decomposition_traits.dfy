/** The `Decomposition` and `IterativeDecomposition` getters. Every model
    wraps a `BasicIterativeDecomposition`, and the getters read through it to
    the wrapped `BasicDecomposition`. */
module DecompositionTraits {
  import opened Common
  import BasicDecomposition
  import BasicIterativeDecomposition

  type Basic = BasicDecomposition.BasicDecomposition
  type Iterative = BasicIterativeDecomposition.BasicIterativeDecomposition

  /** `get_basic_decomposition` for an iterative model. */
  function GetBasicDecomposition(d: Iterative): Basic
  {
    d.basicDecomposition
  }

  function GetModelName(d: Iterative): string
  {
    GetBasicDecomposition(d).modelName
  }

  function GetRandomState(d: Iterative): U64
  {
    GetBasicDecomposition(d).randomState
  }

  function IsVerbose(d: Iterative): bool
  {
    GetBasicDecomposition(d).verbose
  }

  function GetIterations(d: Iterative): nat
  {
    d.iterations
  }

  function GetLearningRate(d: Iterative): real
  {
    d.learningRate
  }

  /** `start_iterations`: the pass numbers 0, 1, ..., iterations - 1, in
      order (the progress bar around them is not modelled). */
  function StartIterations(d: Iterative): (passes: seq<nat>)
    ensures |passes| == GetIterations(d)
    ensures forall k :: 0 <= k < |passes| ==> passes[k] == k
  {
    seq(GetIterations(d), k => k)
  }

  /** The getters of a freshly built model return what `new` was given, with
      the defaults where an option was absent. */
  lemma GettersAfterNew(iterations: Option<nat>, learningRate: Option<real>, modelName: string,
                        randomState: Option<U64>, verbose: Option<bool>)
    requires modelName != []
    ensures var r := BasicIterativeDecomposition.New(iterations, learningRate, modelName, randomState, verbose);
            r.Ok? &&
            GetModelName(r.value) == modelName &&
            GetRandomState(r.value) == randomState.UnwrapOr(BasicDecomposition.DEFAULT_RANDOM_STATE) &&
            IsVerbose(r.value) == verbose.UnwrapOr(BasicDecomposition.DEFAULT_VERBOSE) &&
            GetIterations(r.value) == iterations.UnwrapOr(BasicIterativeDecomposition.DEFAULT_ITERATIONS) &&
            GetLearningRate(r.value) == learningRate.UnwrapOr(BasicIterativeDecomposition.DEFAULT_LEARNING_RATE) &&
            |StartIterations(r.value)| == iterations.UnwrapOr(BasicIterativeDecomposition.DEFAULT_ITERATIONS)
  {
  }
}
