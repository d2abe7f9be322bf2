/** `BasicIterativeDecomposition`: a `BasicDecomposition` plus the number of
    training passes and the learning rate. */
module BasicIterativeDecomposition {
  import opened Common
  import BasicDecomposition

  const DEFAULT_ITERATIONS: nat := 100
  /** The f32 literal 0.01, taken as the exact real. */
  const DEFAULT_LEARNING_RATE: real := 0.01

  datatype BasicIterativeDecomposition = BasicIterativeDecomposition(
    basicDecomposition: BasicDecomposition.BasicDecomposition,
    iterations: nat,
    learningRate: real)

  /** `BasicIterativeDecomposition::new`: builds the basic record, passing on
      its error, and fills in the defaults for the iteration count and the
      learning rate. */
  function New(iterations: Option<nat>, learningRate: Option<real>, modelName: string,
               randomState: Option<U64>, verbose: Option<bool>)
    : (r: Result<BasicIterativeDecomposition>)
    ensures r.Err? <==> BasicDecomposition.New(modelName, randomState, verbose).Err?
    ensures r.Err? ==> r.error == BasicDecomposition.New(modelName, randomState, verbose).error
    ensures r.Ok? ==> r.value.basicDecomposition == BasicDecomposition.New(modelName, randomState, verbose).value
    ensures r.Ok? ==> r.value.iterations == (if iterations.Some? then iterations.value else DEFAULT_ITERATIONS)
    ensures r.Ok? ==> r.value.learningRate == (if learningRate.Some? then learningRate.value else DEFAULT_LEARNING_RATE)
  {
    var basic := BasicDecomposition.New(modelName, randomState, verbose);
    if basic.Err? then Err(basic.error)
    else Ok(BasicIterativeDecomposition(basic.value, iterations.UnwrapOr(DEFAULT_ITERATIONS),
                                        learningRate.UnwrapOr(DEFAULT_LEARNING_RATE)))
  }

  /** An empty model name is rejected here too. */
  lemma NewRejectsEmptyName(iterations: Option<nat>, learningRate: Option<real>,
                            randomState: Option<U64>, verbose: Option<bool>)
    ensures New(iterations, learningRate, [], randomState, verbose) == Err(EmptyModelName)
  {
  }

  /** With no options given, a named model runs 100 passes at rate 0.01,
      with random state 42, verbosely. */
  lemma NewDefaults(modelName: string)
    requires modelName != []
    ensures New(None, None, modelName, None, None) == Ok(BasicIterativeDecomposition(
              BasicDecomposition.BasicDecomposition(modelName, 42, true), 100, 0.01))
  {
  }
}
