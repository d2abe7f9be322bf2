/** `BasicDecomposition`: the name, random state and verbosity every model
    carries. */
module BasicDecomposition {
  import opened Common

  const DEFAULT_RANDOM_STATE: U64 := 42
  const DEFAULT_VERBOSE: bool := true

  datatype BasicDecomposition = BasicDecomposition(modelName: string, randomState: U64, verbose: bool)

  /** `BasicDecomposition::new`: rejects an empty model name, otherwise
      stores the name and the supplied options, filling in the defaults. */
  function New(modelName: string, randomState: Option<U64>, verbose: Option<bool>)
    : (r: Result<BasicDecomposition>)
    ensures r.Err? <==> modelName == []
    ensures r.Err? ==> r.error == EmptyModelName
    ensures r.Ok? ==> r.value.modelName == modelName
    ensures r.Ok? ==> r.value.randomState == (if randomState.Some? then randomState.value else DEFAULT_RANDOM_STATE)
    ensures r.Ok? ==> r.value.verbose == (if verbose.Some? then verbose.value else DEFAULT_VERBOSE)
  {
    if modelName == [] then Err(EmptyModelName)
    else Ok(BasicDecomposition(modelName, randomState.UnwrapOr(DEFAULT_RANDOM_STATE), verbose.UnwrapOr(DEFAULT_VERBOSE)))
  }

  /** With no options given, a named model gets random state 42 and is
      verbose. */
  lemma NewDefaults(modelName: string)
    requires modelName != []
    ensures New(modelName, None, None) == Ok(BasicDecomposition(modelName, 42, true))
  {
  }
}
