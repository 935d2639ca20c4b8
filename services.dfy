/** How the two services compare on the same request. */
module Services {
  import opened Wrappers
  import opened Strings
  import opened Intake
  import Similarity
  import Age

  /**
   * Given the same libraries, a request that fails to decode is answered differently:
   * the look-alike service returns the empty gallery, the age service an error message.
   */
  lemma DecodeFailureAsymmetry(simEnv: Similarity.Env, ageEnv: Age.Env, c: Similarity.Classifier, m: Age.Regressor, input: Input)
    requires simEnv.lib == ageEnv.lib && TakeInput(simEnv.lib, input).Raised?
    ensures Similarity.PredictSpec(simEnv, Some(c), input) == Some([])
    ensures Age.Predict(ageEnv, Some(m), input) == Age.Message(Age.ErrorPrefix + TakeInput(simEnv.lib, input).error)
  {
  }

  /** The two services agree on which requests are turned away before decoding. */
  lemma SameEarlyReturns(simEnv: Similarity.Env, ageEnv: Age.Env, c: Similarity.Classifier, m: Age.Regressor, input: Input)
    requires simEnv.lib == ageEnv.lib
    ensures Similarity.PredictSpec(simEnv, Some(c), input).None? <==> Age.Predict(ageEnv, Some(m), input) == Age.NoneOut
    ensures TakeInput(simEnv.lib, input).ReturnEmpty? ==>
      Similarity.PredictSpec(simEnv, Some(c), input) == Some([]) && Age.Predict(ageEnv, Some(m), input) == Age.EmptyList
  {
  }
}
