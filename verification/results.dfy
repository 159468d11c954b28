/** Outcomes of the distance functions: a value, or the exception
    `string_distance_measures.py` would raise instead of returning. */
module Results {

  /** The two ways a distance computation can fail. */
  datatype Failure =
    | DivisionByZero     // a float division whose divisor is zero
    | AssertionViolated  // an `assert` statement whose condition is false

  datatype Result<+T> = Ok(value: T) | Err(failure: Failure)
}
