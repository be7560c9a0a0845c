/** Optional values and outcomes that carry either a value or an error.
    The chatbot's thrown exceptions are modelled as `Failure` values. */
module Results {

  datatype Option<+T> = None | Some(value: T)

  datatype Result<+R, +E> = Success(value: R) | Failure(error: E)
}
