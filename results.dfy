/** Optional values and success-or-failure results, used for the
    exceptions, rejected promises and missing values of the modelled code. */
module Results {

  datatype Option<+T> = None | Some(value: T)

  datatype Result<+T, +E> = Success(value: T) | Failure(error: E)
}
