/** Optional values and results with an error, for lookups that may find
    nothing and for the one crash of the scripts that the model keeps. */
module Results {

  datatype Option<T> = None | Some(value: T)

  datatype Result<T, E> = Success(value: T) | Failure(error: E)
}
