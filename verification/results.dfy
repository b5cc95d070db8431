/** Optional values and failure-carrying results, used in place of PHP's NULL
    arguments and thrown exceptions. */
module Results {

  /** An optional value; `None` stands for a PHP argument left at NULL. */
  datatype Option<+T> = None | Some(value: T)

  /** The outcome of an operation that may throw: `Failure` carries the exception. */
  datatype Result<+T, +E> = Success(value: T) | Failure(error: E)
}
