/** The outcome of an operation that either produces a value or raises. */
module Results {

  /** `Ok(value)` when the Python code returns normally, `Err(error)` when it
      raises; the error value names which exception and why. */
  datatype Result<T, E> = Ok(value: T) | Err(error: E)
}
