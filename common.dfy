/** Optional values, results, and the Python exceptions that the extraction code can raise. */
module Common {

  /** A value that may be absent: Python's `None`, JavaScript's `null`/`undefined`. */
  datatype Option<+T> = None | Some(value: T)

  /** The outcome of a computation that may raise. */
  datatype Result<+T, +E> = Success(value: T) | Failure(error: E)

  /** The exceptions the model tracks when one product container is extracted. The
    * `ValueError` that a price beyond the float range causes is not modelled (see README). */
  datatype Raised =
    | ZeroDivisionError
      /** A call to a method the scraper class does not define. */
    | AttributeError(attribute: string)

  function Min(a: int, b: int): int { if a <= b then a else b }
}
