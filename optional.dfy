/** Option and Result values for Python's `None` and raised exceptions. */
module Optional {

  /** `None` stands for Python's `None` (or a pandas missing value). */
  datatype Option<+T> = None | Some(value: T)

  /** The value of a computation that may raise instead of returning. */
  datatype Result<+R, +E> = Success(value: R) | Failure(error: E)
}
