/** Failure-carrying datatypes shared by the auto-tagger model. */
module Common {

  /** A value that may be absent, as Python's `None` default of an optional argument. */
  datatype Option<+T> = None | Some(value: T)

  /** Either a value or the reason the computation was refused. */
  datatype Result<+R, +E> = Success(value: R) | Failure(error: E)
}
