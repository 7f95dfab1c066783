/** Failure-carrying datatypes shared by every module. */
module Base {

  datatype Option<+T> = None | Some(value: T)

  /** The result of a Go function that returns a value or an error. */
  datatype Try<+T, +E> = Ok(value: T) | Fail(error: E)
}
