/** Option and Result types used by the configuration resolver. */
module Wrappers {

  /** `None` stands for a macro that is left undefined (which is not the same as defined to 0). */
  datatype Option<+T> = None | Some(value: T)

  /** The outcome of an operation that may abort, carrying either a value or an error. */
  datatype Result<+R, +E> = Success(value: R) | Failure(error: E)
}
