/** The optional value and the success-or-error value the rest of the model returns. */
module Wrappers {

  /** A value that may be missing: an unparsable date text, a table file that does not exist. */
  datatype Option<T> = None | Some(value: T)

  /** A value or the reason there is none: a refused submission. */
  datatype Result<T, E> = Success(value: T) | Failure(error: E)
}
