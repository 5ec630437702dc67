/** Failure-carrying wrappers used in place of Python's `None` and raised exceptions. */
module Wrappers {

  /** An optional value: Python's `Optional[...]` argument, or a lookup that may miss. */
  datatype Option<+T> = None | Some(value: T)

  /** The outcome of a store operation: its value, or the error it raises. */
  datatype Result<+T, +E> = Success(value: T) | Failure(error: E)
}
