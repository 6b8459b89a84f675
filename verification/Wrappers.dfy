/** The two result shapes shared by every module. */
module Wrappers {

  /** A value that may be missing (Python's None, a row that was not found). */
  datatype Option<+T> = None | Some(value: T)

  /** A value, or the error the source raises instead of it. */
  datatype Result<+T, +E> = Success(value: T) | Failure(error: E)
}
