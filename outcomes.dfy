/** Success/failure wrappers used for the Go `(value, error)` return pairs. */
module Outcomes {

  /** A value that may be absent; `None` also stands for a nil `error`. */
  datatype Option<+T> = None | Some(value: T)

  /** A Go result pair: either a value (error == nil) or an error. */
  datatype Result<+T, +E> = Ok(value: T) | Err(error: E)
}
