/** Option and Result, used wherever the Go code returns `(value, ok)` or `(value, error)`. */
module Wrappers {

  /** `None` stands for Go's `(zero value, false)`. */
  datatype Option<+T> = None | Some(value: T)

  /** A Go `(value, error)` pair where exactly one side is meaningful. */
  datatype Result<+T, +E> = Ok(value: T) | Err(error: E)
}
