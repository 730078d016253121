/** Option and Result, used for nil pointers and for Go's (value, error) returns. */
module Wrappers {

  /** A value that may be absent: a Go pointer that may be nil. */
  datatype Option<+T> = None | Some(value: T)

  /** Either a value or an error, in place of Go's (value, error) pair. */
  datatype Result<+T, +E> = Ok(value: T) | Err(error: E)
}
