/** Failure-carrying values shared by the whole model. */
module Wrappers {

  /** A Go pointer that may be nil: `None` is nil. */
  datatype Option<+T> = None | Some(value: T)

  /** A value or an error, for Go calls that return exactly one of the two. */
  datatype Result<+T, +E> = Ok(value: T) | Err(error: E)

  /** A Go `([]T, error)` return. A Go slice here is nil exactly when it is
      empty (it is built by `append` or decoded from a repeated protobuf
      field), so `data == []` stands for a nil slice; `err` is the error's
      text, `None` for a nil error. Both halves may be present at once. */
  datatype Fetched<+T> = Fetched(data: seq<T>, err: Option<string>)
}
