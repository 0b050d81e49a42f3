/** Optional values and error results, used where the Go code returns a
    `*string` that may be nil, or an `error`. */
module Wrappers {

  /** A value that may be absent: the model of a Go `*string`. */
  datatype Option<+T> = None | Some(value: T) {

    /** The value, or `default` when absent (dereferencing with a fallback). */
    function GetOr(default: T): T {
      match this
      case Some(v) => v
      case None => default
    }
  }

  /** The outcome of an operation that returns `(value, error)` in Go. */
  datatype Result<+T, +E> = Ok(value: T) | Err(error: E)
}
