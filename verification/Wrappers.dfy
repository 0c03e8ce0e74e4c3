/** The two result shapes every component uses: a Go pointer that may be nil, and a Go
    `(value, error)` pair. */
module Wrappers {

  /** A Go pointer: `None` is nil, `Some(v)` points at `v`. */
  datatype Option<+T> = None | Some(value: T) {
    function GetOr(default: T): T {
      if Some? then value else default
    }
  }

  /** A Go `(value, error)` pair in which exactly one half is meaningful. */
  datatype Result<+T, +E> = Ok(value: T) | Err(error: E)
}
