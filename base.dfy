/** Optional values and results with an error, the two shapes Go expresses with nil pointers and
    `(value, error)` pairs. */
module Base {
  /** A Go pointer field such as `*string`: `None` is nil. */
  datatype Option<+T> = None | Some(value: T)

  /** A Go `(value, error)` return: exactly one of the two is meaningful. */
  datatype Result<+T, +E> = Ok(value: T) | Err(error: E)
}
