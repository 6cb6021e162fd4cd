/** Option and Result values standing in for JavaScript's `null` and for a
    promise that either resolves with a value or rejects with an error. */
module Results {

  /** A value that may be absent (`undefined` or `null` on the JavaScript side). */
  datatype Option<+T> = None | Some(value: T)

  /** The settled state of a promise: resolved with a value or rejected with an error. */
  datatype Result<+T, +E> = Ok(value: T) | Err(error: E)
}
