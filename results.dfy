/** Optional values and success-or-error results shared by the request handlers. */
module Results {

  /** A body field that may be missing: `None` stands for JavaScript's `undefined`. */
  datatype Option<+T> = None | Some(value: T)

  /** What a handler answers: a value on success, or the error it reports to the client. */
  datatype Result<+T, +E> = Ok(value: T) | Err(error: E)
}
