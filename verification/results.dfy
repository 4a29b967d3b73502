/** Values shared by every module: the model's stand-ins for `undefined`,
    for a thrown JavaScript `Error`, and for an operation that either
    returns or throws. */
module Results {

  /** An optional value; `None` plays the part of `undefined`. */
  datatype Option<+T> = None | Some(value: T)

  /** A value or the error that was thrown instead of returning it. */
  datatype Result<+T, +E> = Ok(value: T) | Err(error: E)

  /** A thrown JavaScript `Error`, identified by its message. */
  datatype Error = Error(message: string)
}
