/** Stock wrapper types shared by every job model. */
module Common {

  /** A value that may be absent: JavaScript's `null` / `undefined`. */
  datatype Option<+T> = None | Some(value: T)

  /** The outcome of a step that the source may abort by throwing. */
  datatype Result<+T, +E> = Success(value: T) | Failure(error: E)
}
