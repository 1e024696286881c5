/** Small failure-carrying datatypes shared by the rest of the model. */
module Base {

  /** A value that may be absent (JavaScript `undefined`). */
  datatype Option<+T> = None | Some(value: T)

  /** The outcome of a step that may throw. A thrown error is represented by
      its `message`, the only part of it that reaches the node's output. */
  datatype Result<+T> = Ok(value: T) | Err(message: string)
}
