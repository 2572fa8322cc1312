/** Failure-compatible helper types shared by the model. */
module Wrappers {

  /** A value that may be absent (JavaScript `undefined`). */
  datatype Option<+T> = None | Some(value: T)

  /** The outcome of a call that may throw; `error` is the thrown error's message. */
  datatype Result<+T> = Ok(value: T) | Err(error: string)
}
