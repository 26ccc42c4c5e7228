/** Failure-carrying wrappers: `Option` stands for a JavaScript `undefined`
    (or a NaN index) where a value may be absent, and `Result` for a call
    that either returns or throws. */
module Wrappers {

  datatype Option<+T> = None | Some(value: T)

  /** `Failure` carries the message of the error the JavaScript code throws. */
  datatype Result<+T> = Success(value: T) | Failure(error: string)
}
