/** Option and a small failure-carrying result, used for Java's nullable references and error returns. */
module Wrappers {

  /** A nullable reference: `None` is Java's `null`. */
  datatype Option<+T> = None | Some(value: T)

  /** The service layer's `Result`: `Result.ok(data)` or `Result.fail(message)`. */
  datatype Result<+T> = Ok(data: T) | Fail(message: string)
}
