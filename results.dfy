/** The two shapes the client's service calls and page state use for
    "maybe absent" and "succeeded or threw". */
module Results {

  /** A value that may be missing: `null`/`undefined` in the client. */
  datatype Option<+T> = None | Some(value: T)

  /** A call that either returns a value or throws an `Error` with a message. */
  datatype Result<+T> = Ok(value: T) | Err(error: string)
}
