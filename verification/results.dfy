/** Failure-carrying wrappers shared by every module of the model. */
module Results {

  /** A value that may be absent: JavaScript's `null`/`undefined` on a record field. */
  datatype Option<+T> = None | Some(value: T)

  /** The outcome of a service call: a value, or the message of the thrown `Error`. */
  datatype Result<+T> = Ok(value: T) | Err(error: string)
}
