/** Failure-carrying wrappers shared by every module of the model. */
module Results {

  /** A value that may be absent (a JavaScript `undefined`, or a provider that threw). */
  datatype Option<+T> = None | Some(value: T)

  /** The outcome of an operation that may throw: `Err` carries the reason. */
  datatype Result<+T> = Ok(value: T) | Err(reason: string)
}
