/** Small failure-carrying wrappers shared by the other modules. */
module Common {

  /** A value that may be absent: a JSON field that is missing or null. */
  datatype Option<T> = None | Some(value: T)

  /** The outcome of an operation that can throw: `Err` is the thrown error. */
  datatype Result<T, E> = Ok(value: T) | Err(error: E)
}
