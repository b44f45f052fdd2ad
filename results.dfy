/**
 * Option and Outcome: how the model represents a value that may be absent
 * (a JavaScript `undefined`) and the settled state of a promise returned by
 * a library or a remote service (resolved with a value, or rejected).
 */
module Results {

  datatype Option<+T> = None | Some(value: T)

  /** A promise that resolved with `value`, or one that rejected. */
  datatype Outcome<+T> = Success(value: T) | Failure

  /** The result of an operation of the model that can fail with an error it
      names. */
  datatype Result<+T, +E> = Ok(value: T) | Err(error: E)
}
