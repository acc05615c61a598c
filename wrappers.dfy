/**
 * Optional values: a Java reference that may be `null`, a C++ lookup that
 * may miss; and results: a value, or the message of the exception thrown
 * instead; and the state a loop leaves when an exception may end it.
 */
module Wrappers {
  datatype Option<T> = None | Some(value: T)
  {
    predicate IsSome() { this.Some? }
  }

  datatype Result<T> = Ok(value: T) | Err(error: string)

  /** The state a loop leaves, and `false` when an exception cut it short. */
  datatype Applied<T> = Applied(value: T, ok: bool)
}
