/** Shared vocabulary of the backend model: identifiers, time and the
    Option/Result wrappers used for the source's error returns. */
module Common {

  /** Firestore document identifiers are strings. */
  type UserId = string
  type MatchId = string
  type MessageId = string

  /** A Socket.IO connection identifier. */
  type ConnId = nat

  /** A server timestamp, in whole seconds (the granularity of a JWT's `iat`). */
  type Time = nat

  datatype Option<+T> = None | Some(value: T)

  datatype Result<+T, +E> = Success(value: T) | Failure(error: E)
}
