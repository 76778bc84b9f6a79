/** Values shared by every handler: optional values, HTTP replies, ids and time. */
module Common {

  datatype Option<+T> = None | Some(value: T)

  /** A database id. Every collection that is never deleted from is a sequence indexed by it. */
  type Id = nat

  /** Milliseconds since the epoch, as `Date.now()` and `new Date()` give them. */
  type Time = int

  /** The JSON answer of a route: a success status with its body, or an error status with its message. */
  datatype Reply<+T> = Ok(status: int, value: T) | Fail(status: int, message: string)

  /** The outcome of a handler's guard chain: go on with a value, or answer with an error status and message. */
  datatype Check<+T> = Pass(value: T) | Reject(status: int, message: string)

  /** A handler that only answers (no body worth modelling beyond the status). */
  datatype Done = Done

  /** `x || ""` on an optional string field: a missing value reads as the empty string. */
  function OrEmpty(o: Option<string>): string
  {
    if o.Some? then o.value else ""
  }
}
