/** Shared result shapes for the hotel booking client.

  - `Option<T>` stands for a TypeScript optional property or a nullable value.
  - `Reply<T>` is what a call to the remote API produced: the decoded body,
    or a failure of any kind (transport, non-2xx status). The client never
    distinguishes between failure kinds, so `Fail` carries nothing.
  - `Result<T>` is what an operation hands back to its caller: a value, or
    the error the observable was completed with.
 */
module Outcomes {

  datatype Option<+T> = None | Some(value: T) {
    function GetOr(default: T): T {
      match this
      case Some(v) => v
      case None => default
    }
  }

  datatype Reply<+T> = Ok(value: T) | Fail

  /** `NotFound` carries the message of the `Error` the source throws;
      `Remote` is a gateway failure passed on to the caller (its text is
      formatted by an error handler that is not modelled). */
  datatype Error = NotFound(message: string) | Remote

  datatype Result<+T> = Success(value: T) | Failure(error: Error)
}
