/** Optional values and HTTP-shaped handler responses shared by every handler. */
module Outcomes {

  /** An optional value: a query parameter or a request-body field that may be absent. */
  datatype Option<+T> = None | Some(value: T)

  /** What a handler sends back: a success status with a body, or an error status
      with the message the error middleware puts in `{ message }`. */
  datatype Response<+T> = Ok(status: nat, body: T) | Fail(status: nat, message: string)
}
