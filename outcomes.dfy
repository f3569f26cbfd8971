/** Values shared by every component: optional values (JavaScript's `null` and
    `undefined`) and the outcome of a REST call or socket round trip, which the
    model receives as a parameter instead of performing the I/O itself. */
module Outcomes {

  datatype Option<+T> = None | Some(value: T)

  /** What a rejected request carries: `error.response?.data?.message` (empty
      when the server sent none) and `error.message`. */
  datatype Failure = Failure(serverMessage: string, message: string)

  /** `error.response?.data?.message || error.message` */
  function Describe(f: Failure): (s: string)
    ensures f.serverMessage != "" ==> s == f.serverMessage
    ensures f.serverMessage == "" ==> s == f.message
    ensures s == "" <==> f.serverMessage == "" && f.message == ""
  {
    if f.serverMessage != "" then f.serverMessage else f.message
  }

  /** A REST call or socket round trip either resolves with a value or rejects. */
  datatype Outcome<+T> = Ok(value: T) | Err(failure: Failure)
}
