/** Small value wrappers shared by every module of the model. */
module Wrappers {

  /** A value that may be absent: SQL NULL, a missing map entry, a lookup with no row. */
  datatype Option<+T> = None | Some(value: T)

  /**
   * What an Express handler sends back: a status code with a JSON body.
   * `Ok` carries the handler's payload; `message` is "" when the JSON body
   * has no `message` field. `Err` is an early return with an error status and message.
   */
  datatype Response<+T> =
    | Ok(status: nat, message: string, body: T)
    | Err(status: nat, message: string)
}
