/** Option and the HTTP-style response shared by every handler of the model. */
module Wrappers {

  datatype Option<T> = None | Some(value: T)

  /** What a handler or helper hands back: data with a success status, or an
      error status with the message the service puts in its `error` field. */
  datatype Response<D> = Success(status: int, data: D) | Failure(status: int, error: string)
}
