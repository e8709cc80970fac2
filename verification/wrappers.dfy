/** Optional values and the outcome of one network call. */
module Wrappers {

  /** A value that may be absent: JavaScript's `null`/`undefined` for one field or lookup. */
  datatype Option<+T> = None | Some(value: T)

  /** The settled outcome of one HTTP call through the API client: the decoded
      response body, or a rejected promise (transport error or non-2xx status). */
  datatype Response<+T> = Success(data: T) | Failure
}
