/** Optional values and the HTTP-style error results every handler returns. */
module Wrappers {

  datatype Option<+T> = None | Some(value: T)

  /** An HTTPException: a status code and its detail text. */
  datatype ApiError = ApiError(status: int, detail: string)

  /** A handler either produces its value or raises an HTTPException. */
  datatype Result<+T> = Ok(value: T) | Err(error: ApiError)
}
