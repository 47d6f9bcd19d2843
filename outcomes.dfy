/** Optional values and the two failure kinds of the billing server. */
module Outcomes {

  datatype Option<T> = None | Some(value: T)

  /** `StorageError`: an sqlite statement failed (the promise rejected).
      `TypeError`: a JavaScript TypeError raised while reading a request
      body of an unexpected shape. */
  datatype Error = StorageError | TypeError

  datatype Result<T> = Ok(value: T) | Err(error: Error)
}
