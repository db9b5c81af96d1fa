/** Optional values and results with an error, for the source's `(T, error)`
    returns and its fatal option errors. */
module Wrappers {

  datatype Option<T> = None | Some(value: T)

  datatype Result<T, E> = Ok(value: T) | Err(error: E)
}
