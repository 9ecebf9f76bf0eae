/** Optional values and results with an error, for the places where the
    extension uses `undefined` or rejects a promise with an `Error`. */
module Wrappers {

  datatype Option<+T> = None | Some(value: T)

  datatype Result<+T, +E> = Ok(value: T) | Err(error: E)
}
