/** Option and Result values, standing for JavaScript's `T | null` and for
    "returned a value or threw". */
module Wrappers {

  datatype Option<+T> = None | Some(value: T)

  datatype Result<+T, +E> = Ok(value: T) | Err(error: E)
}
