/** Option and Result values for the places where the scripts return
    "nothing", raise, or exit with an error. */
module Wrappers {

  datatype Option<+T> = None | Some(value: T)

  datatype Result<+T, +E> = Ok(value: T) | Err(error: E)
}
