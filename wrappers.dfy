/** Option and Result, the failure-carrying values the other modules return
    in place of the original program's panics and process exits. */
module Wrappers {

  datatype Option<+T> = None | Some(value: T)

  datatype Result<+T, +E> = Ok(value: T) | Err(error: E)
}
