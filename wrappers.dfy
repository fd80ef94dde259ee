/** Option and Result: the model's stand-ins for nullable results and for the
    exceptions the C++ code throws. */
module Wrappers {

  datatype Option<+T> = None | Some(value: T)

  datatype Result<+R, +E> = Ok(value: R) | Err(error: E)
}
