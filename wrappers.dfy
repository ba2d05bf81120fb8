/** Option and Result: how the model says "absent" and "failed" without preconditions. */
module Wrappers {

  datatype Option<+T> = None | Some(value: T)

  datatype Result<+T, +E> = Ok(value: T) | Err(error: E)

}
