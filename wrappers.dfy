/** Option and Result, the two shapes every other module uses for "absent"
    (JavaScript `undefined`) and for an operation that ends the process. */
module Wrappers {

  datatype Option<+T> = None | Some(value: T)

  datatype Result<+R, +E> = Ok(value: R) | Err(error: E)
}
