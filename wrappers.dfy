/** Option and Result: the two-variant values that replace the source's
    `undefined`, `-1` sentinels and thrown TypeErrors. */
module Wrappers {

  datatype Option<+T> = None | Some(value: T)

  datatype Result<+T, +E> = Ok(value: T) | Err(error: E)
}
