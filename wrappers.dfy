/** Option and Result: how the model reports the cases the C++ code handles by
  * returning a null pointer, aborting with exit(1), or throwing from `.at()`. */
module Wrappers {
  datatype Option<T> = None | Some(value: T)

  datatype Result<T, E> = Ok(value: T) | Err(error: E)
}
