/** Result types shared by the models: a C++ exception or a NULL return
    becomes `None` or `Err`. */
module Outcomes {
  datatype Option<+T> = None | Some(value: T)

  datatype Result<+T, +E> = Ok(value: T) | Err(error: E)
}
