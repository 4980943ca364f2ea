/** Result and option types shared by the whole model. */
module Wrappers {
  datatype Option<+T> = None | Some(value: T)

  /** A Go `(value, error)` pair. The model keeps only whether an error was returned,
      except where the kind of error decides what a caller does next. */
  datatype Result<+T> = Ok(value: T) | Err
}
