/** Option and Result: the shapes in which the model returns "maybe a value" and
    "a value or the message of the exception that was raised". */
module Wrappers {

  datatype Option<+T> = None | Some(value: T)

  /** `Err(error)` stands for an exception whose text is `error`. */
  datatype Result<+T> = Ok(value: T) | Err(error: string)
}
