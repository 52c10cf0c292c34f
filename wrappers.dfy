/** Result type for the exceptions models/graphLayer.py raises (`ValueError`, `IndexError`). */
module Wrappers {

  datatype Option<+T> = None | Some(value: T)

  datatype Result<+T> = Ok(value: T) | Err(msg: string)
}
