/** Optional values and outcomes shared by every module of the model. */
module Wrappers {

  /** A value that may be missing: Python's `None` or an absent key. */
  datatype Option<+T> = None | Some(value: T)

  /** The outcome of a step that may raise: `Err` carries the text of the exception. */
  datatype Result<+T> = Ok(value: T) | Err(message: string)
}
