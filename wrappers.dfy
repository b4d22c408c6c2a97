/** Option and Result, used for the bot's lookups that may miss and its rejected commands. */
module Wrappers {
  datatype Option<+T> = None | Some(value: T)

  datatype Result<+T, +E> = Ok(value: T) | Err(error: E)
}
