// Option and Result, used wherever the Python code yields None or raises an
// exception that nothing catches (which ends the whole script run).
module Wrappers {

  datatype Option<+T> = None | Some(value: T)

  datatype Result<+T> = Ok(value: T) | Err(reason: string)
}
