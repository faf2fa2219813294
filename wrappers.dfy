/** Option and Result, the two wrappers the model uses for
    JavaScript's `null`/`undefined` and for calls that either answer or throw. */
module Wrappers {

  datatype Option<+T> = None | Some(value: T)

  datatype Result<+R, +E> = Ok(value: R) | Err(error: E)
}
