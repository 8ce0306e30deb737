/** Option and Result, used for Python's `None` and for the error replies
    (HTTP exceptions, alerts) of the league application. */
module Wrappers {

  datatype Option<+T> = None | Some(value: T)

  datatype Result<+R, +E> = Ok(value: R) | Err(error: E)
}
