/** The two result shapes of the model: a value that can be missing (an SQL NULL,
    a Go nil), and a call that can fail (a Go error, an SQL exception). */
module Wrappers {

  datatype Option<+T> = None | Some(value: T)

  datatype Result<+T, +E> = Ok(value: T) | Err(error: E)
}
