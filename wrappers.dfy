/** Option and Result, the two shapes every handler of the server returns in:
    a value that may be absent, and the `ReturnData` union of
    server/src/types/generic.d.ts (success with data, or failure with a message). */
module Wrappers {

  datatype Option<+T> = None | Some(value: T)

  datatype Result<+T, +E> = Ok(value: T) | Err(error: E)
}
