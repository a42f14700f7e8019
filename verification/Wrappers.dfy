/** Shared types: Go's nil values and missing map entries as options, bytes, and invoke IDs. */
module Wrappers {
  datatype Option<+T> = None | Some(value: T)

  type byte = x: int | 0 <= x < 256

  type InvokeID = string
}
