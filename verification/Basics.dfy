/** Shared value types. */
module Basics {

  type Byte = n: nat | n < 256

  datatype Option<T> = None | Some(value: T)
}
