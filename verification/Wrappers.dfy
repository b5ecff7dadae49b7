/** Shared value types. */
module Wrappers {

  datatype Option<T> = None | Some(value: T)
}
