/** The outcome of a driver fetch that can fail. */
module Wrappers {
  datatype Option<T> = None | Some(value: T)
}
