/** The results of operations that may have nothing to return or may fail. */
module Wrappers {
  datatype Option<+T> = None | Some(value: T)
}
