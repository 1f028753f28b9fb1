/** Values that may be absent, used where the program has null or undefined. */
module Wrappers {
  datatype Option<+T> = None | Some(value: T)
}
