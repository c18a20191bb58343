/** Option, used wherever the source has a value that may be null, undefined or absent. */
module Wrappers {

  datatype Option<+T> = None | Some(value: T)
}
