/** The optional value that the other modules return where the program returns `null`, `None` or nothing. */
module Wrappers {
  datatype Option<+T> = None | Some(value: T)
}
