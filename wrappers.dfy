/** The optional value used wherever the program reads `null` or swallows an exception. */
module Wrappers {

  datatype Option<+T> = None | Some(value: T)
}
