/** An optional value: a command-line argument that was given, or not. */
module Wrappers {

  datatype Option<+T> = None | Some(value: T)
}
