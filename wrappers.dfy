/** The optional value used where the Java code has null or an exception path. */
module Wrappers {
  datatype Option<+T> = None | Some(value: T)
}
