/** A value that Java code may leave null. */
module Wrappers {

  datatype Option<+T> = None | Some(value: T)
}
