/** The optional value used where the Java code falls back to sentinel values. */
module Wrappers {

  datatype Option<+T> = None | Some(value: T)
}
