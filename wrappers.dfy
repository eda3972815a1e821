/** The optional value used wherever the Java code has a nullable reference
    or a call that may throw instead of producing a value. */
module Wrappers {

  datatype Option<+T> = None | Some(value: T)
}
