/** The absent-or-present value used for Java's nullable references and `Optional`. */
module Wrappers {

  datatype Option<+T> = None | Some(value: T)
}
