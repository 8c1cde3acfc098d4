/** The Option datatype used for "not found" and "rejected" outcomes. */
module Wrappers {

  datatype Option<+T> = None | Some(value: T)
}
