/** The optional-value datatype used for "no match" and "discarded" outcomes. */
module Wrappers {

  datatype Option<+T> = None | Some(value: T)

}
