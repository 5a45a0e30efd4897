/** The optional-value datatype used for "no answer yet" and for parses that can fail. */
module Wrappers {

  datatype Option<+T> = None | Some(value: T)
}
