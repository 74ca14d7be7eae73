/** The optional value used for the text sensor slot and for parse results. */
module Wrappers {

  datatype Option<+T> = None | Some(value: T)
}
