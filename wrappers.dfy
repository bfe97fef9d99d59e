/** The optional value used for nullable results. */
module Wrappers {

  datatype Option<+T> = None | Some(value: T)
}
