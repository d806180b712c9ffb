/** The optional value used for "found at index k" and for an empty cache slot. */
module Wrappers {

  datatype Option<+T> = None | Some(value: T)

}
