/** The optional value used for nullable references of the source (`T | null`). */
module Wrappers {

  datatype Option<+T> = None | Some(value: T)
}
