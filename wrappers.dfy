/** The optional value used for the session's anchors ("not set yet"). */
module Wrappers {

  datatype Option<+T> = None | Some(value: T)
}
