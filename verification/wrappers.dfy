/** The optional value used wherever the login screen reads a field that may
    be absent (`undefined`/`null`) or a lookup that may find nothing. */
module Wrappers {

  datatype Option<+T> = None | Some(value: T)
}
