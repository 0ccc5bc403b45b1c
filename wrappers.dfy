/** The optional value used wherever PHP yields `null` or `false` for "nothing". */
module Wrappers {

  datatype Option<+T> = None | Some(value: T)
}
