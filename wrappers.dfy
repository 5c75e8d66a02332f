/** The optional value used for table lookups and the sink's fault schedule. */
module Wrappers {

  datatype Option<+T> = None | Some(value: T)
}
