/** The usual Some/None datatype, for readers that may fail. */
module Wrappers {

  datatype Option<+T> = None | Some(value: T)
}
