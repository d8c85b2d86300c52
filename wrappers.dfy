/** The Option datatype used for Go's optional `error` results. */
module Wrappers {

  datatype Option<+T> = None | Some(value: T)
}
