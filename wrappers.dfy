/** The optional value used for absent request fields, query parameters and lookups. */
module Wrappers {

  datatype Option<+T> = None | Some(value: T)
}
