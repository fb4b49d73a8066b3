/** The optional value used for SQL NULL columns and for "no match" results. */
module Wrappers {

  datatype Option<+T> = None | Some(value: T)

}
