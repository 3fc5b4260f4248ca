/** The optional value used for the nullable fields of a lint warning and for
    the results of the reader that recovers a report from a checkstyle tree. */
module Wrappers {

  datatype Option<+T> = None | Some(value: T)
}
