/** The optional value used for "no data frame loaded yet" and for a file that could not be read. */
module Wrappers {

  datatype Option<+T> = None | Some(value: T)
}
