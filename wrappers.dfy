/** The optional value used for "no command produced". */
module Wrappers {

  datatype Option<+T> = None | Some(value: T)
}
