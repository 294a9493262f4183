/** The optional value used where the program returns a pointer that may be null
    or an iterator that may be `end()`. */
module Wrappers {

  datatype Option<+T> = None | Some(value: T)
}
