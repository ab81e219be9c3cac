/** The optional value used where the game holds a pointer that may still be null. */
module Wrappers {

  datatype Option<T> = None | Some(value: T)
}
