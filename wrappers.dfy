/** The optional value used where the page may or may not hold an element. */
module Wrappers {
  datatype Option<T> = None | Some(value: T)
}
