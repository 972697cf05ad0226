/** An optional value, for the places where the build helper either has a
    value or raises. */
module Wrappers {

  datatype Option<+T> = None | Some(value: T)
}
