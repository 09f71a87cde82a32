/** Option values, used wherever the program holds a nil-able reference or a missing map entry. */
module Wrappers {

  datatype Option<+T> = None | Some(value: T)
}
