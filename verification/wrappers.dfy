/** The optional value used for "no submap selected" and "no start request". */
module Wrappers {

  datatype Option<+T> = None | Some(value: T)
}
