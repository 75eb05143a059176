/** Option, for values the source may leave absent (a missing key, an unset flag). */
module Wrappers {

  datatype Option<+T> = None | Some(value: T)
}
