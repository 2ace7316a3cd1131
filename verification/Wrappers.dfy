/** The Some/None datatype used where the modelled programs have null or undefined. */
module Wrappers {
  datatype Option<+T> = None | Some(value: T)
}
