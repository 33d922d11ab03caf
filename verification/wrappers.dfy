/** The optional value used where the source produces `NaN` or leaves a field out. */
module Wrappers {

  datatype Option<+T> = None | Some(value: T)
}
