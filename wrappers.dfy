/** The Option datatype used for values the source represents with a null pointer. */
module Wrappers {

  datatype Option<+T> = None | Some(value: T)

}
