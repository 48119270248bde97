/** The optional value the engine returns where Python falls through and returns None. */
module Wrappers {

  datatype Option<+T> = None | Some(value: T)
}
