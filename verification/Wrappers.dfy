/** The one option type that every model of this project shares. */
module Wrappers {

  datatype Option<+T> = None | Some(value: T)
}
