/** The optional value the system uses where Python returns `None`. */
module Wrappers {

  datatype Option<+T> = None | Some(value: T)
}
