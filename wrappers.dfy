/** The optional value used for absent request fields, failing collaborators
    and "not found" scan results. */
module Wrappers {

  datatype Option<+T> = None | Some(value: T)
}
