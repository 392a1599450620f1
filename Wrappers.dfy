/** The optional result an analyzer produces for one node: a reported
    diagnostic, or nothing. */
module Wrappers {

  datatype Option<+T> = None | Some(value: T)
}
