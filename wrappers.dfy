/** The optional value used for results that may be missing (a failed parse, a
    passed validation that has no error to report). */
module Wrappers {

  datatype Option<+T> = None | Some(value: T)
}
