/** The optional value used for nullable state (`string | null`) and for
    "the callback was called with this value, or not at all". */
module Wrappers {

  datatype Option<+T> = None | Some(value: T)
}
