/** The optional value used wherever the booking script can come up empty
    (a failed parse, a missing dictionary key, a slot that was never chosen). */
module Wrappers {

  datatype Option<+T> = None | Some(value: T)
}
