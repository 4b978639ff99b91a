/** A value that may be absent: JavaScript's `null` for a missing storage
    record, an unset `endTime` or `lastVisit`, or a session without a variant. */
module Wrappers {

  datatype Option<+T> = None | Some(value: T)
}
