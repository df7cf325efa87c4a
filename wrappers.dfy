/** The optional value used for absent request fields, absent props and absent
    response parts, and the lengths of time the editor's labels measure in. */
module Wrappers {

  datatype Option<+T> = None | Some(value: T)

  /** Milliseconds, the unit of a difference of two JavaScript `Date`s. */
  const MsPerMinute: int := 60000
  const MsPerHour: int := 3600000
  const MsPerDay: int := 86400000
}
