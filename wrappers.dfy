/** Small failure-compatible wrappers shared by the save engine and the menu. */
module Wrappers {

  /** A value that may be absent: C#'s `null` or `Nullable<T>` without a value. */
  datatype Option<+T> = None | Some(value: T)

  /** The result of a call that may throw: either it returns normally or an exception escapes it. */
  datatype Outcome<+T> = Returned(value: T) | Threw
}
