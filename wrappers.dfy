/** Optional values and the outcome of one awaited service call. */
module Wrappers {

  /** An optional value; `None` stands for an absent (undefined or null) field. */
  datatype Option<+T> = None | Some(value: T)

  /** What an awaited service promise settles to: a value, or a rejection. */
  datatype Outcome<+T> = Resolved(value: T) | Rejected
}
