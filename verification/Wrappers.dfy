/** Optional values and transaction outcomes shared by every model. */
module Wrappers {
  datatype Option<+T> = None | Some(value: T)

  /** A transaction either commits a new state or is rolled back with an error code. */
  datatype Outcome<+S> = Committed(state: S) | Aborted(code: string)
}
