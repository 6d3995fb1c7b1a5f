/** Helper datatypes shared by the other modules. */
module Wrappers {

  /** An optional value: used for Go's `error` (nil or a message) and for a
      result a run may never produce. */
  datatype Option<+T> = None | Some(value: T)
}
