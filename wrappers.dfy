/** The Option type used for values the page may fail to supply. */
module Wrappers {
  /** `None` is a value that JavaScript's `isNaN` rejects: `NaN` from a failed
      parse, or `undefined` read from a missing array slot. */
  datatype Option<+T> = None | Some(value: T)
}
