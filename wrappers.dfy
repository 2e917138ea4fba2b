/** Optional values: JavaScript's `undefined`/`null` versus a present value. */
module Wrappers {
  datatype Option<+T> = None | Some(value: T)

  /** A string argument JavaScript treats as false: missing or empty. */
  predicate Falsy(s: Option<string>) {
    s.None? || s.value == ""
  }
}
