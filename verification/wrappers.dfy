/** Small value wrappers shared by the model. */
module Wrappers {

  /** A value that may be absent, the model's stand-in for Python's `None`. */
  datatype Option<+T> = None | Some(value: T)

  /** The outcome of a Python call: it either returns a value or lets an
      exception escape to its caller. */
  datatype Attempt<+T> = Done(value: T) | Raised

  /** `p` is a prefix of `s`. */
  predicate IsPrefix<T(==)>(p: seq<T>, s: seq<T>) {
    |p| <= |s| && s[..|p|] == p
  }
}
