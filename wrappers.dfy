/** Optional values and results with an error, standing for JavaScript's
    `undefined`-able values and for thrown exceptions. */
module Wrappers {

  datatype Option<+T> = None | Some(value: T)

  datatype Result<+R, +E> = Success(value: R) | Failure(error: E)

  /** JavaScript truthiness of a value that is a string or absent:
      `undefined`, `null` and `""` are falsy. */
  predicate TruthyString(s: Option<string>)
  {
    s.Some? && s.value != ""
  }

  /** JavaScript truthiness of a number that may be absent: `undefined`
      and `0` are falsy. */
  predicate TruthyNumber(n: Option<int>)
  {
    n.Some? && n.value != 0
  }
}
