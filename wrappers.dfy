/** Small value types shared by every module of the model. */
module Wrappers {

  /** An optional value: JavaScript's `null`/`undefined` versus a present value. */
  datatype Option<+T> = None | Some(value: T)

  /** The outcome of an operation that may throw: a value, or the message of the thrown Error. */
  datatype Result<+T, +E> = Success(value: T) | Failure(error: E)

  /** One octet of a Node.js Buffer. */
  newtype Byte = x: int | 0 <= x < 256

  /** `s` begins with `prefix` (JavaScript's String.prototype.startsWith). */
  predicate StartsWith(s: string, prefix: string) {
    |prefix| <= |s| && s[..|prefix|] == prefix
  }

  /** `s` finishes with `suffix` (the regular expressions /...suffix$/ of the source). */
  predicate EndsWith(s: string, suffix: string) {
    |suffix| <= |s| && s[|s| - |suffix|..] == suffix
  }
}
