/**
 * Values every other module shares: optional values, results carrying an
 * error, and Java's nullable strings.
 */
module Common {

  /** A value that may be absent; also stands for a nullable Java reference. */
  datatype Option<+T> = None | Some(value: T)

  /** The outcome of an operation that may throw. */
  datatype Result<+R, +E> = Success(value: R) | Failure(error: E)

  /** A Java `String` reference: `None` is `null`. */
  type JString = Option<string>

  /** The exceptions the modelled code raises. */
  datatype Error =
    | ConfigError(message: string)      // CustomResourceConfigError
    | IllegalArgument(message: string)  // IllegalArgumentException
    | NullDereference(what: string)     // NullPointerException on a missing value

  /** Neither null nor the empty string. */
  predicate NonEmpty(s: JString) {
    s.Some? && |s.value| > 0
  }

  /** How Java's string concatenation prints a reference: null prints as "null". */
  function Str(s: JString): string {
    if s.Some? then s.value else "null"
  }
}
