/**
 * Java-level values shared by the three components: references that may be
 * null, the exceptions the modelled code can raise, and Java's 32-bit
 * String.hashCode.
 */
module JavaTypes {

  /** A reference that may be null (None). */
  datatype Option<+T> = None | Some(value: T)

  /** The exceptions the modelled code raises. */
  datatype Exception = NullPointerException | UnsupportedOperationException

  /** The value of a Java expression that either yields a value or throws. */
  datatype Result<+T> = Value(value: T) | Thrown(exception: Exception)

  /** How a void Java method completed. */
  datatype Outcome = Normal | Threw(exception: Exception)

  /** The numeric value of a character, taken as a single UTF-16 code unit. */
  function CodeUnit(c: char): bv32
  {
    (c as int) as bv32
  }

  /**
   * String.hashCode: s[0]*31^(n-1) + ... + s[n-1], computed in wrapping
   * 32-bit arithmetic (the same bits as Java's signed int).
   */
  function StringHash(s: string): bv32
  {
    if s == [] then 0 else StringHash(s[..|s| - 1]) * 31 + CodeUnit(s[|s| - 1])
  }
}
