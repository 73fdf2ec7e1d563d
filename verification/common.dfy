/**
 * Shared vocabulary of the model: optional values, document identifiers,
 * timestamps and the JavaScript notion of a "truthy" request field.
 */
module Common {

  /** A value that may be absent (`undefined` / `null` in the source). */
  datatype Option<+T> = None | Some(value: T) {
    function GetOr(default: T): T {
      match this
      case Some(v) => v
      case None => default
    }
  }

  /** The outcome of a step that may fail with a message (a thrown error in the source). */
  datatype Result<+T> = Ok(value: T) | Err(error: string)

  /** A document identifier (a MongoDB ObjectId in its string form). */
  type Id = string

  /** Milliseconds since the epoch, as returned by `Date.now()`. */
  type Time = nat

  const MinuteMs: int := 60000
  const DayMs: int := 86400000

  predicate IsHexDigit(c: char) {
    ('0' <= c <= '9') || ('a' <= c <= 'f') || ('A' <= c <= 'F')
  }

  /**
   * What Mongoose's `ObjectId.isValid` accepts for a string: 24 hexadecimal
   * characters, or any 12-character string (read as 12 raw bytes). Handlers
   * that look a document up by a string that is not one of these fail with a
   * cast error.
   */
  predicate IsObjectId(s: string) {
    (|s| == 24 && forall i :: 0 <= i < 24 ==> IsHexDigit(s[i])) || |s| == 12
  }

  /** `!x` is false for a string request field: it is present and not "". */
  predicate Truthy(field: Option<string>) {
    field.Some? && field.value != ""
  }

  /**
   * The `$set` rule of an update for one path: a supplied value replaces the
   * stored one, an absent one leaves it as it was.
   */
  predicate SetPath<T(==)>(supplied: Option<T>, before: T, after: T) {
    if supplied.Some? then after == supplied.value else after == before
  }

  /** The same rule for a path the schema does not require, stored as an optional value. */
  predicate SetOptionalPath<T(==)>(supplied: Option<T>, before: Option<T>, after: Option<T>) {
    if supplied.Some? then after == supplied else after == before
  }

  /** The value a path holds after `$set`. */
  function SetValue<T(==)>(supplied: Option<T>, before: T): (r: T)
    ensures SetPath(supplied, before, r)
  {
    supplied.GetOr(before)
  }

  function SetOptionalValue<T(==)>(supplied: Option<T>, before: Option<T>): (r: Option<T>)
    ensures SetOptionalPath(supplied, before, r)
  {
    if supplied.Some? then supplied else before
  }

  /** The HTTP status a handler answers with. */
  type Status = int
}
