/** Small wrapper types and names shared by the modules of this model. */
module Common {

  /** A user id: the id of a user's profile document. */
  type UserId = string

  /** The result status of a match whose outcome both sides have confirmed. */
  const CONFIRMED := "confirmed"

  /** A value that may be absent: a missing document, a null field. */
  datatype Option<T> = None | Some(value: T)

  /** The outcome of an operation that can be rejected with an error. */
  datatype Result<T, E> = Ok(value: T) | Err(error: E)

  /** Number of occurrences of `x` in `s`. */
  function Occurrences<T(==)>(s: seq<T>, x: T): nat
  {
    if s == [] then 0
    else Occurrences(s[..|s| - 1], x) + (if s[|s| - 1] == x then 1 else 0)
  }
}
