/** Small value types shared by the store and the two UI components. */
module Common {

  /** An optional value: `None` stands for JavaScript's `null` / a missing storage key. */
  datatype Option<T> = None | Some(value: T)

  /** The settled value of an awaited call that may throw an `Error` with a message. */
  datatype Result<T, E> = Ok(value: T) | Err(error: E)

  /** The settled value of an awaited call that returns nothing but may throw. */
  datatype Outcome<E> = Done | Failed(error: E)

  /** The JavaScript regular-expression class `\d` (no `u` flag): the ASCII digits. */
  predicate IsDigit(c: char) {
    '0' <= c <= '9'
  }

  predicate AllDigits(s: string) {
    forall i :: 0 <= i < |s| ==> IsDigit(s[i])
  }

  /** The first code point that JavaScript stores as two UTF-16 code units (a surrogate pair). */
  const FirstAstral: char := '\U{10000}'

  /** JavaScript's `string.length`: the number of UTF-16 code units. */
  function Utf16Length(s: string): (n: nat)
    ensures |s| <= n <= 2 * |s|
    ensures AllDigits(s) ==> n == |s|
  {
    if s == [] then 0
    else (if s[0] >= FirstAstral then 2 else 1) + Utf16Length(s[1..])
  }

  /** JavaScript `message || fallback` on strings: the empty string is falsy. */
  function OrElse(message: string, fallback: string): (r: string)
    ensures r == message || r == fallback
    ensures fallback != "" ==> r != ""
  {
    if message != "" then message else fallback
  }
}
