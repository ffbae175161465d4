/** Shared vocabulary of the route handlers and the client hooks: optional
    values, HTTP responses with their status codes, and the JavaScript notion
    of a "truthy" request field. */
module Common {

  datatype Option<+T> = None | Some(value: T)

  /** What a route handler answers: a JSON body with status 200, or an error
      status with the `error` message the handler puts in its JSON body. */
  datatype Response<+T> = Ok(body: T) | Error(status: int, message: string)

  /** The content generator's answer to a prompt: its text, or a failure
      (an error or a timeout of the external call). */
  datatype Generation = GenerationFailed | Generated(text: string)

  const BadRequest: int := 400
  const NotFound: int := 404
  const ServerError: int := 500

  /** A request field that is a string and is truthy in JavaScript: a
      missing field and "" fail the test. A field of another JSON type is not
      representable as an `Option<string>`; the handlers read it as missing. */
  predicate Present(field: Option<string>) {
    field.Some? && field.value != ""
  }

  /** A JavaScript string's `length`: it counts UTF-16 code units, so a
      character outside the Basic Multilingual Plane counts twice. */
  function JsLength(s: string): nat {
    if s == [] then 0 else JsLength(s[..|s| - 1]) + (if s[|s| - 1] as int > 0xFFFF then 2 else 1)
  }

  /** A string of Basic Multilingual Plane characters has as many code units as characters. */
  lemma {:induction false} BmpLength(s: string)
    requires forall i :: 0 <= i < |s| ==> s[i] as int <= 0xFFFF
    ensures JsLength(s) == |s|
  {
    if s != [] {
      BmpLength(s[..|s| - 1]);
    }
  }

  /** `typeof x === 'string' && x.length === 5`: the shape of a user-session id. */
  predicate FiveChars(field: Option<string>) {
    field.Some? && JsLength(field.value) == 5
  }

  function Min(a: int, b: int): int {
    if a <= b then a else b
  }

  function Max(a: int, b: int): int {
    if a <= b then b else a
  }
}
