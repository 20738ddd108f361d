/** Values shared by every part of the model: optional JavaScript values,
    a small JSON value type, the errors a lookup can fail with, the
    outcome of a lookup, and the reply of an HTTP request. */
module Outcomes {

  /** An optional value. `None` stands for JavaScript's `undefined` (and
      `null`, which no decision in the model tells apart from it). */
  datatype Option<+T> = None | Some(value: T)

  /** A JSON value as a provider sends it. Numbers are integers here. */
  datatype Json =
    | JNull
    | JBool(b: bool)
    | JNumber(n: int)
    | JString(s: string)
    | JArray(elements: seq<Json>)
    | JObject(fields: map<string, Json>)

  /** Why a single provider lookup failed. */
  datatype Failure =
      /** The HTTP client rejected: no connection, timeout, or a status it refuses. */
    | RequestFailed(reason: string)
      /** The reply arrived with a status other than 200; the code is the one the
          error message interpolates (absent when the field read does not exist). */
    | WrongResponseCode(code: Option<int>)
      /** The payload says there is no book for this ISBN. */
    | NoBooksFound(isbn: string)
      /** The payload counts books but lists no volume. */
    | NoVolumeInfo(isbn: string)
      /** A property was read from `undefined` while handling the reply. */
    | TypeError

  /** The settled state of one lookup: fulfilled with a value or rejected with an error. */
  datatype Outcome<+T> = Ok(value: T) | Err(error: Failure)

  /** What the HTTP client hands to the reply handler for one request. */
  datatype Reply<+T> =
    | NoResponse(reason: string)
    | Response(status: int, data: T)
}
