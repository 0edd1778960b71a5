/** Shared vocabulary of the backend model: optional values, the service-layer
    error (HTTP status code plus machine-readable code) and JSON payload values. */
module Common {

  datatype Option<+T> = None | Some(value: T)

  /** An `AppError(code, message, status_code)` as the services raise it; the
      human-readable message is not modelled. */
  datatype AppError = AppError(status: nat, code: string)

  datatype Result<+T> = Ok(value: T) | Err(error: AppError)

  /** Row identifiers (UUID strings in the database). */
  type Id = string

  /** An abstract, monotone clock reading. */
  type Time = nat

  /** The JSON values a notification payload carries. */
  datatype Json = JStr(str: string) | JInt(num: int) | JNull

  type Payload = map<string, Json>

  /** Concatenation is associative; long proofs call this instead of
      rediscovering it element by element. */
  lemma AppendAssoc<T>(a: seq<T>, b: seq<T>, c: seq<T>)
    ensures (a + b) + c == a + (b + c)
  {
  }
}
