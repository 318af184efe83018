/** Shared result types of the delivery API: optional values, the HTTP reply
    envelope every handler answers with, and JavaScript truthiness of a
    request field. */
module Outcomes {

  /** A value that may be absent (`undefined` / `null` / SQL NULL). */
  datatype Option<+T> = None | Some(value: T)

  /** The outcome of an INSERT into the `users` table: the new table, or
      the constraint that refused the row. */
  datatype Result<+T, +E> = Success(value: T) | Failure(error: E)

  /** The HTTP status codes the core answers with on its error paths. */
  const BadRequest := 400
  const Unauthorized := 401
  const Forbidden := 403
  const NotFound := 404

  /** What a handler sends back: `{success: true, ...payload}`, or an error
      status with the `{success: false, message}` envelope. */
  datatype Reply<+T> = Ok(payload: T) | Reject(status: int, message: string)

  /** JavaScript truthiness of an optional string field of a request:
      present and not the empty string. */
  predicate Supplied(field: Option<string>)
  {
    field.Some? && field.value != ""
  }
}
