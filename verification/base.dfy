/** Shared vocabulary of the backend model: identifiers, clock values,
    optional values, request fields that may be omitted, and the HTTP
    error outcomes the endpoints raise. */
module Base {

  /** Primary keys. The backend uses random UUIDs; the model draws them
      from a counter held in the store, which keeps them fresh. */
  type Id = nat

  /** Wall-clock instants, passed in by the caller as `now`. */
  type Time = nat

  datatype Option<+T> = None | Some(value: T)

  /** A request field that the sender may leave out. `Unset` means the
      key is absent from the JSON body (so the schema default applies, or
      `exclude_unset` skips it); `Set(v)` means it was sent, possibly as
      an explicit null when `T` is itself an `Option`. */
  datatype Field<+T> = Unset | Set(value: T)

  /** The HTTP errors the backend produces. `ServerError` stands for an
      exception a handler does not catch: a database constraint violation
      or a validation error raised inside the handler. */
  datatype HttpError =
    | BadRequest      // 400
    | Unauthorized    // 401
    | Forbidden       // 403
    | NotFound        // 404
    | Unprocessable   // 422, FastAPI request validation
    | ServerError     // 500, rejected by PostgreSQL

  datatype Result<+T> = Ok(value: T) | Err(error: HttpError)

  /** A query parameter's value, or its declared default when the
      request leaves it out. */
  function GetOr<T>(o: Option<T>, default: T): T
  {
    match o
    case None => default
    case Some(v) => v
  }

  /** The `skip` and `limit` defaults every listing endpoint declares. */
  const DefaultSkip: int := 0
  const DefaultListLimit: int := 100

  function Min(a: int, b: int): int
  {
    if a <= b then a else b
  }
}
