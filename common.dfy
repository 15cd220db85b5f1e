/** Values shared by every service: optional values, the HTTP exceptions the
    services throw, and a result type that carries either a value or one of them. */
module Common {

  datatype Option<+T> = None | Some(value: T)

  /** The NestJS exceptions thrown by the services, with their messages.
      `Internal` stands for any other exception (a failing repository call). */
  datatype HttpError =
    | Unauthorized(message: string)
    | Conflict(message: string)
    | NotFound(message: string)
    | Internal

  /** A service call either returns a value or throws one of the errors above. */
  datatype Result<+T> = Ok(value: T) | Err(error: HttpError)

  /** JavaScript truthiness of an optional string field: present and not empty. */
  predicate Truthy(s: Option<string>)
  {
    s.Some? && s.value != ""
  }
}
