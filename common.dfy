/** Shared vocabulary of the recipe-sharing application: optional values,
    identifiers and the HTTP-style errors the services raise. */
module Common {

  /** A value that may be absent. `None` stands for JavaScript's `null` and
      `undefined` alike wherever the application treats them alike (`??`). */
  datatype Option<T> = None | Some(value: T) {
    function GetOr(default: T): T {
      match this
      case Some(v) => v
      case None => default
    }
  }

  /** Row identifiers (recipe ids, user ids) are strings. */
  type Id = string

  /** The exceptions the services throw, each with its message. */
  datatype HttpError =
    | NotFound(message: string)
    | Forbidden(message: string)
    | BadRequest(message: string)
    | Unauthorized(message: string)

  /** The outcome of a service call: a value, or the exception it throws. */
  datatype Result<T> = Ok(value: T) | Err(error: HttpError)

  /** JavaScript truthiness of an optional string: present and non-empty. */
  predicate Truthy(s: Option<string>) {
    s.Some? && s.value != ""
  }
}
