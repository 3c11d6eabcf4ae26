/** What a route handler answers, and how it reads optional request fields. */
module Http {
  import opened Wrappers

  const StatusOk := 200
  const StatusCreated := 201
  const StatusBadRequest := 400
  const StatusUnauthorized := 401
  const StatusForbidden := 403
  const StatusConflict := 409
  const StatusServerError := 500

  /** A JSON response: a status code with either the payload or the `message` field. */
  datatype Reply<T> = Success(status: int, value: T) | Failure(status: int, message: string)

  /** JavaScript truthiness of a `string | null` (or absent) value: `null` and `""` are falsy. */
  predicate Truthy(s: Option<string>) {
    s.Some? && s.value != ""
  }

  /** A browser `File` as the handlers and the dialog see it: its name and MIME type (`type`).
      The bytes themselves are opaque and not modelled. */
  datatype File = File(name: string, fileType: string)
}
