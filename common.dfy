/** Values shared by the server handlers, the token middleware and the client form. */
module Common {

  /** A value that may be absent. For a field of a request body or of the
      request object, `None` is JavaScript's `undefined`; for a column read
      back from the database it is SQL NULL (JavaScript's `null`). */
  datatype Option<+T> = None | Some(value: T)

  /** Users and todos are identified by uuid strings. */
  type Id = string

  /** The payload of a JSON Web Token: signup signs `{id, username}`,
      login signs `{id}` alone. */
  datatype Claims = Claims(id: Id, username: Option<string>)
}
