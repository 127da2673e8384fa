/** Values shared by every part of the portal model. */
module Common {

  /** A nullable value: `None` stands for SQL NULL and for JavaScript's `null` or `undefined`. */
  datatype Option<+T> = None | Some(value: T)

  /** What an HTTP handler answers: a JSON body with status 200, or an error status and its message. */
  datatype Reply<+T> = Ok(body: T) | Fail(code: nat, message: string)

  const BadRequest: nat := 400
  const Unauthorized: nat := 401
  const NotFound: nat := 404
}
