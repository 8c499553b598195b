/** The HTTP vocabulary shared by the handlers: status codes and the reply a handler sends. */
module Http {

  import opened Wrappers

  const OK: nat := 200
  const Created: nat := 201
  const BadRequest: nat := 400
  const Unauthorized: nat := 401
  const Forbidden: nat := 403
  const NotFound: nat := 404
  const ServerError: nat := 500

  /** `res.status(status).json(body)`: each handler sends exactly one of these. */
  datatype Reply<B> = Reply(status: nat, body: B)

  /** `!field` for a string field of a request body: not sent, or the empty string. */
  predicate Falsy(v: Option<string>)
  {
    v.None? || v.value == ""
  }
}
