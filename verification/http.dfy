/** What a handler sees and produces: the request-scoped `res.locals`, the status
    codes the handlers send, and a reply together with the store it leaves behind. */
module Http {
  import opened Wrappers
  import opened Jwt
  import opened UserEntity
  import opened Store

  datatype Method = GET | POST | PUT | PATCH | DELETE

  /** The response statuses the handlers send (200, 201, 204, 401, 403, 404, 409, 500),
      plus `Unanswered`: an exception escaped an async handler outside any `try`,
      so Express never sends a response. */
  datatype Status =
    | Ok
    | Created
    | NoContent
    | Unauthorized
    | Forbidden
    | NotFound
    | Conflict
    | InternalServerError
    | Unanswered

  /** `res.locals` (the verified payload, the bound user, the recorded role) and the
      `authorization` response header set so far. */
  datatype Ctx = Ctx(
    payload: Option<Claims>,
    user: Option<Row<User>>,
    role: Option<UserType>,
    authorization: Option<Token>)

  /** The context of a request before any guard has run. */
  const Fresh: Ctx := Ctx(None, None, None, None)

  /** A response: its status, its JSON or text body, and its `authorization` header. */
  datatype Reply<B> = Reply(status: Status, body: Option<B>, authorization: Option<Token>)

  /** What handling a request produced: the reply and the store after it. */
  datatype Outcome<B> = Outcome(reply: Reply<B>, store: Store)

  /** `res.sendStatus(status)`, and a guard's `res.status(status).send(text)`: the status, with the
      header set so far. Express sends a text body with these, the status phrase or the guard's
      message; the model leaves that text out, so `body` is None. */
  function Send<B>(status: Status, ctx: Ctx, s: Store): Outcome<B>
  {
    Outcome(Reply(status, None, ctx.authorization), s)
  }

  /** `res.status(status).json(body)` */
  function Json<B>(status: Status, body: B, ctx: Ctx, s: Store): Outcome<B>
  {
    Outcome(Reply(status, Some(body), ctx.authorization), s)
  }

  /** No response is ever sent. */
  function NoReply<B>(s: Store): Outcome<B>
  {
    Outcome(Reply(Unanswered, None, None), s)
  }
}
