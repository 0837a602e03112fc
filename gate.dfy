/** The `verifyToken` middleware. jsonwebtoken's `verify` is a parameter:
    `verify(token, secret)` is `None` when it reports an error and the decoded
    claims otherwise. */
module Gate {
  import opened Common

  /** The parts of an Express request the middleware reads and writes. */
  datatype Request = Request(authorization: Option<string>, userId: Option<Id>)

  /** A response the middleware sends: `{message}` with a status. */
  datatype Reply = Reply(status: int, message: string)

  /** What the middleware did: the reply it sent, if any, how many times it
      called `next`, and the request as it leaves it. */
  datatype Outcome = Outcome(sent: Option<Reply>, nextCalls: nat, req: Request)

  const NoToken := "No token provided"
  const BadToken := "Failed to authenticate token"

  /** An absent or empty header is answered 401 "No token provided"; otherwise
      the header value itself, with no `Bearer ` prefix stripped, is verified
      against `jwtSecret`; a verification error is answered 401 "Failed to
      authenticate token"; on success `req.userId` becomes the decoded id and
      `next` is called exactly once. Whenever it answers, it neither calls
      `next` nor touches the request. */
  function VerifyToken(req: Request, verify: (string, string) -> Option<Claims>, jwtSecret: string): (o: Outcome)
    ensures o.nextCalls <= 1 && (o.nextCalls == 1 <==> o.sent.None?)
    ensures o.sent == Some(Reply(401, NoToken)) <==> req.authorization.None? || req.authorization.value == ""
    ensures o.sent == Some(Reply(401, BadToken)) <==>
      req.authorization.Some? && req.authorization.value != "" && verify(req.authorization.value, jwtSecret).None?
    ensures o.nextCalls == 1 ==>
      && req.authorization.Some?
      && verify(req.authorization.value, jwtSecret).Some?
      && o.req == req.(userId := Some(verify(req.authorization.value, jwtSecret).value.id))
    ensures o.nextCalls == 0 ==> o.req == req
    ensures req.authorization.Some? && req.authorization.value != "" && verify(req.authorization.value, jwtSecret).Some? ==>
      o == Outcome(None, 1, req.(userId := Some(verify(req.authorization.value, jwtSecret).value.id)))
  {
    match req.authorization
    case None => Outcome(Some(Reply(401, NoToken)), 0, req)
    case Some(token) =>
      if token == "" then Outcome(Some(Reply(401, NoToken)), 0, req)
      else match verify(token, jwtSecret)
        case None => Outcome(Some(Reply(401, BadToken)), 0, req)
        case Some(decoded) => Outcome(None, 1, req.(userId := Some(decoded.id)))
  }

  /** The header is not parsed: a conventional `Bearer <token>` header is
      verified as a whole, so it is refused even when the bare token is good. */
  lemma BearerPrefixNotStripped(token: string, userId: Option<Id>,
                                verify: (string, string) -> Option<Claims>, jwtSecret: string)
    requires token != "" && verify("Bearer " + token, jwtSecret).None? && verify(token, jwtSecret).Some?
    ensures VerifyToken(Request(Some("Bearer " + token), userId), verify, jwtSecret).sent == Some(Reply(401, BadToken))
    ensures VerifyToken(Request(Some(token), userId), verify, jwtSecret).nextCalls == 1
  {
  }
}
