/** How the pieces meet: the tokens the auth handlers issue arriving at the
    token middleware, and the auth handlers' answers read by the client form. */
module Flows {
  import opened Common
  import JsText
  import Auth
  import Gate
  import AuthForm

  /** jsonwebtoken, idealised: no token is empty, and a token signed with a
      secret verifies, giving back its claims, under that secret and no
      other. Expiry is not modelled. */
  ghost predicate SoundSigning(sign: (Claims, string) -> string, verify: (string, string) -> Option<Claims>) {
    && (forall c, k :: sign(c, k) != "")
    && (forall c, k, k' :: verify(sign(c, k), k') == if k == k' then Some(c) else None)
  }

  /** The JSON the client reads from an auth handler's answer: signup puts
      `id` and `username` at the top level, login nests them under `user`. */
  function ClientView(body: Auth.Body): (j: AuthForm.ReplyJson)
    ensures body.SignedUp? ==> j.id == Some(body.id) && j.username == Some(body.username) && j.token == Some(body.token)
    ensures body.LoggedIn? ==>
      && j.id.None? && j.username.None? && j.token == Some(body.token)
      && j.user == Some(AuthForm.UserJson(Some(body.user.id), Some(body.user.username)))
    ensures (body.Fail? || body.Error?) ==> j.message == Some(body.message)
  {
    match body
    case SignedUp(token, username, id) =>
      AuthForm.ReplyJson(Some("account created"), Some(token), Some(username), Some(id), None)
    case LoggedIn(token, user) =>
      AuthForm.ReplyJson(Some("login success"), Some(token), None, None,
                         Some(AuthForm.UserJson(Some(user.id), Some(user.username))))
    case Fail(message) => AuthForm.ReplyJson(Some(message), None, None, None, None)
    case Error(message) => AuthForm.ReplyJson(Some(message), None, None, None, None)
  }

  /** The token a signup returns passes the middleware, which then sets the
      request's user id to the id signup stored. */
  lemma SignupTokenPassesGate(users: map<string, Auth.User>, username: Option<string>, password: Option<string>,
                              id: Id, salt: string, crypto: Auth.Crypto, jwtSecret: string,
                              verify: (string, string) -> Option<Claims>)
    requires SoundSigning(crypto.sign, verify)
    ensures var s := Auth.SignupStep(users, username, password, id, salt, crypto, jwtSecret);
      s.res.status == 200 ==>
        var req := Gate.Request(Some(s.res.body.token), None);
        Gate.VerifyToken(req, verify, jwtSecret) == Gate.Outcome(None, 1, req.(userId := Some(id)))
  {
  }

  /** Login signs with the literal secret while the middleware verifies with
      `JWT_SECRET`: a login token passes the middleware exactly when the two
      secrets happen to be equal, and is refused with 401 otherwise. */
  lemma LoginTokenPassesGateOnlyUnderLiteralSecret(users: map<string, Auth.User>, username: Option<string>,
                                                   password: Option<string>, crypto: Auth.Crypto, jwtSecret: string,
                                                   verify: (string, string) -> Option<Claims>)
    requires SoundSigning(crypto.sign, verify)
    ensures var r := Auth.Login(users, username, password, crypto);
      r.status == 200 ==>
        var o := Gate.VerifyToken(Gate.Request(Some(r.body.token), None), verify, jwtSecret);
        && (o.nextCalls == 1 <==> jwtSecret == Auth.LoginSecret)
        && (jwtSecret != Auth.LoginSecret ==> o.sent == Some(Gate.Reply(401, Gate.BadToken)))
        && (jwtSecret == Auth.LoginSecret ==> o.req.userId == Some(r.body.user.id))
  {
  }

  /** After a successful signup the client's cookies hold the new user's id,
      name and token. */
  lemma SignupReplySetsSession(users: map<string, Auth.User>, username: Option<string>, password: Option<string>,
                               id: Id, salt: string, crypto: Auth.Crypto, jwtSecret: string)
    ensures var s := Auth.SignupStep(users, username, password, id, salt, crypto, jwtSecret);
      s.res.status == 200 ==>
        var c := AuthForm.SessionCookies(ClientView(s.res.body));
        c["UserId"] == Some(id) && c["Username"] == Some(JsText.Trim(username.value)) && c["AuthToken"] == Some(s.res.body.token)
  {
  }

  /** After a successful login the client stores the token, but its
      "Username" and "UserId" cookies are set to undefined: it reads the top
      level of an answer that nests the user under `user`. */
  lemma LoginReplyLeavesUserCookiesUnset(users: map<string, Auth.User>, username: Option<string>,
                                         password: Option<string>, crypto: Auth.Crypto)
    ensures var r := Auth.Login(users, username, password, crypto);
      r.status == 200 ==>
        var c := AuthForm.SessionCookies(ClientView(r.body));
        c["Username"].None? && c["UserId"].None? && c["AuthToken"] == Some(r.body.token)
  {
  }

  /** Reading the user from `user` stores the logged-in user's id and name. */
  lemma LoginReplySetsSessionWhenFixed(users: map<string, Auth.User>, username: Option<string>,
                                       password: Option<string>, crypto: Auth.Crypto)
    ensures var r := Auth.Login(users, username, password, crypto);
      r.status == 200 ==>
        var u := users[username.value];
        var c := AuthForm.SessionCookiesFixed(ClientView(r.body));
        c["UserId"] == Some(u.id) && c["Username"] == Some(u.username) && c["AuthToken"] == Some(r.body.token)
  {
  }

  /** The form sends the username as typed and login does not trim it: a name
      typed with whitespace at either end passes the form's checks and is
      answered 404, even when the user stored under the trimmed name exists. */
  lemma TypedSpacesDefeatLogin(users: map<string, Auth.User>, typed: string, password: string,
                               confirm: Option<string>, crypto: Auth.Crypto)
    requires Auth.Wellformed(users)
    requires !JsText.IsBlank(typed) && !JsText.IsBlank(password)
    requires JsText.Trim(typed) != typed
    ensures var v := AuthForm.Validate(true, Some(typed), Some(password), confirm);
      && v == AuthForm.Send(AuthForm.Post("login", typed, password))
      && Auth.Login(users, Some(v.post.username), Some(v.post.password), crypto) == Auth.Response(404, Auth.Fail(Auth.BadCredentials))
  {
    Auth.UntrimmedNameNotStored(users, typed);
  }
}
