/** The signup and login handlers over the `users` table. bcrypt and
    jsonwebtoken are not modelled: their operations are the function fields
    of `Crypto`, and the salt bcrypt draws and the uuid are parameters. */
module Auth {
  import opened Common
  import opened JsText

  /** A row of `users(id, username, password)`; `password` holds the hash. */
  datatype User = User(id: Id, username: string, password: string)

  /** The library calls the handlers make. */
  datatype Crypto = Crypto(
    hash: (string, string) -> string,   // bcrypt.hashSync(password, salt)
    compare: (string, string) -> bool,  // bcrypt.compareSync(password, hash)
    sign: (Claims, string) -> string)   // jwt.sign(claims, secret)

  datatype UserView = UserView(id: Id, username: string)

  /** What the handler sends, by JSON shape. */
  datatype Body =
    | SignedUp(token: string, username: string, id: Id)  // "account created": id and username at top level
    | LoggedIn(token: string, user: UserView)            // "login success": id and username under `user`
    | Fail(message: string)                              // status "fail"
    | Error(message: string)                             // status "error", from the catch block

  datatype Response = Response(status: int, body: Body)

  /** A handler's answer together with the table it leaves behind. */
  datatype Step = Step(res: Response, users: map<string, User>)

  const Taken := "Username is already taken"
  const BadCredentials := "Invalid username or password"
  const SignupFailed := "Failed to create account"
  const LoginFailed := "Failed to log in user"
  /** The secret login signs with, a literal in the handler; signup signs
      with the configured `JWT_SECRET` instead. */
  const LoginSecret := "secretkey"

  /** The table, keyed by username: each row is stored under its own
      username, every stored username is trimmed (signup trims before it
      inserts), and no two rows share an id. */
  predicate Wellformed(users: map<string, User>) {
    && (forall n :: n in users ==> users[n].username == n && IsTrimmed(n))
    && (forall a, b :: a in users && b in users && users[a].id == users[b].id ==> a == b)
  }

  /** No row has id `id`: what a fresh uuid provides. */
  predicate IdUnused(users: map<string, User>, id: Id) {
    forall n :: n in users ==> users[n].id != id
  }

  /** `signup`: the username is trimmed before both the existence check and
      the insert (a missing one makes `trim` throw, answered 500); a taken
      name is answered 400 and nothing is inserted; a missing password makes
      bcrypt throw (500, nothing inserted); otherwise exactly one row is added,
      holding the fresh id, the trimmed name and the HASH of the password, and
      the answer repeats the stored id and name with a token signed over
      `{id, username}` with `jwtSecret`. */
  function SignupStep(users: map<string, User>, username: Option<string>, password: Option<string>,
                      id: Id, salt: string, crypto: Crypto, jwtSecret: string): (s: Step)
    ensures username.None? ==> s == Step(Response(500, Error(SignupFailed)), users)
    ensures username.Some? && Trim(username.value) in users ==> s == Step(Response(400, Fail(Taken)), users)
    ensures username.Some? && Trim(username.value) !in users && password.None? ==>
      s == Step(Response(500, Error(SignupFailed)), users)
    ensures s.res.status == 200 <==> username.Some? && Trim(username.value) !in users && password.Some?
    ensures s.res.status != 200 ==> s.users == users
    ensures s.res.status == 200 ==>
      var name := Trim(username.value);
      && s.users == users[name := User(id, name, crypto.hash(password.value, salt))]
      && |s.users| == |users| + 1
      && s.res.body == SignedUp(crypto.sign(Claims(id, Some(name)), jwtSecret), name, id)
    ensures Wellformed(users) && IdUnused(users, id) ==> Wellformed(s.users)
  {
    match username
    case None => Step(Response(500, Error(SignupFailed)), users)
    case Some(raw) =>
      var name := Trim(raw);
      if name in users then Step(Response(400, Fail(Taken)), users)
      else match password
        case None => Step(Response(500, Error(SignupFailed)), users)
        case Some(pw) =>
          var row := User(id, name, crypto.hash(pw, salt));
          assert Wellformed(users) && IdUnused(users, id) ==> Wellformed(users[name := row]) by {
            if Wellformed(users) && IdUnused(users, id) { InsertKeepsWellformed(users, row); }
          }
          var token := crypto.sign(Claims(id, Some(name)), jwtSecret);
          Step(Response(200, SignedUp(token, name, id)), users[name := row])
  }

  /** Inserting a row under its own trimmed, unused name with an unused id
      keeps the table well-formed. */
  lemma InsertKeepsWellformed(users: map<string, User>, row: User)
    requires Wellformed(users) && IdUnused(users, row.id)
    requires row.username !in users && IsTrimmed(row.username)
    ensures Wellformed(users[row.username := row])
  {
  }

  /** `login`: the username is looked up as given, untrimmed (a missing one
      reaches the query as NULL and matches nothing). An unknown user and a
      wrong password get the same 404 and message; a missing password with a
      known user makes bcrypt throw (500). On success the stored id and
      username come back nested under `user`, with a token over `{id}` signed
      with the literal secret. The table is only read. */
  function Login(users: map<string, User>, username: Option<string>, password: Option<string>,
                 crypto: Crypto): (r: Response)
    ensures r.status == 200 || r.status == 404 || r.status == 500
    ensures r.status == 404 <==>
      username.None? || username.value !in users
      || (password.Some? && !crypto.compare(password.value, users[username.value].password))
    ensures r.status == 404 ==> r.body == Fail(BadCredentials)
    ensures r.status == 500 ==> r.body == Error(LoginFailed) && password.None?
    ensures r.status == 200 ==>
      && username.Some? && username.value in users && password.Some?
      && var u := users[username.value];
      && crypto.compare(password.value, u.password)
      && r.body == LoggedIn(crypto.sign(Claims(u.id, None), LoginSecret), UserView(u.id, u.username))
  {
    if username.None? || username.value !in users then Response(404, Fail(BadCredentials))
    else
      var u := users[username.value];
      match password
      case None => Response(500, Error(LoginFailed))
      case Some(pw) =>
        if !crypto.compare(pw, u.password) then Response(404, Fail(BadCredentials))
        else Response(200, LoggedIn(crypto.sign(Claims(u.id, None), LoginSecret), UserView(u.id, u.username)))
  }

  /** A second signup under a name that is already taken, once trimmed, is
      refused whatever the password, and changes nothing. */
  lemma DuplicateSignupRefused(users: map<string, User>, first: string, second: string,
                               p1: string, p2: Option<string>, id1: Id, id2: Id,
                               salt1: string, salt2: string, crypto: Crypto, jwtSecret: string)
    requires Trim(first) !in users && Trim(second) == Trim(first)
    ensures var s1 := SignupStep(users, Some(first), Some(p1), id1, salt1, crypto, jwtSecret);
      SignupStep(s1.users, Some(second), p2, id2, salt2, crypto, jwtSecret) == Step(Response(400, Fail(Taken)), s1.users)
  {
  }

  /** Signing up and then logging in with the trimmed name and the same
      password (bcrypt accepting a password against its own hash) returns the
      id and name that signup stored. */
  lemma SignupThenLogin(users: map<string, User>, username: string, password: string,
                        id: Id, salt: string, crypto: Crypto, jwtSecret: string)
    requires Trim(username) !in users
    requires crypto.compare(password, crypto.hash(password, salt))
    ensures var s := SignupStep(users, Some(username), Some(password), id, salt, crypto, jwtSecret);
      var name := Trim(username);
      Login(s.users, Some(name), Some(password), crypto)
        == Response(200, LoggedIn(crypto.sign(Claims(id, None), LoginSecret), UserView(id, name)))
  {
  }

  /** Trimming happens in signup only: a user who signed up as " alice" is
      stored as "alice", and logging in as " alice" is answered 404, since no
      stored name has surrounding whitespace. */
  lemma LoginDoesNotTrim(users: map<string, User>, username: string, password: string,
                         id: Id, salt: string, crypto: Crypto, jwtSecret: string)
    requires Wellformed(users) && IdUnused(users, id)
    requires Trim(username) !in users && Trim(username) != username
    ensures var s := SignupStep(users, Some(username), Some(password), id, salt, crypto, jwtSecret);
      s.res.status == 200 && Login(s.users, Some(username), Some(password), crypto) == Response(404, Fail(BadCredentials))
  {
    var s := SignupStep(users, Some(username), Some(password), id, salt, crypto, jwtSecret);
    UntrimmedNameNotStored(s.users, username);
  }

  /** A name with whitespace at either end is never a key of a well-formed
      table. */
  lemma UntrimmedNameNotStored(users: map<string, User>, name: string)
    requires Wellformed(users) && Trim(name) != name
    ensures name !in users
  {
    if name in users {
      TrimOfTrimmed(name);
    }
  }

  /** An unknown user and a known user with a wrong password receive the very
      same answer. */
  lemma UnknownUserLikeWrongPassword(users: map<string, User>, unknown: string, known: string,
                                     password: string, wrong: string, crypto: Crypto)
    requires unknown !in users && known in users
    requires !crypto.compare(wrong, users[known].password)
    ensures Login(users, Some(unknown), Some(password), crypto) == Login(users, Some(known), Some(wrong), crypto)
  {
  }

  /** The `users` table, updated in place by `signup`. */
  class UserTable {
    var users: map<string, User>

    ghost predicate Valid()
      reads this
    {
      Wellformed(users)
    }

    constructor ()
      ensures Valid() && users == map[]
    {
      users := map[];
    }

    /** `signup`; `id` is the uuid the handler draws and `salt` the salt
      bcrypt draws. */
    method Signup(username: Option<string>, password: Option<string>, id: Id, salt: string,
                  crypto: Crypto, jwtSecret: string) returns (res: Response)
      requires Valid() && IdUnused(users, id)
      modifies this
      ensures Valid()
      ensures Step(res, users) == SignupStep(old(users), username, password, id, salt, crypto, jwtSecret)
    {
      if username.None? {
        res := Response(500, Error(SignupFailed));
        return;
      }
      var name := Trim(username.value);
      if name in users {
        res := Response(400, Fail(Taken));
        return;
      }
      if password.None? {
        res := Response(500, Error(SignupFailed));
        return;
      }
      var hashed := crypto.hash(password.value, salt);
      var row := User(id, name, hashed);
      users := users[name := row];
      var token := crypto.sign(Claims(id, Some(name)), jwtSecret);
      res := Response(200, SignedUp(token, name, id));
      assert SignupStep(old(users), username, password, id, salt, crypto, jwtSecret) == Step(res, old(users)[name := row]);
    }
  }
}
