/** The client's login/signup form: the checks `handleSubmit` makes before it
    posts the credentials, the mode toggle `viewLogin`, and what it does with
    the server's answer (cookies or an error message). */
module AuthForm {
  import opened Common
  import opened JsText

  const UsernameRequired := "Username is required"
  const PasswordRequired := "Password is required"
  const ConfirmRequired := "Confirm password"
  const ConfirmMismatch := "Invalid password confirmation"
  const SomethingWrong := "Something went wrong"

  /** `field === null || field.trim().length === 0`; a field the user never
      typed into holds `null`. */
  function Missing(field: Option<string>): (r: bool)
    ensures r <==> field.None? || IsBlank(field.value)
  {
    field.None? || Trim(field.value) == []
  }

  /** The POST to `auth/<endpoint>` with body `{username, password}`. */
  datatype Post = Post(endpoint: string, username: string, password: string)

  /** The outcome of the checks: an error message to show, or a request. */
  datatype Verdict = Invalid(message: string) | Send(post: Post)

  /** The checks of `handleSubmit`, in order: the first failing one decides
      the message. The confirmation is checked in signup mode only and is
      compared with the password untrimmed; the request carries the fields
      untrimmed and goes to "login" exactly in login mode. */
  function Validate(isLogin: bool, username: Option<string>, password: Option<string>,
                    confirm: Option<string>): (v: Verdict)
    ensures v == Invalid(UsernameRequired) <==> Missing(username)
    ensures v == Invalid(PasswordRequired) <==> !Missing(username) && Missing(password)
    ensures v == Invalid(ConfirmRequired) <==>
      !Missing(username) && !Missing(password) && !isLogin && Missing(confirm)
    ensures v == Invalid(ConfirmMismatch) <==>
      !Missing(username) && !Missing(password) && !isLogin && !Missing(confirm) && password.value != confirm.value
    ensures v.Send? <==>
      !Missing(username) && !Missing(password) && (isLogin || (!Missing(confirm) && password.value == confirm.value))
    ensures v.Send? ==>
      v.post == Post(if isLogin then "login" else "signup", username.value, password.value)
  {
    if Missing(username) then Invalid(UsernameRequired)
    else if Missing(password) then Invalid(PasswordRequired)
    else if !isLogin && Missing(confirm) then Invalid(ConfirmRequired)
    else if !isLogin && password.value != confirm.value then Invalid(ConfirmMismatch)
    else Send(Post(if isLogin then "login" else "signup", username.value, password.value))
  }

  /** In login mode the confirmation field has no effect at all. */
  lemma LoginIgnoresConfirmation(username: Option<string>, password: Option<string>,
                                 confirm1: Option<string>, confirm2: Option<string>)
    ensures Validate(true, username, password, confirm1) == Validate(true, username, password, confirm2)
  {
  }

  /** Password and confirmation are compared as typed: a confirmation that
      differs from the password only by a trailing space is refused. */
  lemma ConfirmationComparedUntrimmed(username: string, password: string)
    requires !IsBlank(username) && !IsBlank(password)
    ensures Validate(false, Some(username), Some(password), Some(password + " ")) == Invalid(ConfirmMismatch)
  {
    var confirm := password + " ";
    var i :| 0 <= i < |password| && !IsWhitespace(password[i]);
    assert confirm[i] == password[i];
    assert !IsBlank(confirm);
    assert |confirm| != |password|;
  }

  /** The `user` object of a login answer. */
  datatype UserJson = UserJson(id: Option<string>, username: Option<string>)

  /** The JSON the client reads, as far as it matters here; an absent field
      reads as `undefined` (`None`). */
  datatype ReplyJson = ReplyJson(message: Option<string>, token: Option<string>,
                                 username: Option<string>, id: Option<string>, user: Option<UserJson>)

  /** The cookies set on a 200 answer: `res.username`, `res.id` and
      `res.token`, read at the top level of the answer. */
  function SessionCookies(reply: ReplyJson): (c: map<string, Option<string>>)
    ensures c.Keys == {"Username", "UserId", "AuthToken"}
    ensures c["Username"] == reply.username && c["UserId"] == reply.id && c["AuthToken"] == reply.token
  {
    map["Username" := reply.username, "UserId" := reply.id, "AuthToken" := reply.token]
  }

  /** The cookies the client evidently means to set: the user's id and name
      read from `res.user` when the answer nests them there (as login's does),
      and from the top level otherwise (as signup's does). */
  function SessionCookiesFixed(reply: ReplyJson): (c: map<string, Option<string>>)
    ensures c.Keys == SessionCookies(reply).Keys && c["AuthToken"] == reply.token
    ensures reply.user.Some? ==> c["UserId"] == reply.user.value.id && c["Username"] == reply.user.value.username
    ensures reply.user.None? ==> c == SessionCookies(reply)
  {
    match reply.user
    case None => SessionCookies(reply)
    case Some(u) => map["Username" := u.username, "UserId" := u.id, "AuthToken" := reply.token]
  }

  /** The form's React state and the cookie jar. */
  class AuthPanel {
    var isLogin: bool
    var error: Option<string>
    var username: Option<string>
    var password: Option<string>
    var confirmPassword: Option<string>
    var cookies: map<string, Option<string>>

    /** The form opens in login mode with every field `null`. */
    constructor (jar: map<string, Option<string>>)
      ensures isLogin && error.None? && username.None? && password.None? && confirmPassword.None?
      ensures cookies == jar
    {
      isLogin := true;
      error := None;
      username := None;
      password := None;
      confirmPassword := None;
      cookies := jar;
    }

    /** `viewLogin(status)`: clears the error and switches the mode; the
      typed fields are kept. */
    method ViewLogin(status: bool)
      modifies this`error, this`isLogin
      ensures error.None? && isLogin == status
    {
      error := None;
      isLogin := status;
    }

    /** `handleSubmit` up to the request: either the first failing check's
      message is shown and nothing is sent, or the error is cleared and the
      request to send is returned. */
    method HandleSubmit() returns (request: Option<Post>)
      modifies this`error
      ensures var v := Validate(isLogin, username, password, confirmPassword);
        && (v.Invalid? ==> error == Some(v.message) && request.None?)
        && (v.Send? ==> error.None? && request == Some(v.post))
    {
      var v := Validate(isLogin, username, password, confirmPassword);
      match v
      case Invalid(message) =>
        error := Some(message);
        request := None;
      case Send(post) =>
        error := None;
        request := Some(post);
    }

    /** `handleSubmit` after the request: `reply` is the parsed answer, `None`
      when the fetch or the parsing threw. A 200 answer sets the three session
      cookies from its top-level fields; any other status shows its message. */
    method HandleReply(status: int, reply: Option<ReplyJson>)
      modifies this`error, this`cookies
      ensures reply.None? ==> error == Some(SomethingWrong) && cookies == old(cookies)
      ensures reply.Some? && status == 200 ==> cookies == old(cookies) + SessionCookies(reply.value) && error == old(error)
      ensures reply.Some? && status != 200 ==> error == reply.value.message && cookies == old(cookies)
    {
      if reply.None? {
        error := Some(SomethingWrong);
        return;
      }
      var res := reply.value;
      if status == 200 {
        cookies := cookies + SessionCookies(res);
      } else {
        error := res.message;
      }
    }

    /** `HandleReply` reading the user from `res.user` when it is there. */
    method HandleReplyFixed(status: int, reply: Option<ReplyJson>)
      modifies this`error, this`cookies
      ensures reply.None? ==> error == Some(SomethingWrong) && cookies == old(cookies)
      ensures reply.Some? && status == 200 ==> cookies == old(cookies) + SessionCookiesFixed(reply.value) && error == old(error)
      ensures reply.Some? && status != 200 ==> error == reply.value.message && cookies == old(cookies)
    {
      if reply.None? {
        error := Some(SomethingWrong);
        return;
      }
      var res := reply.value;
      if status == 200 {
        cookies := cookies + SessionCookiesFixed(res);
      } else {
        error := res.message;
      }
    }
  }
}
