# Todo app core: request handlers over in-memory tables

A model of the server-side core of a small PERN to-do application and of the
client's login/signup form:

- the todo handlers (`createTodo`, `updateTodo`, `deleteTodo`, `getTodo`,
  `getUserTodos`, `getAllTodos`) over the `todos` table, held as a map from
  todo id to row (module `Todos`, class `TodoTable`);
- the auth handlers `signup` and `login` over the `users` table, held as a map
  from username to row (module `Auth`, class `UserTable`), with bcrypt and
  jsonwebtoken as uninterpreted function fields of `Auth.Crypto`;
- the `verifyToken` middleware as a decision over the optional
  `authorization` header and an abstract `verify` (module `Gate`);
- the form checks of `handleSubmit`, the mode toggle `viewLogin` and the
  handling of the server's answer in the client (module `AuthForm`);
- JavaScript's `String.prototype.trim` (module `JsText`), and lemmas on how
  the pieces meet (module `Flows`).

Each handler is specified by a function:
- The handlers that write (`createTodo`, `updateTodo`, `deleteTodo`, `signup`) have a function `...Step`. It gives the response and the new table.
- The todo handlers that only read (`getTodo`, `getUserTodos`, `getAllTodos`) have a function that gives the response alone.
- `login` is the function `Auth.Login` alone. It only reads the users table, so it has no `Step` and no method.

Every other handler also has a method on `TodoTable` or `UserTable`. The method performs the same steps on the table in place and is proved equal to its function. The read-only methods have no `modifies` clause. A handler's response is the FIRST one it sends. The caller id
(`req.userId`) is an `Option`: `None` is `undefined`, which is what every
todo handler sees, because `verifyToken` is mounted on no route. A stored
`user_id` is an `Option` too: `None` is the NULL that an `undefined` caller
id is inserted as. In JavaScript `undefined !== null`, so with no caller id
every owner check fails.

The owner checks in `updateTodo`, `deleteTodo`, `getTodo` and
`getUserTodos` send 403 and then carry on. The later 200 fails because the
headers are already sent, so the client sees the 403. For update and delete,
the table has already been changed by then.

Some behaviour of the code is easy to expect otherwise; the model follows the
code:
- login answers a wrong password with 404, not 401;
- `createTodo` does not reject an empty title with 400, and neither create nor
  update checks the progress range;
- `getUserTodos` promises no order (a set of rows here), not "date descending";
- signup does not reject a blank username or password;
- the owner check is not a hard gate.

## Model

| member | source | states |
|---|---|---|
| JsText.TrimStart | server/controllers/todo.contoller.js:23 | the result is a suffix of the input, all dropped characters are whitespace, and the result does not start with whitespace |
| JsText.TrimEnd | server/controllers/todo.contoller.js:23 | the result is a prefix of the input, all dropped characters are whitespace, and the result does not end with whitespace |
| JsText.Trim | server/controllers/auth.controller.js:27 | `trim()` leaves no whitespace at either end, and its result is empty exactly when the input is blank |
| JsText.TrimIsInfix | server/controllers/auth.controller.js:27 | the trimmed string is a contiguous piece of the input with only whitespace outside it |
| JsText.TrimOfTrimmed | server/controllers/todo.contoller.js:86 | a string with no whitespace at either end is unchanged by `trim` |
| JsText.TrimIdempotent | server/controllers/todo.contoller.js:86 | trimming twice is trimming once |
| Todos.ResentTitleUnchanged | server/controllers/todo.contoller.js:86-90 | sending a created todo's title back in an update leaves that title unchanged, although the update trims it again |
| Todos.CreateStep | server/controllers/todo.contoller.js:14-58 | a missing title gives 500 and no change; otherwise 201 and exactly one new row under the fresh id, owned by the caller id (not a body field), with a trimmed title; the row added is the row returned; the other rows are unchanged |
| Todos.StrictlyUnequal | server/controllers/todo.contoller.js:82 | JavaScript's `!==` between ids: an `undefined` caller id or a `null` owner differs from every id, including each other; two present ids differ exactly when the strings differ |
| Todos.GetStep | server/controllers/todo.contoller.js:159-188 | 404 exactly for an unknown id; 200 with the row exactly when the caller is the owner; 403 otherwise |
| Todos.UpdateStep | server/controllers/todo.contoller.js:66-104 | 404 and no change for an unknown id; otherwise the first response is an empty 403 for a non-owner, else 500 "Failed to update todo" for a missing title, else 200; with a title present, the title (trimmed), progress and date of that row are overwritten even after 403; its id and owner, the key set and all other rows are unchanged; the 200 body carries no row |
| Todos.DeleteStep | server/controllers/todo.contoller.js:106-138 | 404 and no change for an unknown id; otherwise 403 for a non-owner and 200 for the owner, and in both cases the table loses exactly that id |
| Todos.ListUserStep | server/controllers/todo.contoller.js:190-214 | 403 exactly when the path id is not the caller's id; otherwise 200 listing exactly the rows whose `user_id` is the path id, with `result` equal to their number |
| Todos.ListAllStep | server/controllers/todo.contoller.js:140-157 | 200 listing every row regardless of caller, with `result` equal to their number |
| Todos.UpdateGatedStep | server/controllers/todo.contoller.js:80-90 | with the owner check as a gate: a non-owner gets 403 and no change, a table change implies the caller is the owner, and for the owner it equals the handler as written |
| Todos.DeleteGatedStep | server/controllers/todo.contoller.js:119-125 | with the owner check as a gate: a non-owner gets 403 and no change; only the owner removes a row |
| Todos.RowsCount | server/controllers/todo.contoller.js:198-203 | rows are keyed by their own ids, so a set of ids and the set of their rows have the same size |
| Todos.ListUserCount | server/controllers/todo.contoller.js:198-203 | the `result` of `getUserTodos` is the number of ids whose row belongs to the user, i.e. the row count |
| Todos.ListAllCount | server/controllers/todo.contoller.js:143-146 | the `result` of `getAllTodos` is the number of rows in the table |
| Todos.CreateThenGet | server/controllers/todo.contoller.js:38-48 | a created todo read back by its creator is the row as created (trimmed title, given progress and date); a caller with no id gets 403 even for a todo it created |
| Todos.DeleteThenGet | server/controllers/todo.contoller.js:125 | after a delete by anyone, `getTodo` on that id is 404 and a second delete is 404 with no change |
| Todos.NonOwnerUpdateStillWrites | server/controllers/todo.contoller.js:82-90 | a non-owner is answered 403, yet that row's title, progress and date are overwritten |
| Todos.NonOwnerDeleteStillRemoves | server/controllers/todo.contoller.js:121-125 | a non-owner is answered 403, yet the row is deleted |
| Todos.WithoutCallerEveryCheckFails | server/routes/todo.routes.js:11-32 | with no middleware on the routes (no caller id), reads of an existing todo or of any user's list are answered 403, while update and delete still rewrite or remove the row |
| Todos.TodoTable.CreateTodo | server/controllers/todo.contoller.js:14-58 | the in-place create leaves the table and answers exactly as `CreateStep`, and keeps rows keyed by their ids |
| Todos.TodoTable.UpdateTodo | server/controllers/todo.contoller.js:66-104 | the in-place update agrees with `UpdateStep`, the owner check falling through |
| Todos.TodoTable.DeleteTodo | server/controllers/todo.contoller.js:106-138 | the in-place delete agrees with `DeleteStep`, the owner check falling through |
| Todos.TodoTable.GetTodo | server/controllers/todo.contoller.js:159-188 | answers as `GetStep` and, having no modifies clause, cannot change the table |
| Todos.TodoTable.GetUserTodos | server/controllers/todo.contoller.js:190-214 | answers as `ListUserStep` without changing the table |
| Todos.TodoTable.GetAllTodos | server/controllers/todo.contoller.js:140-157 | answers as `ListAllStep` without changing the table |
| Todos.TodoTable.UpdateTodoGated | server/controllers/todo.contoller.js:80-90 | the update with a return after the 403 agrees with `UpdateGatedStep` |
| Todos.TodoTable.DeleteTodoGated | server/controllers/todo.contoller.js:119-125 | the delete with a return after the 403 agrees with `DeleteGatedStep` |
| Auth.SignupStep | server/controllers/auth.controller.js:24-78 | the username is trimmed before both the existence check and the insert; a missing username gives 500; a taken name gives 400 "Username is already taken" and no insert; a missing password gives 500 and no insert; otherwise exactly one row is added, holding the fresh id, the trimmed name and the hash of the password; the answer is 200 with that id and name and a token over `{id, username}` signed with `JWT_SECRET`; when the id is unused, the table invariant is kept: every name is stored under itself, trimmed, and ids are unique |
| Auth.Login | server/controllers/auth.controller.js:85-121 | the username is looked up untrimmed; 404 "Invalid username or password" exactly for an unknown or missing user or a wrong password; 500 only for a missing password; on 200 the stored id and username are nested under `user`, with a token over `{id}` signed with the literal "secretkey"; the table is only read |
| Auth.DuplicateSignupRefused | server/controllers/auth.controller.js:27-36 | once a name is taken, any signup whose trimmed name equals it is refused with 400 whatever the password, and changes nothing |
| Auth.SignupThenLogin | server/controllers/auth.controller.js:46-51 | logging in with the trimmed name and the signup password (bcrypt accepting a password against its own hash) returns the id and name signup stored |
| Auth.InsertKeepsWellformed | server/controllers/auth.controller.js:48-51 | inserting a row under its own trimmed, unused name with an unused id keeps the names keyed and trimmed and the ids unique |
| Auth.UntrimmedNameNotStored | server/controllers/auth.controller.js:27-31 | since signup stores only trimmed names, a name with whitespace at either end is never in the table |
| Auth.LoginDoesNotTrim | server/controllers/auth.controller.js:87-96 | a user who signed up with surrounding spaces is stored trimmed, and logging in with the name as typed gives 404 |
| Auth.UnknownUserLikeWrongPassword | server/controllers/auth.controller.js:92-103 | an unknown user and a wrong password get the identical response |
| Auth.UserTable.Signup | server/controllers/auth.controller.js:24-78 | the in-place signup agrees with `SignupStep`, keeps usernames and ids unique, and stores only trimmed names |
| Gate.VerifyToken | server/middleware/auth.middleware.js:3-17 | 401 "No token provided" exactly for an absent or empty header; otherwise the raw header value is verified; a verification error gives 401 "Failed to authenticate token" exactly when a non-empty header fails; a non-empty header that verifies sends nothing, sets `userId` to the decoded id and calls `next` exactly once, and `next` is called only in that case; whenever it answers, the request is untouched |
| Gate.BearerPrefixNotStripped | server/middleware/auth.middleware.js:4-9 | a `Bearer <token>` header is verified as a whole and refused, even when the bare token is good |
| AuthForm.Missing | client/src/components/Auth.js:23-29 | `x === null \|\| x.trim().length === 0` holds exactly when the field is null or made only of ECMAScript whitespace |
| AuthForm.Validate | client/src/components/Auth.js:23-36 | checks in order: "Username is required" exactly for a null or blank username; then "Password is required"; then, in signup mode only, "Confirm password"; then "Invalid password confirmation" for an untrimmed mismatch; otherwise the request, to "login" exactly in login mode, carrying the fields untrimmed |
| AuthForm.LoginIgnoresConfirmation | client/src/components/Auth.js:27-33 | in login mode the confirmation field never changes the outcome |
| AuthForm.ConfirmationComparedUntrimmed | client/src/components/Auth.js:32-33 | a confirmation differing from the password only by a trailing space is refused |
| AuthForm.SessionCookies | client/src/components/Auth.js:54-57 | the cookies as written: exactly `Username`, `UserId` and `AuthToken`, taken from `res.username`, `res.id` and `res.token` at the top level of the answer, whatever it nests under `user` |
| AuthForm.SessionCookiesFixed | client/src/components/Auth.js:54-57 | the intended cookies: id and name taken from `user` when the answer nests them there, and otherwise the same cookies as the code sets |
| AuthForm.AuthPanel.constructor | client/src/components/Auth.js:6-11 | the form starts in login mode, with no error and every field null |
| AuthForm.AuthPanel.ViewLogin | client/src/components/Auth.js:15-18 | clears the error and sets the mode; nothing else changes |
| AuthForm.AuthPanel.HandleSubmit | client/src/components/Auth.js:21-36 | shows the first failing check's message and sends nothing, or clears the error and yields the request |
| AuthForm.AuthPanel.HandleReply | client/src/components/Auth.js:53-61 | on 200, sets the Username, UserId and AuthToken cookies from the top level of the answer; on other statuses, shows the answer's message; when fetch or parsing throws, shows "Something went wrong" |
| AuthForm.AuthPanel.HandleReplyFixed | client/src/components/Auth.js:54-57 | as `HandleReply`, but the cookies are set by `SessionCookiesFixed` |
| Flows.ClientView | server/controllers/auth.controller.js:106-111 | the JSON the client reads: signup's id and name are at the top level, login's are only under `user` |
| Flows.SignupTokenPassesGate | server/controllers/auth.controller.js:60-62 | a signup token passes the middleware, which sets the caller id to the id signup stored |
| Flows.LoginTokenPassesGateOnlyUnderLiteralSecret | server/controllers/auth.controller.js:105 | a login token passes the middleware exactly when `JWT_SECRET` equals "secretkey", and is refused with 401 otherwise |
| Flows.SignupReplySetsSession | client/src/components/Auth.js:54-57 | after signup, the cookies hold the new user's id, trimmed name and token |
| Flows.LoginReplyLeavesUserCookiesUnset | client/src/components/Auth.js:54-57 | after a successful login, the token is stored but the Username and UserId cookies are set to undefined |
| Flows.LoginReplySetsSessionWhenFixed | client/src/components/Auth.js:54-57 | with the fixed reading, a login stores the logged-in user's id, name and token |
| Flows.TypedSpacesDefeatLogin | client/src/components/Auth.js:46 | a username typed with whitespace at either end passes the form's checks and is sent untrimmed; in any table that signup built, login answers it 404, even when the trimmed name is stored |

## Left out

- bcrypt, jsonwebtoken and uuid are not modelled. Hash, compare and sign are the function fields of `Auth.Crypto`, verify is a parameter of `Gate.VerifyToken`, and the salt and the uuid are parameters. Token expiry and time are not modelled.
- Todos.CreateStep: the fresh id is required to be absent from the table, standing for uuid's uniqueness; a uuid collision is not modelled.
- Auth.SignupStep: the function has no precondition on the id. An id unused by any user (`IdUnused`) is the premise of its ensures that the table stays well-formed, and a requires of `Auth.UserTable.Signup`. This stands for uuid's uniqueness, so a collision is not modelled.
- Auth.SignupStep: `JWT_SECRET` is assumed to be configured, and `sign` never throws. If the secret is unset, `jwt.sign` throws after the INSERT. Signup would then answer 500 with the row already stored, a case this model excludes.
- The SQL engine and the connection pool are replaced by in-memory maps. Database failures are not modelled, and neither are constraints the schema may impose (not part of this model), such as a NOT NULL `user_id`. The only 500 answers modelled are the ones the handlers raise themselves: `trim` on a missing title or username, and bcrypt on a missing password.
- Request body values are modelled as strings or absent. Bodies with other JSON types (a numeric title, say) and PostgreSQL's type coercions are not modelled; progress is an integer and the date an opaque string.
- A missing `progress` or `date` is not modelled: `Todos.CreateStep` and `Todos.UpdateStep` always receive both. In the code, node-postgres binds an `undefined` parameter as NULL. The client in this repository posts the date under the key `data` (client/src/components/Modal.js:12), so in practice every create stores a NULL date and every update overwrites the date with NULL.
- After a fall-through 403, the second send throws. The catch block's 500 send then throws again. Only the first response and the table change are recorded.
- Express routing is not modelled (server/index.js and the route files). Its one consequence is kept: no route mounts `verifyToken`, so the todo handlers receive no caller id (`Todos.WithoutCallerEveryCheckFails`).
- Concurrency between the SELECT and the following UPDATE or DELETE is not modelled; each handler is one atomic step.
- Todos.ListUserStep: the rows are a set, so response order is not modelled (the SELECT has no ORDER BY).
- Todos.ListAllStep: same as above.
- React rendering, the `onChange` setters of the inputs, `fetch` itself and logging are not modelled. Also left out: client/src/App.js (its date sort relies on JavaScript `Date` parsing) and the other components (Modal.js's blank-title check, list items, header).

## Findings

| source | as written | input that shows it | evidently intended | confidence | as-written member | corrected member |
|---|---|---|---|---|---|---|
| server/controllers/todo.contoller.js:82-90 | `res.status(403).send()` without `return`, then the UPDATE runs | an existing todo updated by a caller who is not its owner, or by any caller while no token middleware is mounted | stop after the 403, so only the owner can update | high, not executed | Todos.NonOwnerUpdateStillWrites | Todos.UpdateGatedStep |
| server/controllers/todo.contoller.js:121-125 | `res.status(403).send()` without `return`, then the DELETE runs | an existing todo deleted by a caller who is not its owner | stop after the 403, so only the owner can delete | high, not executed | Todos.NonOwnerDeleteStillRemoves | Todos.DeleteGatedStep |
| client/src/components/Auth.js:54-57 | cookies set from `res.username` and `res.id` | any successful login, whose answer is `{token, user: {id, username}}` | take the id and name from `res.user` when present | high, not executed | Flows.LoginReplyLeavesUserCookiesUnset | Flows.LoginReplySetsSessionWhenFixed |
