/** The todo request handlers (create, update, delete, get one, list a
    user's todos, list all) over the `todos` table, kept in memory as a map
    from todo id to row.

    Each handler is given twice: a function `...Step` that says what the
    handler answers and what the table becomes, and a method of `TodoTable`
    that performs the same steps on the table in place and is proved to agree
    with it. A handler's answer is the FIRST response it sends: after
    `res.status(403).send()` the handler goes on, and its later
    `res.status(..).json(..)` throws because the headers are already out, so
    the client only ever sees the 403 while the UPDATE or DELETE issued
    before that throw has already changed the table. */
module Todos {
  import opened Common
  import opened JsText

  /** A date as the client sends it; the handlers pass it through untouched. */
  type Date = string

  /** A row of `todos(id, user_id, title, progress, date)`. */
  datatype Todo = Todo(id: Id, userId: Option<Id>, title: string, progress: int, date: Date)

  /** What the handler sends, by JSON shape. */
  datatype Body =
    | Created(todo: Todo)                      // 201 "Todo created"
    | Updated                                  // 200 "Todo updated"; `data.todo` is undefined
    | Deleted                                  // 200 "Todo deleted"
    | Found(todo: Todo)                        // 200 with `data.todo`
    | Listing(result: nat, todos: set<Todo>)   // 200 with `result` (rowCount) and `data.todos`
    | NotFound(id: Id)                         // 404 "Todo with id <id> not found"
    | NoContent                                // `res.status(403).send()`
    | Failed(message: string)                  // 500 from the catch block

  datatype Response = Response(status: int, body: Body)

  /** A handler's answer together with the table it leaves behind. */
  datatype Step = Step(res: Response, todos: map<Id, Todo>)

  const CreateFailed := "Failed to create todo"
  const UpdateFailed := "Failed to update todo"

  /** Every row is stored under its own id. */
  predicate Keyed(todos: map<Id, Todo>) {
    forall k :: k in todos ==> todos[k].id == k
  }

  /** JavaScript's `a !== b` between a caller id (`None` is `undefined`, the
      value of `req.userId` when no middleware set it) and a stored or path
      id (`None` is the `null` a NULL column reads back as). `undefined` and
      `null` are never strictly equal, so an absent id differs from
      everything. */
  function StrictlyUnequal(a: Option<Id>, b: Option<Id>): (r: bool)
    ensures a.None? || b.None? ==> r
    ensures a.Some? && b.Some? ==> (r <==> a.value != b.value)
  {
    a.None? || b.None? || a.value != b.value
  }

  /** The response the client receives when `next` is sent after `sent`. */
  function FirstSent(sent: Option<Response>, next: Response): Response {
    if sent.Some? then sent.value else next
  }

  /** The rows of `todos` stored under the keys in `keys`. */
  function Rows(todos: map<Id, Todo>, keys: set<Id>): set<Todo>
    requires keys <= todos.Keys
  {
    set k | k in keys :: todos[k]
  }

  /** The ids of the rows whose `user_id` is `userId`. */
  function OwnedIds(todos: map<Id, Todo>, userId: Id): set<Id> {
    set k | k in todos && todos[k].userId == Some(userId)
  }

  /** `createTodo`: the title is trimmed (a missing title makes `trim` throw,
      answered 500), the owner is the caller's id, never a body field, and
      exactly one row, the one returned, is added under the fresh id. No check
      rejects an empty title or an out-of-range progress. */
  function CreateStep(todos: map<Id, Todo>, caller: Option<Id>, title: Option<string>,
                      progress: int, date: Date, id: Id): (s: Step)
    requires id !in todos
    ensures title.None? ==> s == Step(Response(500, Failed(CreateFailed)), todos)
    ensures title.Some? ==> s.res.status == 201 && s.res.body.Created?
    ensures title.Some? ==>
      var t := s.res.body.todo;
      && s.todos.Keys == todos.Keys + {id}
      && s.todos[id] == t
      && t.id == id && t.userId == caller && t.progress == progress && t.date == date
      && t.title == Trim(title.value)
      && |s.todos| == |todos| + 1
    ensures forall k :: k in todos ==> k in s.todos && s.todos[k] == todos[k]
    ensures Keyed(todos) ==> Keyed(s.todos)
  {
    match title
    case None => Step(Response(500, Failed(CreateFailed)), todos)
    case Some(raw) =>
      var t := Todo(id, caller, Trim(raw), progress, date);
      Step(Response(201, Created(t)), todos[id := t])
  }

  /** `getTodo`: 404 for an unknown id, otherwise 403 when the caller is not
      the owner and the row when it is. The table is never changed. */
  function GetStep(todos: map<Id, Todo>, caller: Option<Id>, id: Id): (r: Response)
    ensures r.status == 404 <==> id !in todos
    ensures id !in todos ==> r.body == NotFound(id)
    ensures r.status == 200 <==> id in todos && !StrictlyUnequal(caller, todos[id].userId)
    ensures r.status == 200 ==> r.body == Found(todos[id]) && caller == r.body.todo.userId
    ensures r.status != 200 && id in todos ==> r == Response(403, NoContent)
  {
    if id !in todos then Response(404, NotFound(id))
    else
      var todo := todos[id];
      var sent := if StrictlyUnequal(caller, todo.userId) then Some(Response(403, NoContent)) else None;
      FirstSent(sent, Response(200, Found(todo)))
  }

  /** `updateTodo` as written: 404 for an unknown id; otherwise the owner
      check may send 403 but does not stop the handler, which then trims the
      title (500 if it is missing) and overwrites title, progress and date of
      that one row. The answer carries no row: the UPDATE returns none. */
  function UpdateStep(todos: map<Id, Todo>, caller: Option<Id>, id: Id, title: Option<string>,
                      progress: int, date: Date): (s: Step)
    ensures id !in todos ==> s == Step(Response(404, NotFound(id)), todos)
    ensures id in todos ==>
      s.res == (if StrictlyUnequal(caller, todos[id].userId) then Response(403, NoContent)
                else if title.None? then Response(500, Failed(UpdateFailed))
                else Response(200, Updated))
    ensures s.todos.Keys == todos.Keys
    ensures forall k :: k in todos && k != id ==> s.todos[k] == todos[k]
    ensures id in todos ==> s.todos[id].id == todos[id].id && s.todos[id].userId == todos[id].userId
    ensures id in todos && title.Some? ==>
      s.todos[id].title == Trim(title.value) && s.todos[id].progress == progress && s.todos[id].date == date
    ensures title.None? ==> s.todos == todos
    ensures Keyed(todos) ==> Keyed(s.todos)
  {
    if id !in todos then Step(Response(404, NotFound(id)), todos)
    else
      var todo := todos[id];
      var sent := if StrictlyUnequal(caller, todo.userId) then Some(Response(403, NoContent)) else None;
      match title
      case None => Step(FirstSent(sent, Response(500, Failed(UpdateFailed))), todos)
      case Some(raw) =>
        var row := todo.(title := Trim(raw), progress := progress, date := date);
        Step(FirstSent(sent, Response(200, Updated)), todos[id := row])
  }

  /** `deleteTodo` as written: 404 for an unknown id; otherwise 403 for a
      non-owner or 200 for the owner, and in both cases the row is gone. */
  function DeleteStep(todos: map<Id, Todo>, caller: Option<Id>, id: Id): (s: Step)
    ensures id !in todos ==> s == Step(Response(404, NotFound(id)), todos)
    ensures id in todos ==>
      s.res == (if StrictlyUnequal(caller, todos[id].userId) then Response(403, NoContent) else Response(200, Deleted))
    ensures s.todos == todos - {id}
    ensures id in todos ==> |s.todos| == |todos| - 1
    ensures Keyed(todos) ==> Keyed(s.todos)
  {
    if id !in todos then Step(Response(404, NotFound(id)), todos)
    else
      var sent := if StrictlyUnequal(caller, todos[id].userId) then Some(Response(403, NoContent)) else None;
      Step(FirstSent(sent, Response(200, Deleted)), todos - {id})
  }

  /** `getUserTodos`: 403 when the path id is not the caller's id, otherwise
      every row whose `user_id` is the path id, in no particular order, with
      `result` the number of those rows. */
  function ListUserStep(todos: map<Id, Todo>, caller: Option<Id>, userId: Id): (r: Response)
    ensures r.status == 403 <==> StrictlyUnequal(Some(userId), caller)
    ensures r.status == 403 ==> r.body == NoContent
    ensures r.status != 403 ==> r.status == 200 && r.body.Listing?
    ensures r.body.Listing? ==>
      && (forall t :: t in r.body.todos <==> t in todos.Values && t.userId == Some(userId))
      && r.body.result == |r.body.todos|
  {
    var rows := set t | t in todos.Values && t.userId == Some(userId);
    var sent := if StrictlyUnequal(Some(userId), caller) then Some(Response(403, NoContent)) else None;
    FirstSent(sent, Response(200, Listing(|rows|, rows)))
  }

  /** `getAllTodos`: every row of the table, whoever asks. */
  function ListAllStep(todos: map<Id, Todo>): (r: Response)
    ensures r.status == 200 && r.body.Listing?
    ensures forall t :: t in r.body.todos <==> t in todos.Values
    ensures r.body.result == |r.body.todos|
  {
    Response(200, Listing(|todos.Values|, todos.Values))
  }

  /** `updateTodo` with the owner check as a gate (a `return` after the 403):
      a non-owner gets 403 and the table is untouched, so only the owner ever
      changes a row; for the owner it is the handler as written. */
  function UpdateGatedStep(todos: map<Id, Todo>, caller: Option<Id>, id: Id, title: Option<string>,
                           progress: int, date: Date): (s: Step)
    ensures id !in todos ==> s == Step(Response(404, NotFound(id)), todos)
    ensures id in todos && StrictlyUnequal(caller, todos[id].userId) ==> s == Step(Response(403, NoContent), todos)
    ensures s.todos != todos ==> id in todos && caller.Some? && caller == todos[id].userId
    ensures id in todos && !StrictlyUnequal(caller, todos[id].userId) ==>
      s == UpdateStep(todos, caller, id, title, progress, date)
  {
    if id in todos && StrictlyUnequal(caller, todos[id].userId) then Step(Response(403, NoContent), todos)
    else UpdateStep(todos, caller, id, title, progress, date)
  }

  /** `deleteTodo` with the owner check as a gate: only the owner ever removes
      a row. */
  function DeleteGatedStep(todos: map<Id, Todo>, caller: Option<Id>, id: Id): (s: Step)
    ensures id !in todos ==> s == Step(Response(404, NotFound(id)), todos)
    ensures id in todos && StrictlyUnequal(caller, todos[id].userId) ==> s == Step(Response(403, NoContent), todos)
    ensures id in todos && !StrictlyUnequal(caller, todos[id].userId) ==> s == Step(Response(200, Deleted), todos - {id})
    ensures s.todos != todos ==> id in todos && caller.Some? && caller == todos[id].userId
  {
    if id in todos && StrictlyUnequal(caller, todos[id].userId) then Step(Response(403, NoContent), todos)
    else DeleteStep(todos, caller, id)
  }

  /** Distinct ids hold distinct rows, so a set of ids and the set of their
      rows have the same size. */
  lemma {:induction false} RowsCount(todos: map<Id, Todo>, keys: set<Id>)
    requires Keyed(todos) && keys <= todos.Keys
    ensures |Rows(todos, keys)| == |keys|
    decreases keys
  {
    if keys != {} {
      var k :| k in keys;
      var rest := keys - {k};
      RowsCount(todos, rest);
      assert Rows(todos, keys) == Rows(todos, rest) + {todos[k]};
      assert todos[k] !in Rows(todos, rest);
    }
  }

  /** The `result` that `getUserTodos` reports is the number of rows the user
      owns, i.e. the row count of the SELECT. */
  lemma ListUserCount(todos: map<Id, Todo>, caller: Option<Id>, userId: Id)
    requires Keyed(todos)
    ensures var r := ListUserStep(todos, caller, userId);
      r.body.Listing? ==> r.body.result == |OwnedIds(todos, userId)|
  {
    var r := ListUserStep(todos, caller, userId);
    if r.body.Listing? {
      assert r.body.todos == Rows(todos, OwnedIds(todos, userId));
      RowsCount(todos, OwnedIds(todos, userId));
    }
  }

  /** The `result` that `getAllTodos` reports is the number of rows. */
  lemma ListAllCount(todos: map<Id, Todo>)
    requires Keyed(todos)
    ensures ListAllStep(todos).body.result == |todos|
  {
    assert todos.Values == Rows(todos, todos.Keys);
    RowsCount(todos, todos.Keys);
  }

  /** A created todo read back by its creator: the owner gets the row exactly
      as created (trimmed title, given progress and date), but a caller without
      an id (no token middleware ran) gets 403 even for the todo it created. */
  lemma CreateThenGet(todos: map<Id, Todo>, caller: Option<Id>, title: string, progress: int, date: Date, id: Id)
    requires id !in todos
    ensures var s := CreateStep(todos, caller, Some(title), progress, date, id);
      GetStep(s.todos, caller, id) ==
        if caller.Some? then Response(200, Found(Todo(id, caller, Trim(title), progress, date)))
        else Response(403, NoContent)
  {
    var s := CreateStep(todos, caller, Some(title), progress, date, id);
    var t := Todo(id, caller, Trim(title), progress, date);
    assert s.todos[id] == t;
    if caller.Some? {
      assert !StrictlyUnequal(caller, t.userId);
    } else {
      assert StrictlyUnequal(caller, t.userId);
    }
  }

  /** Sending a created todo's title back in an update leaves the title as
      it was: the update trims it again, and trimming twice is trimming once. */
  lemma ResentTitleUnchanged(todos: map<Id, Todo>, caller: Option<Id>, title: string, progress: int,
                             date: Date, id: Id, progress': int, date': Date)
    requires id !in todos
    ensures var created := CreateStep(todos, caller, Some(title), progress, date, id);
      var t := created.todos[id];
      UpdateStep(created.todos, caller, id, Some(t.title), progress', date').todos[id].title == t.title
  {
    TrimIdempotent(title);
  }

  /** After a delete, whoever asked for it, the todo is not found any more,
      and a second delete answers 404. */
  lemma DeleteThenGet(todos: map<Id, Todo>, caller: Option<Id>, other: Option<Id>, id: Id)
    ensures var s := DeleteStep(todos, caller, id);
      && GetStep(s.todos, other, id) == Response(404, NotFound(id))
      && DeleteStep(s.todos, other, id) == Step(Response(404, NotFound(id)), s.todos)
  {
  }

  /** The owner check is not a gate: a caller who is not the owner is answered
      403, yet the title, progress and date of the row are overwritten. */
  lemma NonOwnerUpdateStillWrites(todos: map<Id, Todo>, caller: Option<Id>, id: Id,
                                  title: string, progress: int, date: Date)
    requires id in todos && StrictlyUnequal(caller, todos[id].userId)
    requires todos[id].progress != progress
    ensures var s := UpdateStep(todos, caller, id, Some(title), progress, date);
      && s.res == Response(403, NoContent)
      && s.todos != todos
      && s.todos[id].title == Trim(title) && s.todos[id].progress == progress && s.todos[id].date == date
  {
    var s := UpdateStep(todos, caller, id, Some(title), progress, date);
    assert s.todos[id] != todos[id];
  }

  /** The owner check is not a gate: a caller who is not the owner is answered
      403, yet the row is deleted. */
  lemma NonOwnerDeleteStillRemoves(todos: map<Id, Todo>, caller: Option<Id>, id: Id)
    requires id in todos && StrictlyUnequal(caller, todos[id].userId)
    ensures var s := DeleteStep(todos, caller, id);
      s.res == Response(403, NoContent) && id !in s.todos && |s.todos| == |todos| - 1
  {
  }

  /** With no token middleware on the routes the caller id is undefined, so
      every owner check fails: any existing todo is answered 403 to a read,
      and is still rewritten or deleted by an update or a delete. */
  lemma WithoutCallerEveryCheckFails(todos: map<Id, Todo>, id: Id, userId: Id, title: string, progress: int, date: Date)
    requires id in todos
    ensures GetStep(todos, None, id) == Response(403, NoContent)
    ensures ListUserStep(todos, None, userId) == Response(403, NoContent)
    ensures var s := UpdateStep(todos, None, id, Some(title), progress, date);
      s.res.status == 403 && s.todos[id].title == Trim(title)
    ensures DeleteStep(todos, None, id) == Step(Response(403, NoContent), todos - {id})
  {
  }

  /** The `todos` table, updated in place by the handlers. */
  class TodoTable {
    var todos: map<Id, Todo>

    ghost predicate Valid()
      reads this
    {
      Keyed(todos)
    }

    constructor ()
      ensures Valid() && todos == map[]
    {
      todos := map[];
    }

    /** `createTodo`; `id` is the uuid the handler draws, new to the table. */
    method CreateTodo(caller: Option<Id>, title: Option<string>, progress: int, date: Date, id: Id)
      returns (res: Response)
      requires Valid() && id !in todos
      modifies this
      ensures Valid()
      ensures Step(res, todos) == CreateStep(old(todos), caller, title, progress, date, id)
    {
      if title.None? {
        res := Response(500, Failed(CreateFailed));
        return;
      }
      var trimmed := Trim(title.value);
      var row := Todo(id, caller, trimmed, progress, date);
      todos := todos[id := row];
      res := Response(201, Created(row));
    }

    /** `updateTodo` as written, the owner check falling through. */
    method UpdateTodo(caller: Option<Id>, id: Id, title: Option<string>, progress: int, date: Date)
      returns (res: Response)
      requires Valid()
      modifies this
      ensures Valid()
      ensures Step(res, todos) == UpdateStep(old(todos), caller, id, title, progress, date)
    {
      if id !in todos {
        res := Response(404, NotFound(id));
        return;
      }
      var todo := todos[id];
      var sent: Option<Response> := None;
      if StrictlyUnequal(caller, todo.userId) {
        sent := Some(Response(403, NoContent));
      }
      if title.None? {
        res := FirstSent(sent, Response(500, Failed(UpdateFailed)));
        return;
      }
      var trimmed := Trim(title.value);
      var row := todo.(title := trimmed, progress := progress, date := date);
      todos := todos[id := row];
      res := FirstSent(sent, Response(200, Updated));
      assert UpdateStep(old(todos), caller, id, title, progress, date) == Step(res, old(todos)[id := row]);
    }

    /** `deleteTodo` as written, the owner check falling through. */
    method DeleteTodo(caller: Option<Id>, id: Id) returns (res: Response)
      requires Valid()
      modifies this
      ensures Valid()
      ensures Step(res, todos) == DeleteStep(old(todos), caller, id)
    {
      if id !in todos {
        res := Response(404, NotFound(id));
        return;
      }
      var sent: Option<Response> := None;
      if StrictlyUnequal(caller, todos[id].userId) {
        sent := Some(Response(403, NoContent));
      }
      todos := todos - {id};
      res := FirstSent(sent, Response(200, Deleted));
    }

    /** `getTodo`; it has no `modifies` clause, so it cannot change the table. */
    method GetTodo(caller: Option<Id>, id: Id) returns (res: Response)
      ensures res == GetStep(todos, caller, id)
    {
      if id !in todos {
        res := Response(404, NotFound(id));
        return;
      }
      var todo := todos[id];
      var sent: Option<Response> := None;
      if StrictlyUnequal(caller, todo.userId) {
        sent := Some(Response(403, NoContent));
      }
      res := FirstSent(sent, Response(200, Found(todo)));
    }

    /** `getUserTodos`; read-only. */
    method GetUserTodos(caller: Option<Id>, userId: Id) returns (res: Response)
      ensures res == ListUserStep(todos, caller, userId)
    {
      var sent: Option<Response> := None;
      if StrictlyUnequal(Some(userId), caller) {
        sent := Some(Response(403, NoContent));
      }
      var rows := set t | t in todos.Values && t.userId == Some(userId);
      res := FirstSent(sent, Response(200, Listing(|rows|, rows)));
    }

    /** `getAllTodos`; read-only, and it answers every caller. */
    method GetAllTodos() returns (res: Response)
      ensures res == ListAllStep(todos)
    {
      var rows := todos.Values;
      res := Response(200, Listing(|rows|, rows));
    }

    /** `updateTodo` with a `return` after the 403. */
    method UpdateTodoGated(caller: Option<Id>, id: Id, title: Option<string>, progress: int, date: Date)
      returns (res: Response)
      requires Valid()
      modifies this
      ensures Valid()
      ensures Step(res, todos) == UpdateGatedStep(old(todos), caller, id, title, progress, date)
    {
      if id in todos && StrictlyUnequal(caller, todos[id].userId) {
        res := Response(403, NoContent);
        return;
      }
      res := UpdateTodo(caller, id, title, progress, date);
    }

    /** `deleteTodo` with a `return` after the 403. */
    method DeleteTodoGated(caller: Option<Id>, id: Id) returns (res: Response)
      requires Valid()
      modifies this
      ensures Valid()
      ensures Step(res, todos) == DeleteGatedStep(old(todos), caller, id)
    {
      if id in todos && StrictlyUnequal(caller, todos[id].userId) {
        res := Response(403, NoContent);
        return;
      }
      res := DeleteTodo(caller, id);
    }
  }
}
