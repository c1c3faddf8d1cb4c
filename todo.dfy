/**
 * The todo-list example's model and its `POST` route:
 * `examples/todo-list-server/models/todo.ts` keeps the todos in one module-level
 * array that `addTodo` prepends to and `updateTodo` edits in place, and
 * `examples/todo-list-server/routes/todo/index.server.ts` checks a submitted todo
 * before storing it.
 */
module Todo {
  import opened Common
  import Js
  import Responses

  /** A todo as stored: whatever the request gave for each of the three fields. */
  datatype Todo = Todo(done: Js.JsVal, id: Js.JsVal, title: Js.JsVal)

  /** A `Partial<Todo>` for `updateTodo`: `Undefined` is a field not provided. */
  datatype TodoUpdate = TodoUpdate(done: Js.JsVal, title: Js.JsVal)

  /** The update applied to one todo: each provided field replaced, the id never. */
  function Apply(t: Todo, u: TodoUpdate): (r: Todo)
    ensures r.id == t.id
    ensures u.done.Undefined? ==> r.done == t.done
    ensures !u.done.Undefined? ==> r.done == u.done
    ensures u.title.Undefined? ==> r.title == t.title
    ensures !u.title.Undefined? ==> r.title == u.title
  {
    Todo(if u.done.Undefined? then t.done else u.done, t.id, if u.title.Undefined? then t.title else u.title)
  }

  /** Applying the same update twice changes nothing more. */
  lemma ApplyIdempotent(t: Todo, u: TodoUpdate)
    ensures Apply(Apply(t, u), u) == Apply(t, u)
  {
  }

  /** An update providing no field leaves the todo as it was. */
  lemma ApplyNothing(t: Todo)
    ensures Apply(t, TodoUpdate(Js.Undefined, Js.Undefined)) == t
  {
  }

  /** `todos.find((t) => t.id === id)`, as a position or -1. */
  function FirstWithId(todos: seq<Todo>, id: string): (i: int)
    ensures -1 <= i < |todos|
    ensures i == -1 <==> forall j :: 0 <= j < |todos| ==> todos[j].id != Js.Str(id)
    ensures 0 <= i ==> todos[i].id == Js.Str(id) && forall j :: 0 <= j < i ==> todos[j].id != Js.Str(id)
  {
    if todos == [] then -1
    else if todos[0].id == Js.Str(id) then 0
    else
      var k := FirstWithId(todos[1..], id);
      if k == -1 then -1 else k + 1
  }

  /** The list after `updateTodo`: only the first todo with the id is changed; the order is kept. */
  function Updated(todos: seq<Todo>, id: string, u: TodoUpdate): (r: seq<Todo>)
    ensures |r| == |todos|
    ensures forall j :: 0 <= j < |r| ==> r[j].id == todos[j].id
    ensures forall j :: 0 <= j < |r| && j != FirstWithId(todos, id) ==> r[j] == todos[j]
    ensures FirstWithId(todos, id) == -1 ==> r == todos
    ensures FirstWithId(todos, id) >= 0 ==> r[FirstWithId(todos, id)] == Apply(todos[FirstWithId(todos, id)], u)
  {
    var i := FirstWithId(todos, id);
    if i == -1 then todos else todos[i := Apply(todos[i], u)]
  }

  /** Updating a todo just added changes that todo, the first with its id, and no other. */
  lemma UpdateAfterAdd(t: Todo, todos: seq<Todo>, id: string, u: TodoUpdate)
    requires t.id == Js.Str(id)
    ensures Updated([t] + todos, id, u) == [Apply(t, u)] + todos
  {
    assert FirstWithId([t] + todos, id) == 0;
  }

  /** The module-level `todos` array. */
  class TodoStore {
    var todos: seq<Todo>

    constructor()
      ensures todos == []
    {
      todos := [];
    }

    /** `addTodo`: `todos.unshift(todo)`, which gives the new length. */
    method AddTodo(todo: Todo) returns (length: nat)
      modifies this
      ensures todos == [todo] + old(todos)
      ensures length == |todos|
    {
      todos := [todo] + todos;
      length := |todos|;
    }

    /** `findTodos`: the current list, newest first. */
    method FindTodos() returns (r: seq<Todo>)
      ensures r == todos
    {
      r := todos;
    }

    /** `updateTodo`: the updated todo, or `None` (`undefined`) when no todo has the id. */
    method UpdateTodo(id: string, u: TodoUpdate) returns (r: Option<Todo>)
      modifies this
      ensures todos == Updated(old(todos), id, u)
      ensures r.None? <==> FirstWithId(old(todos), id) == -1
      ensures r.Some? ==> r.value == todos[FirstWithId(old(todos), id)]
    {
      var i := FirstWithId(todos, id);
      if i == -1 {
        return None;
      }
      var todo := todos[i];
      if !u.done.Undefined? {
        todo := todo.(done := u.done);
      }
      if !u.title.Undefined? {
        todo := todo.(title := u.title);
      }
      todos := todos[i := todo];
      r := Some(todo);
    }
  }

  // ----- the `POST` route -----

  /** `const { done, id, title } = body`. */
  function Submitted(body: Js.JsVal): Todo {
    Todo(Js.Get(body, "done"), Js.Get(body, "id"), Js.Get(body, "title"))
  }

  /** The route's check: both an id and a title, neither of them falsy. */
  predicate Acceptable(t: Todo) {
    Js.Truthy(t.id) && Js.Truthy(t.title)
  }

  /** The object `{ done, id, title }`. */
  function AsJson(t: Todo): (v: Js.JsVal)
    ensures Js.Get(v, "done") == t.done && Js.Get(v, "id") == t.id && Js.Get(v, "title") == t.title
  {
    var fields := [("done", t.done), ("id", t.id), ("title", t.title)];
    assert Js.KeyIndex(fields[2..], "title") == 0;
    assert Js.KeyIndex(fields[1..], "id") == 0;
    Js.Obj(fields)
  }

  const MissingFields := "Todo must have an id and a title"

  /** Destructuring `null` or `undefined`. */
  const DestructureError := JsError("TypeError", "", "TypeError: Cannot destructure the request body")

  /**
   * `POST`: `parsed` is what `await req.json()` gives: the parsed body, or the error it
   * rejects with on a malformed body, which the route throws on. An acceptable todo is
   * stored at the front and answered with 200; otherwise 400 and nothing is stored.
   */
  method Post(store: TodoStore, parsed: Attempt<Js.JsVal>) returns (r: Attempt<Responses.Response>)
    modifies store
    ensures parsed.Threw? ==> r == Threw(parsed.error) && store.todos == old(store.todos)
    ensures parsed.Ok? && (parsed.value.Null? || parsed.value.Undefined?) ==>
      r == Threw(DestructureError) && store.todos == old(store.todos)
    ensures parsed.Ok? && !(parsed.value.Null? || parsed.value.Undefined?) && !Acceptable(Submitted(parsed.value)) ==>
      r == Responses.JsonResponse(Js.Obj([("error", Js.Str(MissingFields))]), 400)
      && store.todos == old(store.todos)
    ensures parsed.Ok? && !(parsed.value.Null? || parsed.value.Undefined?) && Acceptable(Submitted(parsed.value)) ==>
      r == Responses.JsonResponse(AsJson(Submitted(parsed.value)))
      && store.todos == [Submitted(parsed.value)] + old(store.todos)
  {
    if parsed.Threw? {
      return Threw(parsed.error);
    }
    var body := parsed.value;
    if body.Null? || body.Undefined? {
      return Threw(DestructureError);
    }
    var done, id, title := Js.Get(body, "done"), Js.Get(body, "id"), Js.Get(body, "title");
    if !Js.Truthy(id) || !Js.Truthy(title) {
      return Responses.JsonResponse(Js.Obj([("error", Js.Str(MissingFields))]), 400);
    }
    var todo := Todo(done, id, title);
    var _ := store.AddTodo(todo);
    r := Responses.JsonResponse(AsJson(todo));
  }

  /** Properties other than those looked up do not change what is read. */
  lemma {:induction false} GetIgnoresOthers(fields: seq<(string, Js.JsVal)>, extra: seq<(string, Js.JsVal)>, key: string)
    requires forall j :: 0 <= j < |extra| ==> extra[j].0 != key
    ensures Js.Get(Js.Obj(fields + extra), key) == Js.Get(Js.Obj(fields), key)
  {
    if fields == [] {
      assert fields + extra == extra;
    } else {
      assert (fields + extra)[1..] == fields[1..] + extra;
      GetIgnoresOthers(fields[1..], extra, key);
    }
  }

  /** Fields of the request other than `done`, `id` and `title` are dropped: they change nothing stored. */
  lemma ExtraFieldsDropped(fields: seq<(string, Js.JsVal)>, extra: seq<(string, Js.JsVal)>)
    requires forall j :: 0 <= j < |extra| ==> extra[j].0 != "done" && extra[j].0 != "id" && extra[j].0 != "title"
    ensures Submitted(Js.Obj(fields + extra)) == Submitted(Js.Obj(fields))
  {
    GetIgnoresOthers(fields, extra, "done");
    GetIgnoresOthers(fields, extra, "id");
    GetIgnoresOthers(fields, extra, "title");
  }

  /** A todo without a title, or with an empty one, is refused. */
  lemma EmptyTitleRefused(done: Js.JsVal, id: string)
    ensures !Acceptable(Submitted(Js.Obj([("done", done), ("id", Js.Str(id)), ("title", Js.Str(""))])))
    ensures !Acceptable(Submitted(Js.Obj([("done", done), ("id", Js.Str(id))])))
  {
    var a := [("done", done), ("id", Js.Str(id)), ("title", Js.Str(""))];
    assert Js.KeyIndex(a, "title") == 2;
    var b := [("done", done), ("id", Js.Str(id))];
    assert Js.KeyIndex(b, "title") == -1;
  }
}
