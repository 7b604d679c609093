/** The todo handlers as they run: each checks the request step by step,
    returns at the first step that fails, and otherwise changes the
    database object in place. Each is proved to produce exactly the response
    and the new database state its counterpart in `Handlers` describes. */
module Controllers {
  import opened Wrappers
  import opened Models
  import opened Http
  import Handlers

  method TodoHandler(db: Database, req: Request, f: Faults) returns (resp: Response)
    requires db.Valid()
    modifies db
    ensures db.Valid()
    ensures Handlers.TodoHandler(old(db.State()), req, f) == Handlers.Outcome(resp, db.State())
  {
    if req.verb == MethodGet {
      resp := GetTodos(db, req, f);
    } else if req.verb == MethodPost {
      resp := PostTodo(db, req, f);
    } else {
      resp := Response(StatusMethodNotAllowed, Empty);
    }
  }

  method TodoIdHandler(db: Database, req: Request, f: Faults) returns (resp: Response)
    requires db.Valid()
    modifies db
    ensures db.Valid()
    ensures Handlers.TodoIdHandler(old(db.State()), req, f) == Handlers.Outcome(resp, db.State())
  {
    if req.verb == MethodGet {
      resp := GetTodoById(db, req, f);
    } else if req.verb == MethodPatch {
      resp := UpdateTodo(db, req, f);
    } else if req.verb == MethodDelete {
      resp := DeleteTodo(db, req, f);
    } else {
      resp := Response(StatusMethodNotAllowed, Empty);
    }
  }

  method GetTodos(db: Database, req: Request, f: Faults) returns (resp: Response)
    requires db.Valid()
    ensures resp == Handlers.GetTodos(db.State(), req, f).response
  {
    var s := Session(db.sessions, req.cookie);
    if s.None? {
      return Response(StatusUnauthorized, Empty);
    }
    var u := GetUserBySession(db.users, s.value, f.userLookup);
    if u.None? {
      return Response(StatusInternalServerError, Empty);
    }
    var todos: seq<Todo> := [];
    var t := GetTodosByUser(db.todos, db.nextId, u.value, f.query);
    if !t.Rows? {
      return Response(StatusInternalServerError, Empty);
    }
    if t.value.Some? {
      todos := t.value.value;
    }
    if f.encode {
      return Response(StatusInternalServerError, Empty);
    }
    resp := Response(StatusOK, TodoList(todos));
  }

  method PostTodo(db: Database, req: Request, f: Faults) returns (resp: Response)
    requires db.Valid()
    modifies db
    ensures db.Valid()
    ensures Handlers.PostTodo(old(db.State()), req, f) == Handlers.Outcome(resp, db.State())
  {
    var s := Session(db.sessions, req.cookie);
    if s.None? {
      return Response(StatusUnauthorized, Empty);
    }
    if req.content.None? {
      return Response(StatusInternalServerError, Empty);
    }
    var u := GetUserBySession(db.users, s.value, f.userLookup);
    if u.None? {
      return Response(StatusInternalServerError, Empty);
    }
    var ok := db.CreateTodo(u.value, req.content.value, f.write);
    if !ok {
      return Response(StatusInternalServerError, Empty);
    }
    resp := Response(StatusOK, Empty);
  }

  method GetTodoById(db: Database, req: Request, f: Faults) returns (resp: Response)
    requires db.Valid()
    ensures resp == Handlers.GetTodoById(db.State(), req, f).response
  {
    var s := Session(db.sessions, req.cookie);
    if s.None? {
      return Response(StatusUnauthorized, Empty);
    }
    if req.pathId.None? {
      return Response(StatusNotFound, Empty);
    }
    var todo := GetTodo(db.todos, req.pathId.value, f.query);
    if todo.ErrNoRows? {
      return Response(StatusNotFound, Empty);
    } else if todo.ErrDb? {
      return Response(StatusInternalServerError, Empty);
    }
    if f.encode {
      return Response(StatusInternalServerError, Empty);
    }
    resp := Response(StatusOK, OneTodo(todo.value));
  }

  method UpdateTodo(db: Database, req: Request, f: Faults) returns (resp: Response)
    requires db.Valid()
    modifies db
    ensures db.Valid()
    ensures Handlers.UpdateTodo(old(db.State()), req, f) == Handlers.Outcome(resp, db.State())
  {
    var s := Session(db.sessions, req.cookie);
    if s.None? {
      return Response(StatusUnauthorized, Empty);
    }
    if req.pathId.None? {
      return Response(StatusNotFound, Empty);
    }
    var id := req.pathId.value;
    var u := GetUserBySession(db.users, s.value, f.userLookup);
    if u.None? {
      return Response(StatusInternalServerError, Empty);
    }
    if req.content.None? {
      return Response(StatusInternalServerError, Empty);
    }
    var q := GetTodo(db.todos, id, f.query);
    if q.ErrNoRows? {
      return Response(StatusNotFound, Empty);
    } else if q.ErrDb? {
      return Response(StatusInternalServerError, Empty);
    }
    var t := q.value;
    if t.userId != u.value {
      return Response(StatusNotFound, Empty);
    }
    t := t.(content := req.content.value);
    var ok := db.UpdateTodo(t, f.write);
    if !ok {
      return Response(StatusInternalServerError, Empty);
    }
    resp := Response(StatusOK, Empty);
  }

  method DeleteTodo(db: Database, req: Request, f: Faults) returns (resp: Response)
    requires db.Valid()
    modifies db
    ensures db.Valid()
    ensures Handlers.DeleteTodo(old(db.State()), req, f) == Handlers.Outcome(resp, db.State())
  {
    var s := Session(db.sessions, req.cookie);
    if s.None? {
      return Response(StatusUnauthorized, Empty);
    }
    if req.pathId.None? {
      return Response(StatusNotFound, Empty);
    }
    var id := req.pathId.value;
    var u := GetUserBySession(db.users, s.value, f.userLookup);
    if u.None? {
      return Response(StatusInternalServerError, Empty);
    }
    var q := GetTodo(db.todos, id, f.query);
    if q.ErrNoRows? {
      return Response(StatusNotFound, Empty);
    } else if q.ErrDb? {
      return Response(StatusInternalServerError, Empty);
    }
    var t := q.value;
    if t.userId != u.value {
      return Response(StatusNotFound, Empty);
    }
    var ok := db.DeleteTodo(t, f.write);
    if !ok {
      return Response(StatusInternalServerError, Empty);
    }
    resp := Response(StatusOK, Empty);
  }
}
