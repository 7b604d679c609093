/** What each todo handler decides, as a function of the database snapshot,
    the request and the collaborator failures: the response written and the
    database afterwards. The steps run in the order the handlers take them,
    and the first that fails decides the status. */
module Handlers {
  import opened Wrappers
  import opened Models
  import opened Http

  datatype Outcome = Outcome(response: Response, db: Db)

  /** A response without a JSON document, the database left as it is. */
  function Reply(status: int, db: Db): Outcome {
    Outcome(Response(status, Empty), db)
  }

  /** `todoHandler`: the `/todos` route. */
  function TodoHandler(db: Db, req: Request, f: Faults): (o: Outcome)
    ensures o.response.status == StatusMethodNotAllowed <==> req.verb !in {MethodGet, MethodPost}
    ensures o.response.status == StatusMethodNotAllowed ==> o.db == db
    ensures WellFormed(db) ==> WellFormed(o.db)
  {
    if req.verb == MethodGet then GetTodos(db, req, f)
    else if req.verb == MethodPost then PostTodo(db, req, f)
    else Reply(StatusMethodNotAllowed, db)
  }

  /** `todoIdHandler`: the `/todos/{id}` route. */
  function TodoIdHandler(db: Db, req: Request, f: Faults): (o: Outcome)
    ensures o.response.status == StatusMethodNotAllowed <==> req.verb !in {MethodGet, MethodPatch, MethodDelete}
    ensures o.response.status == StatusMethodNotAllowed ==> o.db == db
    ensures WellFormed(db) ==> WellFormed(o.db)
  {
    if req.verb == MethodGet then GetTodoById(db, req, f)
    else if req.verb == MethodPatch then UpdateTodo(db, req, f)
    else if req.verb == MethodDelete then DeleteTodo(db, req, f)
    else Reply(StatusMethodNotAllowed, db)
  }

  /** `getTodos`: the caller's todos as a list. */
  function GetTodos(db: Db, req: Request, f: Faults): (o: Outcome)
    ensures o.db == db
    ensures o.response.status in {StatusOK, StatusUnauthorized, StatusInternalServerError}
    ensures o.response.status == StatusUnauthorized <==> Session(db.sessions, req.cookie).None?
    ensures o.response.status == StatusOK ==> o.response.payload.TodoList?
    ensures o.response.status != StatusOK ==> o.response.payload == Empty
  {
    match Session(db.sessions, req.cookie)
    case None => Reply(StatusUnauthorized, db)
    case Some(sessionUser) =>
      match GetUserBySession(db.users, sessionUser, f.userLookup)
      case None => Reply(StatusInternalServerError, db)
      case Some(userId) =>
        match GetTodosByUser(db.todos, db.nextId, userId, f.query)
        case Rows(t) =>
          var todos := if t.Some? then t.value else [];
          if f.encode then Reply(StatusInternalServerError, db)
          else Outcome(Response(StatusOK, TodoList(todos)), db)
        case _ => Reply(StatusInternalServerError, db)
  }

  /** `postTodo`: a new todo for the caller. */
  function PostTodo(db: Db, req: Request, f: Faults): (o: Outcome)
    ensures o.response.status in {StatusOK, StatusUnauthorized, StatusInternalServerError}
    ensures o.response.status == StatusUnauthorized <==> Session(db.sessions, req.cookie).None?
    ensures o.response.payload == Empty
    ensures o.response.status != StatusOK ==> o.db == db
    ensures WellFormed(db) ==> WellFormed(o.db)
  {
    match Session(db.sessions, req.cookie)
    case None => Reply(StatusUnauthorized, db)
    case Some(sessionUser) =>
      match req.content
      case None => Reply(StatusInternalServerError, db)
      case Some(content) =>
        match GetUserBySession(db.users, sessionUser, f.userLookup)
        case None => Reply(StatusInternalServerError, db)
        case Some(userId) =>
          if f.write then Reply(StatusInternalServerError, db)
          else Reply(StatusOK, Insert(db, userId, content))
  }

  /** `getTodoById`: one todo by id. The session is checked but its user is
      never compared with the todo's owner. */
  function GetTodoById(db: Db, req: Request, f: Faults): (o: Outcome)
    ensures o.db == db
    ensures o.response.status in {StatusOK, StatusUnauthorized, StatusNotFound, StatusInternalServerError}
    ensures o.response.status == StatusUnauthorized <==> Session(db.sessions, req.cookie).None?
    ensures o.response.status == StatusOK ==>
              req.pathId.Some? && req.pathId.value in db.todos &&
              o.response.payload == OneTodo(db.todos[req.pathId.value])
    ensures o.response.status != StatusOK ==> o.response.payload == Empty
  {
    match Session(db.sessions, req.cookie)
    case None => Reply(StatusUnauthorized, db)
    case Some(_) =>
      match req.pathId
      case None => Reply(StatusNotFound, db)
      case Some(id) =>
        match GetTodo(db.todos, id, f.query)
        case ErrNoRows => Reply(StatusNotFound, db)
        case ErrDb => Reply(StatusInternalServerError, db)
        case Rows(todo) =>
          if f.encode then Reply(StatusInternalServerError, db)
          else Outcome(Response(StatusOK, OneTodo(todo)), db)
  }

  /** `updateTodo`: new content for one of the caller's todos. */
  function UpdateTodo(db: Db, req: Request, f: Faults): (o: Outcome)
    ensures o.response.status in {StatusOK, StatusUnauthorized, StatusNotFound, StatusInternalServerError}
    ensures o.response.status == StatusUnauthorized <==> Session(db.sessions, req.cookie).None?
    ensures o.response.payload == Empty
    ensures o.response.status != StatusOK ==> o.db == db
    ensures WellFormed(db) ==> WellFormed(o.db)
  {
    match Session(db.sessions, req.cookie)
    case None => Reply(StatusUnauthorized, db)
    case Some(sessionUser) =>
      match req.pathId
      case None => Reply(StatusNotFound, db)
      case Some(id) =>
        match GetUserBySession(db.users, sessionUser, f.userLookup)
        case None => Reply(StatusInternalServerError, db)
        case Some(userId) =>
          match req.content
          case None => Reply(StatusInternalServerError, db)
          case Some(content) =>
            match GetTodo(db.todos, id, f.query)
            case ErrNoRows => Reply(StatusNotFound, db)
            case ErrDb => Reply(StatusInternalServerError, db)
            case Rows(t) =>
              if t.userId != userId then Reply(StatusNotFound, db)
              else if f.write then Reply(StatusInternalServerError, db)
              else Reply(StatusOK, Replace(db, t.(content := content)))
  }

  /** `deleteTodo`: removes one of the caller's todos. */
  function DeleteTodo(db: Db, req: Request, f: Faults): (o: Outcome)
    ensures o.response.status in {StatusOK, StatusUnauthorized, StatusNotFound, StatusInternalServerError}
    ensures o.response.status == StatusUnauthorized <==> Session(db.sessions, req.cookie).None?
    ensures o.response.payload == Empty
    ensures o.response.status != StatusOK ==> o.db == db
    ensures WellFormed(db) ==> WellFormed(o.db)
  {
    match Session(db.sessions, req.cookie)
    case None => Reply(StatusUnauthorized, db)
    case Some(sessionUser) =>
      match req.pathId
      case None => Reply(StatusNotFound, db)
      case Some(id) =>
        match GetUserBySession(db.users, sessionUser, f.userLookup)
        case None => Reply(StatusInternalServerError, db)
        case Some(userId) =>
          match GetTodo(db.todos, id, f.query)
          case ErrNoRows => Reply(StatusNotFound, db)
          case ErrDb => Reply(StatusInternalServerError, db)
          case Rows(t) =>
            if t.userId != userId then Reply(StatusNotFound, db)
            else if f.write then Reply(StatusInternalServerError, db)
            else Reply(StatusOK, Remove(db, t.id))
  }
}
