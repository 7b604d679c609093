/** The storage the controllers consult: sessions, users and todos, the
    queries the handlers issue against them, and the database object whose
    todos table the mutating handlers change. */
module Models {
  import opened Wrappers

  /** A row of the todos table. */
  datatype Todo = Todo(id: int, content: string, userId: int)

  /** A snapshot of the database: the session table (token to the id of the
      user it was issued to), the ids of the existing users, the todos table
      keyed by id, and the id the next inserted todo receives. */
  datatype Db = Db(sessions: map<string, int>, users: set<int>, todos: map<int, Todo>, nextId: int)

  /** Every row sits under its own id, and every id was handed out before
      the counter reached its current value. */
  ghost predicate WellFormed(db: Db) {
    1 <= db.nextId &&
    forall id :: id in db.todos ==> 1 <= id < db.nextId && db.todos[id].id == id
  }

  /** What a query returns: its rows, `sql.ErrNoRows`, or any other error. */
  datatype Query<T> = Rows(value: T) | ErrNoRows | ErrDb

  /** `session(w, r)`: the session named by the request's cookie, given as
      the id of the user it belongs to. */
  function Session(sessions: map<string, int>, cookie: Option<string>): Option<int> {
    if cookie.Some? && cookie.value in sessions then Some(sessions[cookie.value]) else None
  }

  /** `s.GetUserBySession()`: the id of the session's user, when that user
      row exists and the query does not fail. */
  function GetUserBySession(users: set<int>, userId: int, fails: bool): Option<int> {
    if fails || userId !in users then None else Some(userId)
  }

  /** `models.GetTodo(id)`. */
  function GetTodo(todos: map<int, Todo>, id: int, fails: bool): Query<Todo> {
    if fails then ErrDb else if id in todos then Rows(todos[id]) else ErrNoRows
  }

  /** The todos of user `userId` whose ids are below `n`, in ascending id order. */
  function OwnedBelow(todos: map<int, Todo>, userId: int, n: int): seq<Todo>
    decreases n
  {
    if n <= 1 then []
    else OwnedBelow(todos, userId, n - 1) +
         (if n - 1 in todos && todos[n - 1].userId == userId then [todos[n - 1]] else [])
  }

  /** `u.GetTodosByUser()`: the user's todos. The model returns nil (`None`)
      when the user has no rows, the case the handler's nil check turns into
      an empty list. */
  function GetTodosByUser(todos: map<int, Todo>, nextId: int, userId: int, fails: bool): Query<Option<seq<Todo>>> {
    if fails then ErrDb
    else
      var owned := OwnedBelow(todos, userId, nextId);
      Rows(if owned == [] then None else Some(owned))
  }

  /** `u.CreateTodo(content)`: a new row owned by `userId` under the next id. */
  function Insert(db: Db, userId: int, content: string): (db': Db)
    ensures WellFormed(db) ==> WellFormed(db') && db.nextId !in db.todos
  {
    db.(todos := db.todos[db.nextId := Todo(db.nextId, content, userId)], nextId := db.nextId + 1)
  }

  /** `t.UpdateTodo()`: the row with `t`'s id now holds `t`; an id with no
      row updates nothing. */
  function Replace(db: Db, t: Todo): (db': Db)
    ensures db'.todos.Keys == db.todos.Keys && db'.nextId == db.nextId
    ensures WellFormed(db) ==> WellFormed(db')
  {
    if t.id in db.todos then db.(todos := db.todos[t.id := t]) else db
  }

  /** `t.DeleteTodo()`: the row with id `id` is gone. */
  function Remove(db: Db, id: int): (db': Db)
    ensures db'.todos.Keys == db.todos.Keys - {id}
    ensures WellFormed(db) ==> WellFormed(db')
  {
    db.(todos := db.todos - {id})
  }

  /** The database behind the global `Db` handle. Only the todos table and
      its id counter change; sessions and users are read. */
  class Database {
    const sessions: map<string, int>
    const users: set<int>
    var todos: map<int, Todo>
    var nextId: int

    ghost function State(): Db
      reads this
    {
      Db(sessions, users, todos, nextId)
    }

    ghost predicate Valid()
      reads this
    {
      WellFormed(State())
    }

    constructor (sessions: map<string, int>, users: set<int>)
      ensures Valid()
      ensures State() == Db(sessions, users, map[], 1)
    {
      this.sessions := sessions;
      this.users := users;
      todos := map[];
      nextId := 1;
    }

    /** Inserts a todo for `userId`; `fails` is the database refusing the write. */
    method CreateTodo(userId: int, content: string, fails: bool) returns (ok: bool)
      requires Valid()
      modifies this
      ensures Valid()
      ensures ok == !fails
      ensures State() == if ok then Insert(old(State()), userId, content) else old(State())
    {
      if fails {
        return false;
      }
      todos := todos[nextId := Todo(nextId, content, userId)];
      nextId := nextId + 1;
      ok := true;
    }

    /** Writes `t` back to its row. */
    method UpdateTodo(t: Todo, fails: bool) returns (ok: bool)
      requires Valid()
      modifies this
      ensures Valid()
      ensures ok == !fails
      ensures State() == if ok then Replace(old(State()), t) else old(State())
    {
      if fails {
        return false;
      }
      if t.id in todos {
        todos := todos[t.id := t];
      }
      ok := true;
    }

    /** Deletes the row of `t`. */
    method DeleteTodo(t: Todo, fails: bool) returns (ok: bool)
      requires Valid()
      modifies this
      ensures Valid()
      ensures ok == !fails
      ensures State() == if ok then Remove(old(State()), t.id) else old(State())
    {
      if fails {
        return false;
      }
      todos := todos - {t.id};
      ok := true;
    }
  }
}
