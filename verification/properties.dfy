/** What the todo handlers guarantee: the listing query, rejection of
    requests without a session, the not-found answers (including the one
    that hides other users' todos), the exact effect of each successful
    mutation, and what a later request sees after it. */
module Properties {
  import opened Wrappers
  import opened Models
  import opened Http
  import opened Handlers

  /** Every row sits under its own id. */
  ghost predicate Keyed(todos: map<int, Todo>) {
    forall id :: id in todos ==> todos[id].id == id
  }

  /** The request carries a session of user `userId`, whose row the user
      lookup finds. */
  ghost predicate SignedIn(db: Db, req: Request, f: Faults, userId: int) {
    Session(db.sessions, req.cookie) == Some(userId) && userId in db.users && !f.userLookup
  }

  // ---------------------------------------------------------------------
  // The listing query

  /** The listing holds exactly the user's rows with ids in `[1, n)`. */
  lemma {:induction false} OwnedBelowMembers(todos: map<int, Todo>, userId: int, n: int)
    requires Keyed(todos)
    ensures forall t :: t in OwnedBelow(todos, userId, n) <==>
              t.id in todos && todos[t.id] == t && t.userId == userId && 1 <= t.id < n
    decreases n
  {
    if n > 1 {
      OwnedBelowMembers(todos, userId, n - 1);
    }
  }

  /** The listing is in strictly ascending id order, so no todo appears twice. */
  lemma {:induction false} OwnedBelowAscending(todos: map<int, Todo>, userId: int, n: int)
    requires Keyed(todos)
    ensures forall i :: 0 <= i < |OwnedBelow(todos, userId, n)| ==> OwnedBelow(todos, userId, n)[i].id < n
    ensures forall i, j :: 0 <= i < j < |OwnedBelow(todos, userId, n)| ==>
              OwnedBelow(todos, userId, n)[i].id < OwnedBelow(todos, userId, n)[j].id
    decreases n
  {
    if n > 1 {
      OwnedBelowAscending(todos, userId, n - 1);
    }
  }

  /** The listing below `n` depends only on the rows with ids below `n`. */
  lemma {:induction false} OwnedBelowFrame(todos: map<int, Todo>, todos': map<int, Todo>, userId: int, n: int)
    requires forall id :: id < n ==> (id in todos <==> id in todos')
    requires forall id :: id < n && id in todos ==> todos[id] == todos'[id]
    ensures OwnedBelow(todos, userId, n) == OwnedBelow(todos', userId, n)
    decreases n
  {
    if n > 1 {
      OwnedBelowFrame(todos, todos', userId, n - 1);
    }
  }

  /** A signed-in caller whose queries succeed receives a list (never a null
      document) holding exactly their own todos, each once, in ascending id
      order; the list is empty exactly when they own no todo. */
  lemma ListsCallersTodos(db: Db, req: Request, f: Faults, userId: int)
    requires WellFormed(db)
    requires SignedIn(db, req, f, userId) && !f.query && !f.encode
    ensures GetTodos(db, req, f).response.status == StatusOK
    ensures GetTodos(db, req, f).response.payload.TodoList?
    ensures forall t :: t in GetTodos(db, req, f).response.payload.todos ==>
              t.id in db.todos && db.todos[t.id] == t && t.userId == userId
    ensures forall id :: id in db.todos && db.todos[id].userId == userId ==>
              db.todos[id] in GetTodos(db, req, f).response.payload.todos
    ensures forall i, j :: 0 <= i < j < |GetTodos(db, req, f).response.payload.todos| ==>
              GetTodos(db, req, f).response.payload.todos[i].id < GetTodos(db, req, f).response.payload.todos[j].id
    ensures GetTodos(db, req, f).response.payload.todos == [] <==>
              forall id :: id in db.todos ==> db.todos[id].userId != userId
  {
    var owned := OwnedBelow(db.todos, userId, db.nextId);
    OwnedBelowMembers(db.todos, userId, db.nextId);
    OwnedBelowAscending(db.todos, userId, db.nextId);
    assert GetTodos(db, req, f).response.payload.todos == owned;
    if owned == [] {
      forall id | id in db.todos
        ensures db.todos[id].userId != userId
      {
        assert db.todos[id] !in owned;
      }
    } else {
      assert owned[0].id in db.todos && db.todos[owned[0].id].userId == userId;
    }
  }

  // ---------------------------------------------------------------------
  // Rejections

  /** Without a live session every supported method answers 401, whatever
      the path id, the body, the stored todos or the failures of later
      steps, and nothing is changed. */
  lemma NoSessionIsUnauthorized(db: Db, req: Request, f: Faults)
    requires Session(db.sessions, req.cookie).None?
    ensures req.verb in {MethodGet, MethodPost} ==> TodoHandler(db, req, f) == Reply(StatusUnauthorized, db)
    ensures req.verb in {MethodGet, MethodPatch, MethodDelete} ==>
              TodoIdHandler(db, req, f) == Reply(StatusUnauthorized, db)
  {
  }

  /** A path id that is not an integer answers 404 on every item method. */
  lemma UnparsableIdIsNotFound(db: Db, req: Request, f: Faults)
    requires Session(db.sessions, req.cookie).Some? && req.pathId.None?
    ensures req.verb in {MethodGet, MethodPatch, MethodDelete} ==>
              TodoIdHandler(db, req, f) == Reply(StatusNotFound, db)
  {
  }

  /** Reading an id with no row answers 404 to any caller whose session
      resolves: `getTodoById` never looks the user up. */
  lemma MissingTodoIsNotFoundOnGet(db: Db, req: Request, f: Faults, id: int)
    requires Session(db.sessions, req.cookie).Some? && req.pathId == Some(id) && !f.query
    requires id !in db.todos
    ensures GetTodoById(db, req, f) == Reply(StatusNotFound, db)
  {
  }

  /** Updating or deleting an id with no row answers 404 and changes
      nothing, once the steps before the lookup have passed. */
  lemma MissingTodoIsNotFound(db: Db, req: Request, f: Faults, userId: int, id: int)
    requires SignedIn(db, req, f, userId) && req.pathId == Some(id) && !f.query
    requires id !in db.todos
    ensures DeleteTodo(db, req, f) == Reply(StatusNotFound, db)
    ensures req.content.Some? ==> UpdateTodo(db, req, f) == Reply(StatusNotFound, db)
  {
  }

  /** Updating or deleting another user's todo answers 404, never 403, and
      changes nothing. */
  lemma ForeignTodoIsNotFound(db: Db, req: Request, f: Faults, userId: int, id: int)
    requires SignedIn(db, req, f, userId) && req.pathId == Some(id) && !f.query
    requires id in db.todos && db.todos[id].userId != userId
    ensures DeleteTodo(db, req, f) == Reply(StatusNotFound, db)
    ensures req.content.Some? ==> UpdateTodo(db, req, f) == Reply(StatusNotFound, db)
  {
  }

  /** To a caller who does not own todo `id`, update and delete answer
      exactly as they would if the todo did not exist, whatever else fails. */
  lemma ForeignTodoLooksAbsent(db: Db, req: Request, f: Faults, userId: int, id: int)
    requires Session(db.sessions, req.cookie) == Some(userId) && req.pathId == Some(id)
    requires id in db.todos && db.todos[id].userId != userId
    ensures UpdateTodo(db, req, f).response == UpdateTodo(db.(todos := db.todos - {id}), req, f).response
    ensures DeleteTodo(db, req, f).response == DeleteTodo(db.(todos := db.todos - {id}), req, f).response
    ensures UpdateTodo(db, req, f).db == db && DeleteTodo(db, req, f).db == db
  {
  }

  /** `getTodoById` returns any existing todo to any signed-in caller: it
      never compares the todo's owner with the session's user. */
  lemma GetTodoByIdIgnoresOwner(db: Db, req: Request, f: Faults, id: int)
    requires Session(db.sessions, req.cookie).Some? && req.pathId == Some(id)
    requires id in db.todos && !f.query && !f.encode
    ensures GetTodoById(db, req, f).response == Response(StatusOK, OneTodo(db.todos[id]))
  {
  }

  // ---------------------------------------------------------------------
  // Successful mutations

  /** A post succeeds exactly when the body is read, the user is found and
      the insert is accepted; it then adds one todo, owned by the caller,
      holding the request's content, under an id no todo had. */
  lemma PostCreatesOwnedTodo(db: Db, req: Request, f: Faults, userId: int)
    requires WellFormed(db)
    requires Session(db.sessions, req.cookie) == Some(userId)
    ensures PostTodo(db, req, f).response.status == StatusOK <==>
              req.content.Some? && userId in db.users && !f.userLookup && !f.write
    ensures PostTodo(db, req, f).response.status == StatusOK ==>
              db.nextId !in db.todos &&
              PostTodo(db, req, f).db == db.(todos := db.todos[db.nextId := Todo(db.nextId, req.content.value, userId)],
                                            nextId := db.nextId + 1)
  {
  }

  /** An update succeeds exactly when the caller owns an existing todo `id`
      and no step fails; it then replaces that todo's content and nothing
      else: its id and owner stay, every other todo stays. */
  lemma UpdateReplacesOnlyContent(db: Db, req: Request, f: Faults, userId: int, id: int)
    requires WellFormed(db)
    requires Session(db.sessions, req.cookie) == Some(userId) && req.pathId == Some(id)
    ensures UpdateTodo(db, req, f).response.status == StatusOK <==>
              userId in db.users && !f.userLookup && req.content.Some? && !f.query &&
              id in db.todos && db.todos[id].userId == userId && !f.write
    ensures UpdateTodo(db, req, f).response.status == StatusOK ==>
              var db' := UpdateTodo(db, req, f).db;
              db' == db.(todos := db.todos[id := Todo(id, req.content.value, userId)]) &&
              db'.todos.Keys == db.todos.Keys &&
              (forall k :: k in db.todos && k != id ==> db'.todos[k] == db.todos[k])
  {
  }

  /** A delete succeeds exactly when the caller owns an existing todo `id`
      and no step fails; it then removes that id and nothing else. */
  lemma DeleteRemovesOnlyTarget(db: Db, req: Request, f: Faults, userId: int, id: int)
    requires WellFormed(db)
    requires Session(db.sessions, req.cookie) == Some(userId) && req.pathId == Some(id)
    ensures DeleteTodo(db, req, f).response.status == StatusOK <==>
              userId in db.users && !f.userLookup && !f.query &&
              id in db.todos && db.todos[id].userId == userId && !f.write
    ensures DeleteTodo(db, req, f).response.status == StatusOK ==>
              DeleteTodo(db, req, f).db == db.(todos := db.todos - {id})
  {
  }

  // ---------------------------------------------------------------------
  // What a later request sees

  /** Inserting a todo appends it to its owner's listing and leaves every
      other user's listing as it was. */
  lemma {:induction false} InsertExtendsListing(db: Db, owner: int, content: string, userId: int)
    requires WellFormed(db)
    ensures var db' := Insert(db, owner, content);
            OwnedBelow(db'.todos, userId, db'.nextId) ==
              OwnedBelow(db.todos, userId, db.nextId) +
              (if owner == userId then [Todo(db.nextId, content, owner)] else [])
  {
    var db' := Insert(db, owner, content);
    OwnedBelowFrame(db.todos, db'.todos, userId, db.nextId);
  }

  /** After a successful post, the same caller's listing is the earlier
      listing with the new todo appended, so it holds that todo exactly once. */
  lemma PostThenList(db: Db, post: Request, f: Faults, get: Request, g: Faults, userId: int)
    requires WellFormed(db)
    requires Session(db.sessions, post.cookie) == Some(userId)
    requires PostTodo(db, post, f).response.status == StatusOK
    requires get.cookie == post.cookie && !g.userLookup && !g.query && !g.encode
    ensures GetTodos(db, get, g).response.payload.TodoList?
    ensures var created := Todo(db.nextId, post.content.value, userId);
            var after := GetTodos(PostTodo(db, post, f).db, get, g).response;
            after.status == StatusOK &&
            after.payload == TodoList(GetTodos(db, get, g).response.payload.todos + [created]) &&
            multiset(after.payload.todos)[created] == 1
  {
    PostCreatesOwnedTodo(db, post, f, userId);
    var content := post.content.value;
    var db' := Insert(db, userId, content);
    assert PostTodo(db, post, f).db == db';
    var created := Todo(db.nextId, content, userId);
    var before := OwnedBelow(db.todos, userId, db.nextId);
    var after := OwnedBelow(db'.todos, userId, db'.nextId);
    InsertExtendsListing(db, userId, content, userId);
    assert after == before + [created];
    OwnedBelowAscending(db.todos, userId, db.nextId);
    assert created !in before;
    assert GetTodos(db, get, g).response == Response(StatusOK, TodoList(before));
    assert GetTodos(db', get, g).response == Response(StatusOK, TodoList(after));
  }

  /** After a successful update, reading that id returns the new content,
      with the id and owner unchanged. */
  lemma UpdateThenGet(db: Db, patch: Request, f: Faults, get: Request, g: Faults, userId: int, id: int)
    requires WellFormed(db)
    requires Session(db.sessions, patch.cookie) == Some(userId) && patch.pathId == Some(id)
    requires UpdateTodo(db, patch, f).response.status == StatusOK
    requires Session(db.sessions, get.cookie).Some? && get.pathId == Some(id) && !g.query && !g.encode
    ensures GetTodoById(UpdateTodo(db, patch, f).db, get, g).response ==
              Response(StatusOK, OneTodo(Todo(id, patch.content.value, userId)))
  {
    UpdateReplacesOnlyContent(db, patch, f, userId, id);
  }

  /** After a successful delete, reading that id answers 404. */
  lemma DeleteThenGet(db: Db, del: Request, f: Faults, get: Request, g: Faults, userId: int, id: int)
    requires WellFormed(db)
    requires Session(db.sessions, del.cookie) == Some(userId) && del.pathId == Some(id)
    requires DeleteTodo(db, del, f).response.status == StatusOK
    requires Session(db.sessions, get.cookie).Some? && get.pathId == Some(id) && !g.query
    ensures GetTodoById(DeleteTodo(db, del, f).db, get, g).response == Response(StatusNotFound, Empty)
  {
    DeleteRemovesOnlyTarget(db, del, f, userId, id);
  }

  /** Two users, one todo: the owner creates and lists it; the other user
      can read it by id, but updating or deleting it answers 404. */
  lemma TwoUsersScenario()
    ensures var db0 := Db(map["s1" := 1, "s2" := 2], {1, 2}, map[], 1);
            var post := Request(MethodPost, Some("s1"), None, Some("buy milk"));
            var db1 := TodoHandler(db0, post, NoFaults).db;
            var milk := Todo(1, "buy milk", 1);
            TodoHandler(db0, post, NoFaults).response == Response(StatusOK, Empty) &&
            TodoHandler(db1, Request(MethodGet, Some("s1"), None, None), NoFaults).response ==
              Response(StatusOK, TodoList([milk])) &&
            TodoIdHandler(db1, Request(MethodGet, Some("s2"), Some(1), None), NoFaults).response ==
              Response(StatusOK, OneTodo(milk)) &&
            TodoIdHandler(db1, Request(MethodPatch, Some("s2"), Some(1), Some("x")), NoFaults) ==
              Reply(StatusNotFound, db1) &&
            TodoIdHandler(db1, Request(MethodDelete, Some("s2"), Some(1), None), NoFaults) ==
              Reply(StatusNotFound, db1)
  {
  }
}
