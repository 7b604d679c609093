# Todo handlers of go-todo-app, modelled in Dafny

go-todo-app is a small web service where signed-in users keep a list of
todos. This project models its request handlers in
`app/controllers/route_main.go`. `todoHandler` serves `/todos`: GET lists the
caller's todos and POST creates one. `todoIdHandler` serves `/todos/{id}`:
GET reads one todo, PATCH replaces its content and DELETE removes it. Any
other method gets 405.

Each handler runs a fixed sequence of steps and stops at the first step that
fails. Every one starts by resolving the session from the cookie (401 on
failure). After that the steps differ:

- `getTodos` looks up the session's user (500), lists that user's todos
  (500 on a query error) and encodes the list (500).
- `postTodo` reads and decodes the JSON body (500), then looks up the
  session's user (500), then inserts the todo (500).
- `getTodoById` parses the path id (404 if it is not an integer), looks up
  the todo (404 on `sql.ErrNoRows`, 500 on any other error) and encodes it
  (500). It never looks up the session's user.
- `updateTodo` parses the path id (404), looks up the session's user (500),
  reads and decodes the body (500), looks up the todo (404 or 500), compares
  the todo's owner with the user (404, never 403) and writes the row back
  (500).
- `deleteTodo` takes the same steps as `updateTodo` without the body, and
  ends by deleting the row (500).

The model has six modules:

- `Wrappers` (wrappers.dfy) holds the `Option` type.
- `Models` (models.dfy) holds the storage the handlers consult. A `Db`
  snapshot has the session table, the user ids, the todos table and the next
  todo id. The module also defines the queries the handlers issue, the row
  changes of create, update and delete, and the class `Database`. That class
  stands for the global database handle, and its methods change its todos
  table in place.
- `Http` (http.dfy) holds the parts of a request the handlers read, the
  response they write, the status codes and `Faults`. `Faults` says which
  infrastructure step fails on a request.
- `Handlers` (handlers.dfy) is the specification. Each handler is a pure
  function from a snapshot, a request and the faults to the response and the
  snapshot afterwards. Its contract gives the statuses the handler can return
  and the cases where the store is left unchanged. It also says that 401
  happens exactly when the session does not resolve, and that the store's
  invariant is preserved.
- `Controllers` (controllers.dfy) contains the handlers as they run. Each is
  a method with early returns over a `Database` object. Each is proved to
  produce exactly the response and the new database state that its
  `Handlers` function describes. Each needs a well-formed database (every row
  under its own id, below the id counter) and leaves it well formed.
- `Properties` (properties.dfy) proves the listing query and the rejection
  paths. It proves what each successful mutation changes, and what a later
  request sees after one.

Three behaviours of the code are worth stating plainly:

- Every handler answers 200 on success, not 204. A successful handler writes
  no status, so net/http sends 200.
- Reading by id has no owner check. `getTodoById` resolves the session but
  discards its user, so any signed-in user can read any todo by id
  (`GetTodoByIdIgnoresOwner`, `TwoUsersScenario`). Only update and delete
  answer 404 for another user's todo (`ForeignTodoIsNotFound`,
  `ForeignTodoLooksAbsent`).
- A body whose read reports an error, or which does not decode, answers 500,
  not a validation error. In `updateTodo` that happens before the todo's
  existence and ownership are examined.

## Model

| member | source | states |
|---|---|---|
| Handlers.TodoHandler | app/controllers/route_main.go:16-25 | answers 405 exactly when the method is neither GET nor POST, and then leaves the store unchanged; keeps the store well formed |
| Handlers.TodoIdHandler | app/controllers/route_main.go:27-38 | answers 405 exactly when the method is not GET, PATCH or DELETE, and then leaves the store unchanged; keeps the store well formed |
| Handlers.GetTodos | app/controllers/route_main.go:40-91 | never changes the store; answers only 200, 401 or 500; 401 exactly when the session does not resolve; a 200 always carries a list document |
| Handlers.PostTodo | app/controllers/route_main.go:93-137 | answers only 200, 401 or 500, with no document; 401 exactly when the session does not resolve; any status but 200 leaves the store unchanged; keeps the store well formed |
| Handlers.GetTodoById | app/controllers/route_main.go:139-191 | never changes the store; answers only 200, 401, 404 or 500; 401 exactly when the session does not resolve; a 200 carries the stored todo under the parsed id |
| Handlers.UpdateTodo | app/controllers/route_main.go:193-266 | answers only 200, 401, 404 or 500, with no document; 401 exactly when the session does not resolve; any status but 200 leaves the store unchanged; keeps the store well formed |
| Handlers.DeleteTodo | app/controllers/route_main.go:268-320 | answers only 200, 401, 404 or 500, with no document; 401 exactly when the session does not resolve; any status but 200 leaves the store unchanged; keeps the store well formed |
| Controllers.TodoHandler | app/controllers/route_main.go:16-25 | on a well-formed database, the dispatching method produces the response and database state of `Handlers.TodoHandler` and keeps the database well formed |
| Controllers.TodoIdHandler | app/controllers/route_main.go:27-38 | on a well-formed database, the dispatching method produces the response and database state of `Handlers.TodoIdHandler` and keeps the database well formed |
| Controllers.GetTodos | app/controllers/route_main.go:40-91 | the step-by-step handler returns the response of `Handlers.GetTodos` on the current database |
| Controllers.PostTodo | app/controllers/route_main.go:93-137 | the step-by-step handler returns the response of `Handlers.PostTodo` and leaves the database in the state it describes, which is again well formed |
| Controllers.GetTodoById | app/controllers/route_main.go:139-191 | the step-by-step handler returns the response of `Handlers.GetTodoById` on the current database |
| Controllers.UpdateTodo | app/controllers/route_main.go:193-266 | the step-by-step handler returns the response of `Handlers.UpdateTodo` and leaves the database in the state it describes, which is again well formed |
| Controllers.DeleteTodo | app/controllers/route_main.go:268-320 | the step-by-step handler returns the response of `Handlers.DeleteTodo` and leaves the database in the state it describes, which is again well formed |
| Models.Insert | app/controllers/route_main.go:128 | creating a todo keeps every row under its own id below the counter, and the new id was not in use |
| Models.Replace | app/controllers/route_main.go:257 | writing a todo back keeps the set of ids and the counter, and keeps the store well formed |
| Models.Remove | app/controllers/route_main.go:311 | deleting removes exactly the given id from the set of ids and keeps the store well formed |
| Models.Database.CreateTodo | app/controllers/route_main.go:128 | reports failure exactly when the write fails; otherwise the table gains the new row (`Insert`), else nothing changes; the database stays well formed |
| Models.Database.UpdateTodo | app/controllers/route_main.go:257 | reports failure exactly when the write fails; otherwise the row is replaced (`Replace`), else nothing changes; the database stays well formed |
| Models.Database.DeleteTodo | app/controllers/route_main.go:311 | reports failure exactly when the write fails; otherwise the row is removed (`Remove`), else nothing changes; the database stays well formed |
| Properties.OwnedBelowMembers | app/controllers/route_main.go:58-67 | the user's listing holds a todo exactly when it is a stored row of that user |
| Properties.OwnedBelowAscending | app/controllers/route_main.go:58-67 | the listing is in strictly ascending id order, so no todo appears twice |
| Properties.ListsCallersTodos | app/controllers/route_main.go:56-71 | a signed-in caller whose queries succeed gets 200 with a list, never a null document, of exactly their own todos, each once; the list is empty exactly when they own none |
| Properties.NoSessionIsUnauthorized | app/controllers/route_main.go:41-46 | without a resolvable session, every supported method on both routes answers 401 and changes nothing, whatever the id, body, store or later faults (the same check appears at 94-99, 140-145, 194-199 and 269-274) |
| Properties.UnparsableIdIsNotFound | app/controllers/route_main.go:147-153 | a path id that does not parse answers 404 with the store unchanged for GET, PATCH and DELETE (the same check appears at 201-207 and 276-282) |
| Properties.MissingTodoIsNotFoundOnGet | app/controllers/route_main.go:139-161 | reading an id with no row answers 404 with the store unchanged to any caller whose session resolves, whether or not the user row or user query would succeed |
| Properties.MissingTodoIsNotFound | app/controllers/route_main.go:236-241 | updating or deleting an id with no row answers 404 with the store unchanged, once the steps before the lookup have passed (the delete check is at 292-297) |
| Properties.ForeignTodoIsNotFound | app/controllers/route_main.go:249-253 | updating or deleting a todo another user owns answers 404 and changes nothing (the delete check is at 305-309) |
| Properties.ForeignTodoLooksAbsent | app/controllers/route_main.go:236-253 | for a caller who does not own the todo, update and delete answer exactly as if the todo did not exist, under any faults |
| Properties.GetTodoByIdIgnoresOwner | app/controllers/route_main.go:139-171 | reading by id returns any existing todo to any signed-in caller, whoever owns it |
| Properties.PostCreatesOwnedTodo | app/controllers/route_main.go:120-128 | a post succeeds exactly when the body is read, the user is found and the insert succeeds; the only change is a new row under a fresh id, owned by the caller and holding the request's content |
| Properties.UpdateReplacesOnlyContent | app/controllers/route_main.go:249-257 | an update succeeds exactly when the caller owns the existing todo and no step fails; it then changes that todo's content only, keeping its id, its owner and every other row |
| Properties.DeleteRemovesOnlyTarget | app/controllers/route_main.go:305-311 | a delete succeeds exactly when the caller owns the existing todo and no step fails; it then removes exactly that id |
| Properties.InsertExtendsListing | app/controllers/route_main.go:128 | creating a todo appends it to its owner's listing and leaves every other user's listing unchanged |
| Properties.PostThenList | app/controllers/route_main.go:56-67 | after a successful post, the caller's listing is the earlier listing with the new todo appended, and holds it exactly once |
| Properties.UpdateThenGet | app/controllers/route_main.go:155-171 | after a successful update, reading that id returns the new content with the same id and owner |
| Properties.DeleteThenGet | app/controllers/route_main.go:155-160 | after a successful delete, reading that id answers 404 |
| Properties.TwoUsersScenario | app/controllers/route_main.go:16-38 | one user creates and lists "buy milk"; a second user reads it by id with 200, but updating or deleting it answers 404 |

## Left out

- JSON encoding and decoding, reading the request body, writing headers and bodies, and logging are I/O and library code. `Request.content == Some(c)` stands for a single `r.Body.Read` that reported no error followed by a successful decode. Anything else is `None` and answers 500. That includes a complete, well-formed body whose one read returns its last bytes together with `io.EOF`, which Go's reader contract allows. The model does not separate that case from a broken body. A failed `json.Marshal` or `fmt.Fprint` is `Faults.encode`, answered 500 as the code asks. The model does not capture that a failed `fmt.Fprint` may come after a 200 has already gone out. The body buffer is allocated with the request's `ContentLength` (route_main.go:101 and 217). When that length is unknown (-1) the allocation panics, and the request gets no response at all. The model does not capture this; it answers such a request with 500 like any other unreadable body.
- The error text that `http.Error` writes with a 500 is left out; a 500 carries no document in the model.
- `mux.Vars` and `strconv.Atoi` are not modelled. The path id is `Option<int>`, and Go's 64-bit `int` range is not modelled.
- The SQL behind `session`, `GetUserBySession`, `GetTodo`, `GetTodosByUser`, `CreateTodo`, `UpdateTodo` and `DeleteTodo` is not part of this model. The model runs them on maps:
  - A session resolves when its token is in the session table. A failure of the session query is not modelled apart from this: it also gives 401.
  - The user lookup finds the session's user id among the users.
  - A new todo receives the next value of an id counter. This stands for the database's autoincrement.
  - The listing is in ascending id order.
  - An update writes the whole row back under its id.
  - Any other query or write failure is a `Faults` flag, and it answers 500.
- `created_at` columns, user names, emails and password hashes are not read by the handlers and are left out.
- `app/models/base.go` is left out. Its `init` opens the database and runs DDL, which is I/O. `createUUID` wraps a uuid library, and `Encrypt` is a SHA-1 digest, which is a foreign primitive.
- Login, session issuance and session expiry have no code among the modelled files, so there is nothing to model.
- Requests are modelled one at a time. Concurrent requests against the same database are not modelled.
