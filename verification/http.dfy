/** The HTTP side of a handler call: the parts of a request the handlers
    look at, the response they produce, and the outcomes of the
    collaborators (database, JSON encoder, response writer) that can fail. */
module Http {
  import opened Wrappers
  import opened Models

  const MethodGet := "GET"
  const MethodPost := "POST"
  const MethodPatch := "PATCH"
  const MethodDelete := "DELETE"

  const StatusOK := 200
  const StatusUnauthorized := 401
  const StatusNotFound := 404
  const StatusMethodNotAllowed := 405
  const StatusInternalServerError := 500

  /** `verb` is `r.Method`; `cookie` the session cookie, if any; `pathId`
      the `{id}` path variable after `strconv.Atoi`, `None` when it does
      not parse; `content` the `Content` of the JSON body when the single
      read of the body reports no error and the JSON decodes, `None`
      otherwise (including a complete body whose read reports end of input). */
  datatype Request = Request(verb: string, cookie: Option<string>, pathId: Option<int>, content: Option<string>)

  /** The JSON document written: nothing, `{data: [...]}` or `{data: {...}}`. */
  datatype Payload = Empty | TodoList(todos: seq<Todo>) | OneTodo(todo: Todo)

  datatype Response = Response(status: int, payload: Payload)

  /** Which collaborators fail on this request: the user lookup, a todo
      query (other than finding no row), a todo write, and encoding or
      writing the JSON response. */
  datatype Faults = Faults(userLookup: bool, query: bool, write: bool, encode: bool)

  const NoFaults := Faults(false, false, false, false)
}
