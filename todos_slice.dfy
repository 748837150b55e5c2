/**
 * The todos slice of the store (src/features/todos/todosSlice.ts): a
 * container whose reducers update its fields in place. Each async thunk's
 * outcome (the server's reply, or the rejection's message) is a parameter of
 * the reducer that handles it; the HTTP calls themselves are not modelled.
 */
module TodosSlice {
  import opened Types
  import opened JsArray
  import opened Reconcile

  class TodosState {
    var data: seq<Todo>
    var filter: Filter
    var apiStatus: ApiStatus
    var apiError: Option<string>

    /** The slice's `initialState`. */
    predicate IsInitial()
      reads this
    {
      data == [] && filter == Filter(None, None) && apiStatus == Idle && apiError == None
    }

    constructor ()
      ensures IsInitial()
    {
      data := [];
      filter := Filter(None, None);
      apiStatus := Idle;
      apiError := None;
    }

    /** `logoutTodos`: back to the initial state, whatever the state was. */
    method LogoutTodos()
      modifies this
      ensures IsInitial()
    {
      data := [];
      filter := Filter(None, None);
      apiStatus := Idle;
      apiError := None;
    }

    /** `filterTodos`: the payload becomes the filter wholesale. */
    method FilterTodos(payload: Filter)
      modifies this
      ensures filter == payload
      ensures data == old(data) && apiStatus == old(apiStatus) && apiError == old(apiError)
    {
      filter := payload;
    }

    /** `fetchTodos.pending`. A previous error message is kept. */
    method FetchPending()
      modifies this
      ensures apiStatus == Loading
      ensures data == old(data) && filter == old(filter) && apiError == old(apiError)
    {
      apiStatus := Loading;
    }

    /** `fetchTodos.fulfilled`: appends the fetched todos, so a second fetch duplicates them. */
    method FetchFulfilled(payload: seq<Todo>)
      modifies this
      ensures apiStatus == Succeeded
      ensures data == old(data) + payload && |data| == |old(data)| + |payload|
      ensures filter == old(filter) && apiError == old(apiError)
    {
      apiStatus := Succeeded;
      data := data + payload;
    }

    /** `fetchTodos.rejected`: `message` is the rejection's `error.message`, `None` when undefined. */
    method FetchRejected(message: Option<string>)
      modifies this
      ensures apiStatus == Failed
      ensures apiError == None <==> message == None || message == Some("")
      ensures apiError != None ==> apiError == message
      ensures data == old(data) && filter == old(filter)
    {
      apiStatus := Failed;
      apiError := OrNull(message);
    }

    /** `addTodos.fulfilled`: the created record goes at the end. */
    method AddFulfilled(payload: Todo)
      modifies this
      ensures data == old(data) + [payload]
      ensures filter == old(filter) && apiStatus == old(apiStatus) && apiError == old(apiError)
    {
      data := data + [payload];
    }

    /** `updateTodos.fulfilled`: the record with the payload's id is replaced in place; an absent id takes the slice(0, -1) path. */
    method UpdateFulfilled(payload: Todo)
      modifies this
      ensures data == Replaced(old(data), TodoId, payload.id, payload)
      ensures var i := FindIndex(old(data), TodoId, payload.id);
        (0 <= i ==> data == old(data)[i := payload]) &&
        (i == -1 ==> data == DropLast(old(data)) + [payload] + old(data))
      ensures filter == old(filter) && apiStatus == old(apiStatus) && apiError == old(apiError)
    {
      var index := FindIndex(data, TodoId, payload.id);
      data := Slice(data, 0, index) + [payload] + Slice(data, index + 1, |data|);
    }

    /** `deleteTodos.fulfilled`: `id` is the payload's id (the thunk echoes the id it was given). */
    method DeleteFulfilled(id: int)
      modifies this
      ensures data == Removed(old(data), TodoId, id)
      ensures var i := FindIndex(old(data), TodoId, id);
        (0 <= i ==> data == old(data)[..i] + old(data)[i + 1..]) &&
        (i == -1 ==> data == DropLast(old(data)) + old(data))
      ensures filter == old(filter) && apiStatus == old(apiStatus) && apiError == old(apiError)
    {
      var index := FindIndex(data, TodoId, id);
      data := Slice(data, 0, index) + Slice(data, index + 1, |data|);
    }
  }

  /** A fetch that returns one todo, then an update of it: the list holds the updated record at the same place. */
  method FetchThenUpdate() returns (data: seq<Todo>, status: ApiStatus)
    ensures data == [Todo(1, 1, "B", 1, 2, "t1", "t0")]
    ensures status == Succeeded
  {
    var todos := new TodosState();
    todos.FetchPending();
    todos.FetchFulfilled([Todo(1, 1, "A", 1, 1, "t0", "t0")]);
    todos.UpdateFulfilled(Todo(1, 1, "B", 1, 2, "t1", "t0"));
    data, status := todos.data, todos.apiStatus;
  }

  /** Two successful fetches of the same list leave every record in the store twice. */
  method FetchTwice(fetched: seq<Todo>) returns (data: seq<Todo>)
    ensures data == fetched + fetched
    ensures |data| == 2 * |fetched|
  {
    var todos := new TodosState();
    todos.FetchPending();
    todos.FetchFulfilled(fetched);
    todos.FetchPending();
    todos.FetchFulfilled(fetched);
    data := todos.data;
  }
}
