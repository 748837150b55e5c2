/**
 * The logic of the todo page (src/components/App/App.tsx): the selector that
 * derives the visible todos from the store, and the effect that starts the
 * first fetch once a token cookie exists.
 */
module App {
  import opened Types
  import opened JsArray
  import Cookie

  /** `item.categoryId === categoryId && item.statusId === statusId`: a `null` field equals no number. */
  predicate Matches(t: Todo, filter: Filter)
  {
    filter.categoryId == Some(t.categoryId) && filter.statusId == Some(t.statusId)
  }

  /**
   * The `todos` selector. When both filter fields are falsy (null or 0) the
   * whole list is shown; otherwise exactly the todos matching both fields,
   * in their stored order.
   */
  function VisibleTodos(data: seq<Todo>, filter: Filter): (r: seq<Todo>)
    ensures IsFalsy(filter.categoryId) && IsFalsy(filter.statusId) ==> r == data
    ensures !(IsFalsy(filter.categoryId) && IsFalsy(filter.statusId)) ==>
      (forall t :: t in r <==> t in data && Matches(t, filter)) &&
      (forall t :: multiset(r)[t] == if Matches(t, filter) then multiset(data)[t] else 0)
    ensures IsSubsequence(r, data)
  {
    if IsFalsy(filter.categoryId) && IsFalsy(filter.statusId) then
      SubsequenceOfItself(data);
      data
    else
      FilterBy(data, t => Matches(t, filter))
  }

  /** With only one filter field set, the other is compared against `null` and nothing is shown. */
  lemma OneFieldSetShowsNothing(data: seq<Todo>, filter: Filter)
    requires filter.categoryId == None || filter.statusId == None
    requires !(IsFalsy(filter.categoryId) && IsFalsy(filter.statusId))
    ensures VisibleTodos(data, filter) == []
  {
  }

  /** A filter of two set ids shows exactly the todos carrying both, each as often as stored. */
  lemma BothFieldsSetSelects(data: seq<Todo>, c: int, s: int, t: Todo)
    requires c != 0 && s != 0
    ensures t in VisibleTodos(data, Filter(Some(c), Some(s))) <==> t in data && t.categoryId == c && t.statusId == s
    ensures t.categoryId == c && t.statusId == s ==>
      multiset(VisibleTodos(data, Filter(Some(c), Some(s))))[t] == multiset(data)[t]
  {
  }

  /** What the mount effect does to the shared HTTP client. */
  datatype StartupEffect =
    | FetchAll(authorization: string)   // sets `Bearer <token>`, then dispatches fetchTodos and fetchCategories
    | ClearAuthorization                // no token: the Authorization header becomes ''
    | Nothing

  /** The effect at lines 51-61: `cookie` is `document.cookie`, `todosStatus` the todo slice's apiStatus. */
  function Startup(cookie: string, todosStatus: ApiStatus): (e: StartupEffect)
    ensures e.FetchAll? <==> Cookie.CookieValue(cookie, "token") != "" && todosStatus == Idle
    ensures e.FetchAll? ==> e.authorization == "Bearer " + Cookie.CookieValue(cookie, "token")
    ensures e == ClearAuthorization <==> Cookie.CookieValue(cookie, "token") == ""
  {
    var token := Cookie.CookieValue(cookie, "token");
    if token != "" && todosStatus == Idle then FetchAll("Bearer " + token)
    else if token == "" then ClearAuthorization
    else Nothing
  }

  /** Once the todo slice has left `idle` (a fetch is pending or done), the effect never fetches again. */
  lemma NoRefetchAfterIdle(cookie: string, todosStatus: ApiStatus)
    requires todosStatus != Idle
    ensures !Startup(cookie, todosStatus).FetchAll?
  {
  }
}
