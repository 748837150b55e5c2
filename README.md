# Todo client state, modelled in Dafny

A model of the client-side state of a single-user todo web client. The client
keeps two store slices (todos and categories), each holding a list of records
fetched from a REST API, a request status (`idle`, `loading`, `succeeded`,
`failed`) and an optional error message; the todo slice also holds a filter.
A status page keeps a category's statuses in component-local state. Every
change to these lists is a reconciliation with a server reply: a fetch
appends, a create appends, an update replaces the record found by id and a
delete removes it. The views add a filtered selector over the todos, the
decisions of when to fetch, and a cookie parser that reads the session token.

Modules:

- `Types` (types.dfy): the records (`Todo`, `Category`, `Status`), the request
  status, the filter, JavaScript truthiness of a filter field and `message || null`.
- `JsArray` (js_array.dfy): `findIndex`, `slice` with JavaScript's reading of
  negative indices, and `filter`.
- `Reconcile` (reconcile.dfy): the update and delete reconciliation shared by
  all three lists, with reference definitions ("replace/remove the first
  record with this id") and the lemmas relating them.
- `TodosSlice`, `CategoriesSlice` (todos_slice.dfy, categories_slice.dfy): each
  slice is a class whose fields the reducers assign, one method per reducer.
- `Cookie` (cookie.dfy): `getCookie`, which the todo page and the category
  page each define identically; a spec function and the looping method proved equal to it.
- `App`, `CategoryPage`, `StatusPage` (app.dfy, category_page.dfy,
  status_page.dfy): the selectors, effects and list updates of the three pages.

What the code does where its documented intent says otherwise (the code is
what is modelled):

- An update or delete whose id is not in the list is not a no-op. `findIndex`
  gives -1, `slice(0, -1)` is the list without its last record and `slice(0)`
  is the whole list, so an update yields `data[..n-1] + [reply] + data` and a
  delete yields `data[..n-1] + data`. A delete of an absent id leaves the list
  alone only when it holds at most one record (`Reconcile.DeleteAbsentNoopIffShort`).
- A fetch appends to what is held, so fetching twice duplicates every record;
  nothing deduplicates them, and the filtered view shows the duplicates.
- A filter with only one field set shows no todo at all, because the unset
  field (`null`) is compared with `===` against a number. Only when both
  fields are falsy (`null` or `0`) is the list shown unfiltered.
- The reducers do not enforce the order idle, loading, then succeeded or
  failed: each lifecycle reducer sets its status whatever the current one is,
  and `pending` keeps an earlier error message.

## Model

| member | source | states |
|---|---|---|
| `Types.OrNull` | src/features/todos/todosSlice.ts:49 | the rejection message, or null exactly when the message is undefined or empty, otherwise the message itself |
| `JsArray.FindIndex` | src/features/todos/todosSlice.ts:58 | -1 exactly when no record has the id; otherwise the index of a record with the id and no earlier record has it |
| `JsArray.Slice` | src/features/todos/todosSlice.ts:60-64 | in-range arguments give the ordinary subsequence; a negative end counts back from the end; an empty range gives `[]` |
| `JsArray.DropLast` | src/features/todos/todosSlice.ts:61 | `slice(0, -1)` is the list minus its last element, `[]` for `[]` |
| `JsArray.FilterBy` | src/components/App/App.tsx:39-41 | an element is kept exactly when the predicate holds, each kept element as often as in the input, and the result is a subsequence (order kept) |
| `Reconcile.Replaced` | src/features/todos/todosSlice.ts:56-65 | with the id present, the list with the first matching position set to the reply (same length, everything else unchanged); with it absent, `data[..n-1] + [reply] + data` |
| `Reconcile.Removed` | src/features/todos/todosSlice.ts:67-75 | with the id present, the list with the first matching position cut out (length one less, order kept); with it absent, `data[..n-1] + data` |
| `Reconcile.ReplacedIsReplaceFirst` | src/features/categories/categoriesSlice.ts:48-57 | with the id present, the slice-based update equals the recursive "replace the first record with this id" |
| `Reconcile.RemovedIsRemoveFirst` | src/features/categories/categoriesSlice.ts:59-67 | with the id present, the slice-based delete equals the recursive "remove the first record with this id" |
| `Reconcile.ReplaceFirstAt` | src/features/todos/todosSlice.ts:57-58 | the reference replacement changes exactly the position `findIndex` reports |
| `Reconcile.RemoveFirstAt` | src/features/todos/todosSlice.ts:68-69 | the reference removal drops exactly the position `findIndex` reports |
| `Reconcile.RemovedMultiset` | src/features/todos/todosSlice.ts:67-75 | with the id present, exactly one occurrence of the found record leaves the list, nothing else |
| `Reconcile.ReplaceFirstAbsent` | src/features/todos/todosSlice.ts:57-58 | the reference replacement leaves a list without the id unchanged, in contrast with the slice-based update |
| `Reconcile.RemoveFirstAbsent` | src/features/todos/todosSlice.ts:68-69 | the reference removal leaves a list without the id unchanged, in contrast with the slice-based delete |
| `Reconcile.UpdateAbsentIsNotNoop` | src/features/categories/categoriesSlice.ts:48-57 | with the id absent, the update never leaves the list unchanged: its length becomes `2n` (or 1 for an empty list) |
| `Reconcile.DeleteAbsentNoopIffShort` | src/features/categories/categoriesSlice.ts:59-67 | with the id absent, the delete leaves the list unchanged exactly when it holds at most one record |
| `TodosSlice.TodosState.constructor` | src/features/todos/todosSlice.ts:14-22 | the initial state: no todos, null/null filter, idle, no error |
| `TodosSlice.TodosState.LogoutTodos` | src/features/todos/todosSlice.ts:29-31 | from any state, back to exactly the initial state |
| `TodosSlice.TodosState.FilterTodos` | src/features/todos/todosSlice.ts:32-36 | the filter becomes the payload; data, status and error unchanged |
| `TodosSlice.TodosState.FetchPending` | src/features/todos/todosSlice.ts:40-42 | status becomes loading; nothing else changes |
| `TodosSlice.TodosState.FetchFulfilled` | src/features/todos/todosSlice.ts:43-46 | status becomes succeeded; the payload is appended after the old data, length grows by the payload's length |
| `TodosSlice.TodosState.FetchRejected` | src/features/todos/todosSlice.ts:47-50 | status becomes failed; the error is the message, or null when it is missing or empty; data and filter unchanged |
| `TodosSlice.TodosState.AddFulfilled` | src/features/todos/todosSlice.ts:52-54 | exactly the reply is appended; filter, status and error unchanged |
| `TodosSlice.TodosState.UpdateFulfilled` | src/features/todos/todosSlice.ts:56-65 | the first todo with the reply's id is replaced in place, or the absent-id result; filter, status and error unchanged |
| `TodosSlice.TodosState.DeleteFulfilled` | src/features/todos/todosSlice.ts:67-75 | the first todo with the id is removed, order kept, or the absent-id result; filter, status and error unchanged |
| `TodosSlice.FetchThenUpdate` | src/features/todos/todosSlice.ts:43-65 | fetching one todo and then updating it leaves exactly the updated todo, status succeeded |
| `TodosSlice.FetchTwice` | src/features/todos/todosSlice.ts:43-46 | two fetches of the same list hold every record twice |
| `CategoriesSlice.CategoriesState.constructor` | src/features/categories/categoriesSlice.ts:15-19 | the initial state: no categories, idle, no error |
| `CategoriesSlice.CategoriesState.LogoutCategories` | src/features/categories/categoriesSlice.ts:26-28 | from any state, back to exactly the initial state |
| `CategoriesSlice.CategoriesState.FetchPending` | src/features/categories/categoriesSlice.ts:32-34 | status becomes loading; nothing else changes |
| `CategoriesSlice.CategoriesState.FetchFulfilled` | src/features/categories/categoriesSlice.ts:35-38 | status becomes succeeded; the payload is appended after the old data |
| `CategoriesSlice.CategoriesState.FetchRejected` | src/features/categories/categoriesSlice.ts:39-42 | status becomes failed; the error is the message, or null when missing or empty; data unchanged |
| `CategoriesSlice.CategoriesState.AddFulfilled` | src/features/categories/categoriesSlice.ts:44-46 | exactly the reply is appended; status and error unchanged |
| `CategoriesSlice.CategoriesState.UpdateFulfilled` | src/features/categories/categoriesSlice.ts:48-57 | the first category with the reply's id is replaced in place, or the absent-id result; status and error unchanged |
| `CategoriesSlice.CategoriesState.DeleteFulfilled` | src/features/categories/categoriesSlice.ts:59-67 | the first category with the id is removed, order kept, or the absent-id result; status and error unchanged |
| `CategoriesSlice.DeleteAbsentCategory` | src/features/categories/categoriesSlice.ts:59-67 | deleting an id missing from `[a, b]` yields `[a, a, b]` |
| `Cookie.Split` | src/components/App/App.tsx:93 | `split(';')` gives at least one segment, none containing `;`, and joining them with `;` gives the cookie back |
| `Cookie.StripLeadingSpaces` | src/components/App/App.tsx:96-98 | the result is a suffix of the segment, everything removed is a space, and it does not start with a space |
| `Cookie.StripSpaces` | src/components/CategoryPage/CategoryPage.tsx:52-54 | the loop that drops one leading space at a time ends with the stripped segment |
| `Cookie.GetCookie` | src/components/App/App.tsx:90-104 | the loops return exactly the value of the cookie function (the first matching segment's rest, or `''`) |
| `Cookie.NoMatchGivesEmpty` | src/components/App/App.tsx:93-103 | when no stripped segment starts with `name=`, the result is `''` |
| `Cookie.FirstMatchGivesValue` | src/components/App/App.tsx:94-101 | with segment i the first stripped segment starting with `name=`, `name=` followed by the result is that segment, and the result holds no `;` |
| `Cookie.SplitWithoutSeparator` | src/components/CategoryPage/CategoryPage.tsx:49 | a cookie string without `;` is one segment |
| `Cookie.SplitAtSeparator` | src/components/CategoryPage/CategoryPage.tsx:49 | splitting at the first `;` gives the part before it, then the split of the rest |
| `Cookie.PrefixMustStartSegment` | src/components/CategoryPage/CategoryPage.tsx:50-57 | for a name without `=` or `;` that does not start with a space, `x<name>=<other>; <name>=<value>` gives `value`: the first segment does not match, the second matches once its space is stripped (so `xtoken=a; token=b` gives `b`) |
| `Cookie.NameInsideDoesNotMatch` | src/components/CategoryPage/CategoryPage.tsx:55 | the segment `x<name>=<other>`, with no `=` in the name, has no `;`, keeps its first character when spaces are stripped, and does not match |
| `Cookie.NameAfterSpaceMatches` | src/components/CategoryPage/CategoryPage.tsx:52-55 | a segment that is `name=` after one leading space matches, and strips to `name=<value>` |
| `App.VisibleTodos` | src/components/App/App.tsx:35-42 | both fields falsy: all todos; otherwise exactly the todos equal on both fields, with their multiplicities; always a subsequence of the data |
| `App.OneFieldSetShowsNothing` | src/components/App/App.tsx:36-41 | a filter with one field null and the other set shows no todo |
| `App.BothFieldsSetSelects` | src/components/App/App.tsx:39-41 | with both ids set (non-zero) a todo is shown exactly when it carries both, as often as stored |
| `App.Startup` | src/components/App/App.tsx:51-61 | fetch (with header `Bearer <token>`) exactly when the token cookie is non-empty and the todo status is idle; clear the header exactly when the token is empty |
| `App.NoRefetchAfterIdle` | src/components/App/App.tsx:54 | once the todo status has left idle, the effect never fetches |
| `CategoryPage.MountEffect` | src/components/CategoryPage/CategoryPage.tsx:37-43 | sets the header `Bearer <token>` (possibly empty) and fetches exactly when the category status is idle |
| `CategoryPage.FetchOnlyWhenIdle` | src/components/CategoryPage/CategoryPage.tsx:38 | loading, succeeded and failed never fetch |
| `CategoryPage.PageContent` | src/components/CategoryPage/CategoryPage.tsx:106-208 | every status picks exactly one content: loading a spinner, succeeded the list, failed an alert with the error, idle nothing |
| `StatusPage.FindCategory` | src/components/StatusPage/StatusPage.tsx:26-34 | no (or empty) route parameter: none; a result has the parsed id and is the first category with it; none with a parsed id means no category has it |
| `StatusPage.StatusPageState.constructor` | src/components/StatusPage/StatusPage.tsx:23 | the list starts empty |
| `StatusPage.StatusPageState.OnStatusesLoaded` | src/components/StatusPage/StatusPage.tsx:37-48 | the list becomes the statuses fetched for the category |
| `StatusPage.StatusPageState.OnAddReply` | src/components/StatusPage/StatusPage.tsx:58-72 | a 200 reply appends its body; any other status or a failure leaves the list unchanged |
| `StatusPage.StatusPageState.OnUpdateReply` | src/components/StatusPage/StatusPage.tsx:91-111 | a 200 reply replaces the first status with the edited id by its body (absent id: `data[..n-1] + [body] + data`); otherwise unchanged |
| `StatusPage.StatusPageState.OnDeleteReply` | src/components/StatusPage/StatusPage.tsx:123-138 | a 200 reply removes the first status with the id, order kept (absent id: `data[..n-1] + data`); otherwise unchanged |
| `StatusPage.CreatedIsNotShown` | src/components/StatusPage/StatusPage.tsx:64-67 | a create answered with 201 rather than 200 leaves the list as it was |

## Left out

- The HTTP layer: the shared axios instance, the async thunks' request bodies and `getStatus`. A thunk's outcome (the reply, or the rejection's message) is a parameter of the reducer or method that handles it.
- The Authorization header is shared mutable state of the HTTP client; the effects return the header they would set (`App.Startup`, `CategoryPage.MountEffect`) instead of mutating it.
- `document.cookie` is a parameter, and `decodeURIComponent` is taken as the identity.
- `parseInt` is a parameter of `StatusPage.FindCategory` (`None` for NaN); its own parsing rules are not modelled.
- Filter fields are integers or null; a NaN filter value is not modelled.
- JavaScript numbers are unbounded integers here; ids never approach the range where floating point would matter.
- The store wiring (`configureStore`, the React root and router), the login and register forms, the header's logout button (it calls both logout reducers, which are modelled; its deletion of the `token` cookie by writing `document.cookie` with a negative `Max-Age`, and its navigation to `/login`, are browser effects that are not modelled) and the todo and filter forms.
- The todo page's content choice (App.tsx lines 64-86) is the same choice as `CategoryPage.PageContent` and is not modelled separately; all JSX rendering and styling is left out.
- Navigation to the categories page when the status page finds no category, and the console logging on the failure paths.
- Concurrency: interleaving of in-flight requests, last-write-wins updates, and the status page's update and delete handlers reading `statusList` from the render that created them (the model applies each reply to the current list, as if no other reply had come in between).
- Redux's immutable-update machinery: each reducer is a method that assigns the class's fields, as the reducers do on their draft.
