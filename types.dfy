/** Record shapes shared by the two store slices and the views (src/utils/types.ts). */
module Types {

  /** `T | null` (or `undefined`) in the source. */
  datatype Option<+T> = None | Some(value: T)

  /** A todo as the server returns it; the timestamps are opaque strings. */
  datatype Todo = Todo(
    id: int,
    userId: int,
    title: string,
    categoryId: int,
    statusId: int,
    updatedAt: string,
    createdAt: string)

  datatype Category = Category(
    id: int,
    userId: int,
    title: string,
    createdAt: string,
    updatedAt: string)

  /** A category-scoped label; only ever held in the status page's local state. */
  datatype Status = Status(
    id: int,
    title: string,
    categoryId: int,
    color: string)

  /** `'idle' | 'loading' | 'succeeded' | 'failed'` */
  datatype ApiStatus = Idle | Loading | Succeeded | Failed

  /** The todo slice's filter: both fields are `number | null`. */
  datatype Filter = Filter(categoryId: Option<int>, statusId: Option<int>)

  /** The id projections the reducers pass to `findIndex`. */
  function TodoId(t: Todo): int { t.id }
  function CategoryId(c: Category): int { c.id }
  function StatusId(s: Status): int { s.id }

  /** JavaScript truthiness of a `number | null`: `null` and `0` are falsy. */
  predicate IsFalsy(v: Option<int>)
  {
    v == None || v == Some(0)
  }

  /** `message || null` for a `string | undefined`: both `undefined` and `''` become `null`. */
  function OrNull(message: Option<string>): (r: Option<string>)
    ensures r == None <==> (message == None || message == Some(""))
    ensures r != None ==> r == message
  {
    if message == Some("") then None else message
  }
}
