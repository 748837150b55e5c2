/**
 * The categories slice of the store (src/features/categories/categoriesSlice.ts):
 * the same lifecycle as the todos slice, without a filter. Each async thunk's
 * outcome is a parameter of the reducer that handles it.
 */
module CategoriesSlice {
  import opened Types
  import opened JsArray
  import opened Reconcile

  class CategoriesState {
    var data: seq<Category>
    var apiStatus: ApiStatus
    var apiError: Option<string>

    /** The slice's `initialState`. */
    predicate IsInitial()
      reads this
    {
      data == [] && apiStatus == Idle && apiError == None
    }

    constructor ()
      ensures IsInitial()
    {
      data := [];
      apiStatus := Idle;
      apiError := None;
    }

    /** `logoutCategories`: back to the initial state. */
    method LogoutCategories()
      modifies this
      ensures IsInitial()
    {
      data := [];
      apiStatus := Idle;
      apiError := None;
    }

    /** `fetchCategories.pending`. A previous error message is kept. */
    method FetchPending()
      modifies this
      ensures apiStatus == Loading
      ensures data == old(data) && apiError == old(apiError)
    {
      apiStatus := Loading;
    }

    /** `fetchCategories.fulfilled`: the fetched categories go after the ones already held. */
    method FetchFulfilled(payload: seq<Category>)
      modifies this
      ensures apiStatus == Succeeded
      ensures data == old(data) + payload && |data| == |old(data)| + |payload|
      ensures apiError == old(apiError)
    {
      apiStatus := Succeeded;
      data := data + payload;
    }

    /** `fetchCategories.rejected`: `message` is the rejection's `error.message`, `None` when undefined. */
    method FetchRejected(message: Option<string>)
      modifies this
      ensures apiStatus == Failed
      ensures apiError == None <==> message == None || message == Some("")
      ensures apiError != None ==> apiError == message
      ensures data == old(data)
    {
      apiStatus := Failed;
      apiError := OrNull(message);
    }

    /** `addCategory.fulfilled`: the created record goes at the end. */
    method AddFulfilled(payload: Category)
      modifies this
      ensures data == old(data) + [payload]
      ensures apiStatus == old(apiStatus) && apiError == old(apiError)
    {
      data := data + [payload];
    }

    /** `updateCategory.fulfilled`: the record with the payload's id is replaced in place; an absent id takes the slice(0, -1) path. */
    method UpdateFulfilled(payload: Category)
      modifies this
      ensures data == Replaced(old(data), CategoryId, payload.id, payload)
      ensures var i := FindIndex(old(data), CategoryId, payload.id);
        (0 <= i ==> data == old(data)[i := payload]) &&
        (i == -1 ==> data == DropLast(old(data)) + [payload] + old(data))
      ensures apiStatus == old(apiStatus) && apiError == old(apiError)
    {
      var index := FindIndex(data, CategoryId, payload.id);
      data := Slice(data, 0, index) + [payload] + Slice(data, index + 1, |data|);
    }

    /** `deleteCategory.fulfilled`: `id` is the payload's id (the thunk echoes the id it was given). */
    method DeleteFulfilled(id: int)
      modifies this
      ensures data == Removed(old(data), CategoryId, id)
      ensures var i := FindIndex(old(data), CategoryId, id);
        (0 <= i ==> data == old(data)[..i] + old(data)[i + 1..]) &&
        (i == -1 ==> data == DropLast(old(data)) + old(data))
      ensures apiStatus == old(apiStatus) && apiError == old(apiError)
    {
      var index := FindIndex(data, CategoryId, id);
      data := Slice(data, 0, index) + Slice(data, index + 1, |data|);
    }
  }

  /** Deleting an id that is not in a two-category list does not remove anything: it yields three records. */
  method DeleteAbsentCategory(a: Category, b: Category) returns (data: seq<Category>)
    requires a.id != 7 && b.id != 7
    ensures data == [a, a, b]
  {
    var categories := new CategoriesState();
    categories.FetchPending();
    categories.FetchFulfilled([a, b]);
    assert categories.data == [a, b];
    assert FindIndex([a, b], CategoryId, 7) == -1 by {
      assert [a, b][1..] == [b];
      assert FindIndex([b], CategoryId, 7) == -1;
    }
    assert DropLast([a, b]) == [a];
    categories.DeleteFulfilled(7);
    data := categories.data;
  }
}
