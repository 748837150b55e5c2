/**
 * The status page (src/components/StatusPage/StatusPage.tsx): it looks up the
 * category named by the route and keeps that category's statuses in
 * component-local state, reconciling them with each reply of the status
 * endpoints. The replies are parameters; the requests are not modelled.
 */
module StatusPage {
  import opened Types
  import opened JsArray
  import opened Reconcile

  /**
   * The `category` selector. `param` is the `categoryId` route parameter
   * (`None` when undefined) and `parseInt` stands for the built-in, `None`
   * meaning NaN, which equals no id.
   */
  function FindCategory(categories: seq<Category>, param: Option<string>, parseInt: string -> Option<int>): (r: Option<Category>)
    ensures param == None || param == Some("") ==> r == None
    ensures r.Some? ==>
      param.Some? && parseInt(param.value) == Some(r.value.id) &&
      exists i :: 0 <= i < |categories| && categories[i] == r.value &&
        forall k :: 0 <= k < i ==> categories[k].id != r.value.id
    ensures r == None && param.Some? && param.value != "" && parseInt(param.value).Some? ==>
      forall k :: 0 <= k < |categories| ==> categories[k].id != parseInt(param.value).value
  {
    if param.Some? && param.value != "" then
      match parseInt(param.value)
      case None => None
      case Some(n) =>
        var i := FindIndex(categories, CategoryId, n);
        if i == -1 then None else Some(categories[i])
    else None
  }

  /** How a request settles: a response with its HTTP status and body, or the `catch` path. */
  datatype Reply<T> = Response(status: int, body: T) | Rejected

  /** Only a response with status 200 changes the list. */
  predicate IsOk<T>(reply: Reply<T>)
  {
    reply.Response? && reply.status == 200
  }

  class StatusPageState {
    var statusList: seq<Status>

    /** `useState<Status[]>([])` */
    constructor ()
      ensures statusList == []
    {
      statusList := [];
    }

    /** The first-load effect: the list becomes what `getStatus` resolved to. */
    method OnStatusesLoaded(response: seq<Status>)
      modifies this
      ensures statusList == response
    {
      statusList := response;
    }

    /** `handleSubmit`: a created status goes at the end. */
    method OnAddReply(reply: Reply<Status>)
      modifies this
      ensures IsOk(reply) ==> statusList == old(statusList) + [reply.body]
      ensures !IsOk(reply) ==> statusList == old(statusList)
    {
      if IsOk(reply) {
        statusList := statusList + [reply.body];
      }
    }

    /**
     * `handleStatusUpdateSubmit`: the status with the id that was edited
     * (`statusId`, not the reply's id) is replaced by the reply's body.
     */
    method OnUpdateReply(statusId: int, reply: Reply<Status>)
      modifies this
      ensures IsOk(reply) ==> statusList == Replaced(old(statusList), StatusId, statusId, reply.body)
      ensures IsOk(reply) ==>
        var i := FindIndex(old(statusList), StatusId, statusId);
        (0 <= i ==> statusList == old(statusList)[i := reply.body]) &&
        (i == -1 ==> statusList == DropLast(old(statusList)) + [reply.body] + old(statusList))
      ensures !IsOk(reply) ==> statusList == old(statusList)
    {
      if IsOk(reply) {
        var index := FindIndex(statusList, StatusId, statusId);
        statusList := Slice(statusList, 0, index) + [reply.body] + Slice(statusList, index + 1, |statusList|);
      }
    }

    /** `handleDeleteStatus`: the status with the deleted id goes; the reply's body is not used. */
    method OnDeleteReply<B>(statusId: int, reply: Reply<B>)
      modifies this
      ensures IsOk(reply) ==> statusList == Removed(old(statusList), StatusId, statusId)
      ensures IsOk(reply) ==>
        var i := FindIndex(old(statusList), StatusId, statusId);
        (0 <= i ==> statusList == old(statusList)[..i] + old(statusList)[i + 1..]) &&
        (i == -1 ==> statusList == DropLast(old(statusList)) + old(statusList))
      ensures !IsOk(reply) ==> statusList == old(statusList)
    {
      if IsOk(reply) {
        var index := FindIndex(statusList, StatusId, statusId);
        statusList := Slice(statusList, 0, index) + Slice(statusList, index + 1, |statusList|);
      }
    }
  }

  /** A 201 reply to a create is not a 200, so the new status does not appear. */
  method CreatedIsNotShown(existing: seq<Status>, created: Status) returns (shown: seq<Status>)
    ensures shown == existing
  {
    var page := new StatusPageState();
    page.OnStatusesLoaded(existing);
    page.OnAddReply(Response(201, created));
    shown := page.statusList;
  }
}
