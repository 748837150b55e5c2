/**
 * The decisions of the category page (src/components/CategoryPage/CategoryPage.tsx):
 * when it starts a fetch of the categories, and what it shows for each
 * request status. Its `getCookie` is the one in the Cookie module.
 */
module CategoryPage {
  import opened Types
  import Cookie

  /**
   * The mount effect: only while the categories slice is `idle` does it set
   * the Authorization header (to `Bearer ` and the token cookie, which may be
   * empty) and dispatch `fetchCategories`. The result is that header, or
   * `None` when the effect does nothing.
   */
  function MountEffect(categoriesStatus: ApiStatus, cookie: string): (header: Option<string>)
    ensures header.Some? <==> categoriesStatus == Idle
    ensures header.Some? ==> header.value == "Bearer " + Cookie.CookieValue(cookie, "token")
  {
    if categoriesStatus == Idle then Some("Bearer " + Cookie.CookieValue(cookie, "token")) else None
  }

  /** Fetching moves the slice out of `idle`, so the effect dispatches at most once until logout resets it. */
  lemma FetchOnlyWhenIdle(categoriesStatus: ApiStatus, cookie: string)
    requires categoriesStatus in {Loading, Succeeded, Failed}
    ensures MountEffect(categoriesStatus, cookie) == None
  {
  }

  /** What the page renders between its two spacer columns. */
  datatype Content =
    | Blank                                  // the initial `''`
    | Spinner                                // CircularProgress
    | CategoryList(categories: seq<Category>) // the add form and one edit form per category
    | ErrorAlert(message: Option<string>)    // Alert showing apiError

  /** The content chosen by the request status: every status yields exactly one kind of content. */
  function PageContent(apiStatus: ApiStatus, categories: seq<Category>, apiError: Option<string>): (c: Content)
    ensures c == Spinner <==> apiStatus == Loading
    ensures c.CategoryList? <==> apiStatus == Succeeded
    ensures c.ErrorAlert? <==> apiStatus == Failed
    ensures c == Blank <==> apiStatus == Idle
    ensures c.CategoryList? ==> c.categories == categories
    ensures c.ErrorAlert? ==> c.message == apiError
  {
    if apiStatus.Loading? then Spinner
    else if apiStatus.Succeeded? then CategoryList(categories)
    else if apiStatus.Failed? then ErrorAlert(apiError)
    else Blank
  }
}
