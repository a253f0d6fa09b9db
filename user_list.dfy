/**
 * The `UserList` component (hoaxify-frontend/src/components/UserList.js):
 * holds one page of users, asks the API for other pages, and shows the
 * page, the previous/next controls and a load error.
 *
 * The asynchronous `listUsers` call is split in two: `LoadData` issues the
 * request and records it, and `OnLoadSuccess` / `OnLoadFailure` apply its
 * outcome later, in whatever order the caller chooses.
 */
module UserListComponent {
  import opened Wrappers

  /** One entry of a page's `content`, as the list shows it. */
  datatype UserItem = UserItem(username: string, displayName: string, image: string)

  /**
   * A page as the API returns it. `first`, `last` and `totalPages` may be
   * absent; they are absent in the component's initial page.
   */
  datatype Page = Page(
    content: seq<UserItem>,
    number: int,
    size: int,
    first: Option<bool>,
    last: Option<bool>,
    totalPages: Option<int>)

  /** The argument of one `listUsers` call. */
  datatype ListRequest = ListRequest(page: int, size: int)

  /** What the component renders. */
  datatype ListView = ListView(
    items: seq<UserItem>,
    previousOffered: bool,
    nextOffered: bool,
    errorText: Option<string>)

  /** The page held before any response arrives. */
  const InitialPage: Page := Page([], 0, 3, None, None, None)

  /** The error text set when a load fails. */
  const LoadFailedMessage: string := "User load failed"

  /** JavaScript truthiness of an optional boolean: only a present `true` is truthy. */
  predicate Truthy(flag: Option<bool>)
  {
    flag == Some(true)
  }

  /**
   * `render`: one item per entry of `page.content`, the previous control
   * unless `page.first` is truthy, the next control unless `page.last` is
   * truthy, and the error text when `loadError` is a non-empty string.
   */
  function Render(page: Page, loadError: Option<string>): ListView
  {
    ListView(
      page.content,
      !Truthy(page.first),
      !Truthy(page.last),
      if loadError.Some? && loadError.value != "" then loadError else None)
  }

  /**
   * The rendered view against the state: the items are the page content in
   * order; each control is offered exactly when its flag is not `true`,
   * so both are offered when the flags are absent; and for the error
   * values the component ever holds, the error is shown exactly when set.
   */
  lemma RenderFollowsState(page: Page, loadError: Option<string>)
    requires loadError == None || loadError == Some(LoadFailedMessage)
    ensures Render(page, loadError).items == page.content
    ensures Render(page, loadError).previousOffered <==> page.first != Some(true)
    ensures Render(page, loadError).nextOffered <==> page.last != Some(true)
    ensures page.first.None? && page.last.None? ==>
      Render(page, loadError).previousOffered && Render(page, loadError).nextOffered
    ensures Render(page, loadError).errorText == loadError
  {
  }

  class UserList {
    /** `state.page` */
    var page: Page
    /** `state.loadError` */
    var loadError: Option<string>
    /** Every `listUsers` call issued so far, oldest first. */
    var requests: seq<ListRequest>
    /** Issued calls whose outcome has not yet been applied. */
    var inFlight: nat

    /** The error is either unset or the failure text. */
    ghost predicate Valid()
      reads this
    {
      loadError == None || loadError == Some(LoadFailedMessage)
    }

    /** The initial `state`: an empty page 0 of size 3, no error, no call yet. */
    constructor ()
      ensures Valid()
      ensures page == InitialPage && loadError == None
      ensures requests == [] && inFlight == 0
    {
      page := InitialPage;
      loadError := None;
      requests := [];
      inFlight := 0;
    }

    /**
     * What the component currently renders: the held page's users in
     * order, and the error text exactly when an error is set.
     */
    function View(): (v: ListView)
      reads this
      requires Valid()
      ensures v.items == page.content && v.errorText == loadError
    {
      RenderFollowsState(page, loadError);
      Render(page, loadError)
    }

    /**
     * `loadData(requestedPage)`: issues one `listUsers` call for the given
     * page index with the size of the page now held. The state is not
     * touched until the call settles.
     */
    method LoadData(requestedPage: int)
      requires Valid()
      modifies this
      ensures Valid()
      ensures requests == old(requests) + [ListRequest(requestedPage, old(page).size)]
      ensures inFlight == old(inFlight) + 1
      ensures page == old(page) && loadError == old(loadError)
    {
      requests := requests + [ListRequest(requestedPage, page.size)];
      inFlight := inFlight + 1;
    }

    /** `componentDidMount`: `loadData()` with its default page index 0. */
    method ComponentDidMount()
      requires Valid()
      modifies this
      ensures Valid()
      ensures requests == old(requests) + [ListRequest(0, old(page).size)]
      ensures inFlight == old(inFlight) + 1
      ensures page == old(page) && loadError == old(loadError)
    {
      LoadData(0);
    }

    /** `onClickNext`: asks for the page after the one held. */
    method OnClickNext()
      requires Valid()
      modifies this
      ensures Valid()
      ensures requests == old(requests) + [ListRequest(old(page).number + 1, old(page).size)]
      ensures inFlight == old(inFlight) + 1
      ensures page == old(page) && loadError == old(loadError)
    {
      LoadData(page.number + 1);
    }

    /**
     * `onClickPrevious`: asks for the page before the one held. Nothing
     * here stops it from asking for page -1.
     */
    method OnClickPrevious()
      requires Valid()
      modifies this
      ensures Valid()
      ensures requests == old(requests) + [ListRequest(old(page).number - 1, old(page).size)]
      ensures inFlight == old(inFlight) + 1
      ensures page == old(page) && loadError == old(loadError)
    {
      LoadData(page.number - 1);
    }

    /**
     * A `listUsers` call resolved with `response`: the page is replaced by
     * the response as a whole and the error is cleared.
     */
    method OnLoadSuccess(response: Page)
      requires Valid() && inFlight > 0
      modifies this
      ensures Valid()
      ensures page == response && loadError == None
      ensures requests == old(requests) && inFlight == old(inFlight) - 1
    {
      page := response;
      loadError := None;
      inFlight := inFlight - 1;
    }

    /**
     * A `listUsers` call was rejected: the error text is set and the page
     * held so far stays, so its users remain listed.
     */
    method OnLoadFailure()
      requires Valid() && inFlight > 0
      modifies this
      ensures Valid()
      ensures loadError == Some(LoadFailedMessage) && page == old(page)
      ensures requests == old(requests) && inFlight == old(inFlight) - 1
    {
      loadError := Some(LoadFailedMessage);
      inFlight := inFlight - 1;
    }
  }
}
