/**
 * Runs of the `UserList` component against the responses its frontend
 * tests use: a first page of three users out of four, and the last page
 * holding the fourth.
 */
module UserListScenarios {
  import opened Wrappers
  import opened UserListComponent

  function Item(n: string): UserItem
  {
    UserItem("user" + n, "display" + n, "")
  }

  /** Page 0 of two: three users, `first` and not `last`. */
  const FirstOfTwo: Page := Page([Item("1"), Item("2"), Item("3")], 0, 3, Some(true), Some(false), Some(2))

  /** Page 1 of two: the fourth user, `last` and not `first`. */
  const LastOfTwo: Page := Page([Item("4")], 1, 3, Some(false), Some(true), Some(2))

  /**
   * Mounting issues exactly one call, for page 0 of size 3; until it
   * settles the empty initial page is shown with both controls offered,
   * and "previous" then asks for page -1.
   */
  method MountAndClickPreviousEarly() returns (afterMount: seq<ListRequest>, view: ListView, afterClick: seq<ListRequest>)
    ensures afterMount == [ListRequest(0, 3)]
    ensures view == ListView([], true, true, None)
    ensures afterClick == [ListRequest(0, 3), ListRequest(-1, 3)]
  {
    var list := new UserList();
    list.ComponentDidMount();
    afterMount := list.requests;
    view := list.View();
    list.OnClickPrevious();
    afterClick := list.requests;
  }

  /**
   * Loading the first page hides "previous" and offers "next"; "next" asks
   * for page 1 with the held size, and its response lists the fourth user
   * with "next" hidden and "previous" offered.
   */
  method NextLoadsSecondPage() returns (firstView: ListView, request: ListRequest, secondView: ListView)
    ensures firstView == ListView(FirstOfTwo.content, false, true, None)
    ensures request == ListRequest(1, 3)
    ensures secondView == ListView([Item("4")], true, false, None)
  {
    var list := new UserList();
    list.ComponentDidMount();
    list.OnLoadSuccess(FirstOfTwo);
    firstView := list.View();
    list.OnClickNext();
    request := list.requests[|list.requests| - 1];
    list.OnLoadSuccess(LastOfTwo);
    secondView := list.View();
  }

  /**
   * A failed load after "previous" keeps the fourth user listed and shows
   * "User load failed"; a later successful load removes the message.
   */
  method FailureKeepsPageThenSuccessClearsError() returns (failedView: ListView, recoveredView: ListView, issued: seq<ListRequest>)
    ensures failedView == ListView([Item("4")], true, false, Some("User load failed"))
    ensures recoveredView == ListView(FirstOfTwo.content, false, true, None)
    ensures issued == [ListRequest(0, 3), ListRequest(0, 3), ListRequest(0, 3)]
  {
    var list := new UserList();
    list.ComponentDidMount();
    list.OnLoadSuccess(LastOfTwo);
    list.OnClickPrevious();
    list.OnLoadFailure();
    failedView := list.View();
    list.OnClickPrevious();
    list.OnLoadSuccess(FirstOfTwo);
    recoveredView := list.View();
    issued := list.requests;
  }
}
