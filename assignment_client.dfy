/** The browser client: its pagination state, the pagination buttons, the form's
    Adding/Editing mode, and the table it renders from a page of records. Server
    responses are taken to arrive synchronously, so each request is a call on the
    server's Store. */
module AssignmentClient {
  import opened Js
  import opened AssignmentStore

  /** Records per page the client always asks for. */
  const Limit := 5

  /** `Math.ceil(count / limit)`: the fewest pages that hold `count` records. */
  function PagesFor(count: nat): (pages: nat)
    ensures count <= pages * Limit < count + Limit
  {
    (count + Limit - 1) / Limit
  }

  /** One table row: id, name, due date and "Yes"/"No" for submitted. */
  datatype Row = Row(id: int, name: Option<string>, dueDate: Option<string>, submitted: string)

  /** The cells of one record; a submitted flag that is not true shows as "No". */
  function RowOf(a: Assignment): Row {
    Row(a.id, a.name, a.dueDate, if a.submitted == Some(true) then "Yes" else "No")
  }

  /** The table body: one row per record, in the order the server sent them. */
  function Render(data: seq<Assignment>): (rows: seq<Row>)
    ensures |rows| == |data|
    ensures forall i :: 0 <= i < |data| ==> rows[i] == RowOf(data[i])
  {
    if data == [] then [] else [RowOf(data[0])] + Render(data[1..])
  }

  /** The request a form submit sends. */
  datatype Request =
    | Post            // POST /api/assignments
    | Put(id: int)    // PUT /api/assignments/<id>

  /** PUT when `editingAssignmentId` is truthy (not null and not 0), POST otherwise. */
  function RequestFor(editing: Option<int>): (request: Request)
    ensures request.Put? <==> editing.Some? && editing.value != 0
    ensures request.Put? ==> request.id == editing.value
  {
    if editing.Some? && editing.value != 0 then Put(editing.value) else Post
  }

  datatype Button = Prev | Next | First | Last

  /** The page a click on a pagination button requests, or None when its guard fails. */
  function NavTarget(b: Button, currentPage: int, totalPages: int): Option<int> {
    match b
    case Prev => if currentPage > 1 then Some(currentPage - 1) else None
    case Next => if currentPage < totalPages then Some(currentPage + 1) else None
    case First => Some(1)
    case Last => Some(totalPages)
  }

  /** The current page after a series of clicks, each answered before the next. */
  ghost function Replay(currentPage: int, totalPages: int, clicks: seq<Button>): int
    decreases |clicks|
  {
    if clicks == [] then currentPage
    else
      var next := match NavTarget(clicks[0], currentPage, totalPages)
        case Some(p) => p
        case None => currentPage;
      Replay(next, totalPages, clicks[1..])
  }

  class Client {
    var currentPage: int
    var totalAssignments: nat
    var totalPages: int
    var editingAssignmentId: Option<int>
    var prevDisabled: bool
    var nextDisabled: bool
    var firstDisabled: bool
    var lastDisabled: bool
    /** The rendered table body. */
    var rows: seq<Row>
    /** The form's name, due-date and submitted inputs. */
    var formName: string
    var formDueDate: string
    var formSubmitted: bool

    /** Each button is disabled exactly when the page is at that button's extreme. */
    ghost predicate ButtonsMatch()
      reads this
    {
      && prevDisabled == (currentPage <= 1)
      && nextDisabled == (currentPage >= totalPages)
      && firstDisabled == (currentPage == 1)
      && lastDisabled == (currentPage == totalPages)
    }

    /** The count, the page count and the table agree with the server's store. */
    ghost predicate ShowsServer(server: Store)
      reads this, server
    {
      && totalAssignments == |server.assignments|
      && totalPages == PagesFor(totalAssignments)
      && rows == Render(Page(server.assignments, Some(Int(currentPage)), Some(Int(Limit))))
      && ButtonsMatch()
    }

    /** The script's module-level state before any response arrives. */
    constructor ()
      ensures currentPage == 1 && totalAssignments == 0 && totalPages == 1
      ensures editingAssignmentId == None && rows == []
      ensures formName == "" && formDueDate == "" && !formSubmitted
    {
      currentPage := 1;
      totalAssignments := 0;
      totalPages := 1;
      editingAssignmentId := None;
      rows := [];
      formName, formDueDate, formSubmitted := "", "", false;
    }

    method UpdatePaginationButtons()
      modifies this
      ensures ButtonsMatch()
      ensures currentPage == old(currentPage) && totalPages == old(totalPages)
      ensures totalAssignments == old(totalAssignments) && rows == old(rows)
      ensures editingAssignmentId == old(editingAssignmentId)
      ensures formName == old(formName) && formDueDate == old(formDueDate) && formSubmitted == old(formSubmitted)
    {
      prevDisabled := currentPage <= 1;
      nextDisabled := currentPage >= totalPages;
      firstDisabled := currentPage == 1;
      lastDisabled := currentPage == totalPages;
    }

    /** Asks the server for the count and recomputes the number of pages. */
    method FetchTotalAssignments(server: Store)
      modifies this
      ensures totalAssignments == |server.assignments| && totalPages == PagesFor(totalAssignments)
      ensures ButtonsMatch()
      ensures currentPage == old(currentPage) && rows == old(rows)
      ensures editingAssignmentId == old(editingAssignmentId)
      ensures formName == old(formName) && formDueDate == old(formDueDate) && formSubmitted == old(formSubmitted)
    {
      var count := server.Count();
      totalAssignments := count;
      totalPages := PagesFor(totalAssignments);
      UpdatePaginationButtons();
    }

    /** Asks the server for one page; the current page becomes `page` only once the
        page's data is there. */
    method SendGetAssignmentsRequest(page: int, server: Store)
      modifies this
      ensures currentPage == page
      ensures rows == Render(Page(server.assignments, Some(Int(page)), Some(Int(Limit))))
      ensures ButtonsMatch()
      ensures totalAssignments == old(totalAssignments) && totalPages == old(totalPages)
      ensures editingAssignmentId == old(editingAssignmentId)
      ensures formName == old(formName) && formDueDate == old(formDueDate) && formSubmitted == old(formSubmitted)
    {
      var data := server.List(Some(Int(page)), Some(Int(Limit)));
      rows := Render(data);
      currentPage := page;
      UpdatePaginationButtons();
    }

    /** What happens once the page has loaded: the count, then page 1. */
    method Load(server: Store)
      modifies this
      ensures currentPage == 1 && ShowsServer(server)
      ensures editingAssignmentId == old(editingAssignmentId)
      ensures formName == old(formName) && formDueDate == old(formDueDate) && formSubmitted == old(formSubmitted)
    {
      FetchTotalAssignments(server);
      SendGetAssignmentsRequest(1, server);
    }

    /** A click on one of the four pagination buttons. */
    method Click(b: Button, server: Store)
      modifies this
      ensures NavTarget(b, old(currentPage), old(totalPages)).None? ==> unchanged(this)
      ensures NavTarget(b, old(currentPage), old(totalPages)).Some? ==>
        && currentPage == NavTarget(b, old(currentPage), old(totalPages)).value
        && rows == Render(Page(server.assignments, Some(Int(currentPage)), Some(Int(Limit))))
        && ButtonsMatch()
      ensures totalAssignments == old(totalAssignments) && totalPages == old(totalPages)
      ensures editingAssignmentId == old(editingAssignmentId)
      ensures formName == old(formName) && formDueDate == old(formDueDate) && formSubmitted == old(formSubmitted)
      ensures 1 <= old(currentPage) <= old(totalPages) ==> 1 <= currentPage <= totalPages
    {
      var target := NavTarget(b, currentPage, totalPages);
      if target.Some? {
        SendGetAssignmentsRequest(target.value, server);
      }
    }

    /** The edit button of a row: fills the form and switches to Editing mode. */
    method EditAssignment(id: int, name: string, dueDate: string, submitted: bool)
      modifies this
      ensures editingAssignmentId == Some(id)
      ensures formName == name && formDueDate == dueDate && formSubmitted == submitted
      ensures currentPage == old(currentPage) && totalPages == old(totalPages)
      ensures totalAssignments == old(totalAssignments) && rows == old(rows)
      ensures prevDisabled == old(prevDisabled) && nextDisabled == old(nextDisabled)
      ensures firstDisabled == old(firstDisabled) && lastDisabled == old(lastDisabled)
    {
      formName, formDueDate, formSubmitted := name, dueDate, submitted;
      editingAssignmentId := Some(id);
    }

    /** The form's submit handler. The response is handled only when its body is JSON:
        a created or updated record, or the 400 validation error. A plain-text 404 or
        500 makes `response.json()` fail, and only the console hears of it. */
    method SubmitAssignment(server: Store) returns (request: Request, handled: bool)
      modifies this, server
      ensures request == RequestFor(old(editingAssignmentId))
      ensures request.Put? ==> (handled <==> FindIndex(old(server.assignments), Int(request.id)).Some?)
      ensures request.Post? ==>
        (handled <==> !(Present(Some(old(formName))) && Present(Some(old(formDueDate)))) || old(server.assignments) != [])
      ensures request.Put? && handled ==>
        var i := FindIndex(old(server.assignments), Int(request.id)).value;
        server.assignments == old(server.assignments)[i := Assignment(
          old(server.assignments)[i].id, Some(old(formName)), Some(old(formDueDate)), Some(old(formSubmitted)))]
      ensures request.Post? && Present(Some(old(formName))) && Present(Some(old(formDueDate))) && old(server.assignments) != [] ==>
        server.assignments == old(server.assignments) + [Assignment(
          old(server.assignments)[|old(server.assignments)| - 1].id + 1,
          Some(old(formName)), Some(old(formDueDate)), Some(old(formSubmitted)))]
      ensures request.Post? && !(Present(Some(old(formName))) && Present(Some(old(formDueDate)))) ==>
        server.assignments == old(server.assignments)
      ensures request.Put? ==> server.persisted == old(server.persisted)
      ensures request.Post? && Present(Some(old(formName))) && Present(Some(old(formDueDate))) && old(server.assignments) != [] ==>
        server.persisted == server.assignments
      ensures request.Post? && !(Present(Some(old(formName))) && Present(Some(old(formDueDate))) && old(server.assignments) != []) ==>
        server.persisted == old(server.persisted)
      ensures handled ==>
        && editingAssignmentId == None
        && formName == "" && formDueDate == "" && !formSubmitted
        && currentPage == old(currentPage)
        && ShowsServer(server)
      ensures !handled ==> unchanged(this) && server.assignments == old(server.assignments)
    {
      var body := Body(Some(formName), Some(formDueDate), Some(formSubmitted));
      request := RequestFor(editingAssignmentId);
      var reply: Result<Assignment>;
      if request.Put? {
        reply := server.Update(Int(request.id), body);
      } else {
        reply := server.Create(body);
        assert SubmittedOrFalse(body.submitted) == formSubmitted;
      }
      handled := reply.Success? || IsJsonError(reply.error);
      if handled {
        formName, formDueDate, formSubmitted := "", "", false;
        editingAssignmentId := None;
        FetchTotalAssignments(server);
        SendGetAssignmentsRequest(currentPage, server);
      }
    }
  }

  /** A disabled button is exactly one whose click would request nothing (prev, next)
      or only the page already shown (first, last). */
  lemma DisabledButtonsAreNoOps(currentPage: int, totalPages: int)
    ensures (currentPage <= 1) <==> NavTarget(Prev, currentPage, totalPages).None?
    ensures (currentPage >= totalPages) <==> NavTarget(Next, currentPage, totalPages).None?
    ensures (currentPage == 1) <==> NavTarget(First, currentPage, totalPages) == Some(currentPage)
    ensures (currentPage == totalPages) <==> NavTarget(Last, currentPage, totalPages) == Some(currentPage)
  {
  }

  /** While there is at least one page, any series of clicks starting inside
      [1, totalPages] stays inside it. */
  lemma {:induction false} ClicksStayInRange(currentPage: int, totalPages: int, clicks: seq<Button>)
    requires 1 <= currentPage <= totalPages
    ensures 1 <= Replay(currentPage, totalPages, clicks) <= totalPages
    decreases |clicks|
  {
    if clicks != [] {
      var next := match NavTarget(clicks[0], currentPage, totalPages)
        case Some(p) => p
        case None => currentPage;
      ClicksStayInRange(next, totalPages, clicks[1..]);
    }
  }

  /** On an empty store there are no pages, and from any page the last button requests
      page 0; it is enabled on every page but 0, page 1 included. */
  lemma EmptyStoreLastRequestsPageZero(currentPage: int)
    ensures PagesFor(0) == 0
    ensures NavTarget(Last, currentPage, PagesFor(0)) == Some(0)
    ensures (currentPage == PagesFor(0)) <==> currentPage == 0
  {
  }

  /** Every page the buttons reach holds between one and five records, and the page
      after the last one is empty: the client's page count matches the server's slicing. */
  lemma PagesInRangeAreFilled(s: seq<Assignment>, page: int)
    ensures 1 <= page <= PagesFor(|s|) ==>
      var r := Page(s, Some(Int(page)), Some(Int(Limit)));
      0 < |r| <= Limit
    ensures page == PagesFor(|s|) + 1 ==> Page(s, Some(Int(page)), Some(Int(Limit))) == []
  {
  }
}
