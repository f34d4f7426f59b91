# Assignment tracker: store and client pagination, modelled in Dafny

The application keeps a list of assignment records `{id, name, dueDate, submitted}`.
A REST server holds them in an in-memory array, loaded once from `data.json`. Its
route handlers list one page, count, get by id, create, update and delete, editing
the array in place. A create also rewrites the file. A browser client pages through
the records five at a time with first/prev/next/last buttons. It renders each page
as a table and submits a form that creates a record (Adding mode) or updates one
(Editing mode).

The model has three modules:

- `Js` (`js.dfy`): the JavaScript meanings the code relies on. These are optional
  (`undefined`) values, `parseInt` results including NaN, and `Array.prototype.slice`,
  which treats NaN as 0, counts negative indices from the end and clamps to the length.
- `AssignmentStore` (`assignment_store.dfy`): the server. `Store` is a class whose
  field `assignments` is the array and whose ghost field `persisted` is what the
  backing file last received. Each route is one method that returns a `Result`. The
  failures are `MissingField` (400, JSON body), `NotFound` (404, plain text) and
  `ServerError` (500 from the error handler, plain text). The lemmas are about the
  paging function `Page`, the search `FindIndex`, and the id-order invariant
  `IdsIncreasing` that every mutating route preserves.
- `AssignmentClient` (`assignment_client.dfy`): the client script. `Client` is a class
  holding the script's module variables, the four button flags, the rendered rows
  and the form inputs. Each request is a synchronous call on the server `Store`.

Three behaviours of the code are easy to miss:

- A create on an empty store does not produce id 1. `assignments[assignments.length - 1].id`
  throws, and the error handler answers 500. `Store.Create` returns `ServerError`
  for it, but only after validation, which runs first in the code.
- A 400 validation error has a JSON body, so the client's `.then` chain still runs.
  The form is reset, Editing mode is left and the table is refreshed, exactly as
  after a success. Only the plain-text 404 and 500 answers make `response.json()`
  fail and leave the client untouched. `Client.SubmitAssignment` states both cases.
- On an empty store `totalPages` is 0. The last button stays enabled on page 1 and
  requests page 0, which `slice(-5, 0)` answers with nothing.

## Model

| member | source | states |
|---|---|---|
| `Js.SliceOfNaturals` | myServer/index.js:66 | for non-negative start and end, `slice` is the window `[start, min(end, length))`, or empty when that window is empty |
| `AssignmentStore.Store.constructor` | myServer/index.js:36 | the store starts with the file's contents, and the persisted snapshot equals them |
| `AssignmentStore.Store.List` | myServer/index.js:59-69 | answers `Page` of the current records for the given page and limit (defaults 1 and 10), never more records than the store holds, and changes nothing |
| `AssignmentStore.PageWindow` | myServer/index.js:64-66 | for page >= 1 and limit >= 0 the answer is exactly `assignments[(page-1)*limit .. min(N, page*limit)]`, at most `limit` long, and empty when `(page-1)*limit >= N` |
| `AssignmentStore.PageOfNaN` | myServer/index.js:61-66 | a page or limit that is not a number yields an empty page |
| `AssignmentStore.PageZeroIsEmpty` | myServer/index.js:64-66 | page 0 is `slice(-limit, 0)`, which is empty |
| `AssignmentStore.PageAfterLastIsEmpty` | myServer/index.js:64-66 | with N records and limit L >= 1, page `ceil(N/L) + 1` is empty |
| `AssignmentStore.PagesTile` | myServer/index.js:64-66 | pages 1..m laid end to end are exactly the first `min(N, m*limit)` records: none skipped, none repeated, in order |
| `AssignmentStore.Store.Count` | myServer/index.js:81-83 | answers the number of records and changes nothing |
| `AssignmentStore.FindIndex` | myServer/index.js:105 | the index of the first record whose id equals the parsed id, or None exactly when no record has it (NaN matches nothing) |
| `AssignmentStore.Store.GetById` | myServer/index.js:104-108 | answers the first matching record, or NotFound (404, "Assignment not found") exactly when no record matches; changes nothing |
| `AssignmentStore.FirstMissingField` | myServer/index.js:137-144 | the loop reports `name` when it is undefined or empty, otherwise `dueDate` when that is undefined or empty, otherwise nothing |
| `AssignmentStore.Store.Create` | myServer/index.js:134-160 | a missing name, then a missing dueDate, gives the 400 error "Missing required field: <field>" for that field; a valid body on an empty store gives the 500 error "Something went wrong!"; failures change neither the records nor the snapshot; otherwise exactly one record is appended with id = last id + 1, the given name and dueDate and `submitted` true only if given true; it is returned and the snapshot becomes the whole new sequence; increasing ids stay increasing |
| `AssignmentStore.Store.Update` | myServer/index.js:195-203 | on the first match the record keeps its id and position and takes the body's name, dueDate and submitted as given, undefined included; every other record and the length are unchanged; no match gives NotFound (404) and no change; the snapshot is never touched |
| `AssignmentStore.Store.Delete` | myServer/index.js:224-233 | on the first match at index i the records become `old[..i] + old[i+1..]`; no match gives NotFound (404) and no change; the snapshot is never touched |
| `AssignmentStore.AppendAfterLastKeepsIncreasing` | myServer/index.js:146-153 | appending a record whose id is the last id + 1 keeps ids strictly increasing |
| `AssignmentStore.RemoveKeepsIncreasing` | myServer/index.js:231 | removing one element keeps ids strictly increasing |
| `AssignmentStore.IncreasingIdsAreUnique` | myServer/index.js:146-148 | strictly increasing ids are unique, so a store grown only by create from a sorted file never holds a duplicate id |
| `AssignmentStore.DeletedIdIsGone` | myServer/index.js:225-231 | when ids are unique, after a delete no record has that id, so a second delete of it answers NotFound |
| `AssignmentClient.Client.constructor` | myClient/js/script.js:4-8 | the client starts on page 1 with 0 records, 1 page and no assignment being edited |
| `AssignmentClient.PagesFor` | myClient/js/script.js:15-16 | `ceil(count / 5)`: `count <= pages*5 < count + 5`, so 0 pages for 0 records |
| `AssignmentClient.Client.FetchTotalAssignments` | myClient/js/script.js:11-19 | after the count response `totalAssignments` is the store's size, `totalPages` is `PagesFor` of it, and the buttons match; page, rows, form and mode are unchanged |
| `AssignmentClient.Client.SendGetAssignmentsRequest` | myClient/js/script.js:22-30 | once the page arrives the rows render the server's page and only then does `currentPage` become the requested page; the buttons match |
| `AssignmentClient.Render` | myClient/js/script.js:110-115 | one row per record, in order, with id, name, dueDate and "Yes" exactly for a submitted flag of true |
| `AssignmentClient.Client.UpdatePaginationButtons` | myClient/js/script.js:141-146 | prev disabled iff page <= 1, next iff page >= totalPages, first iff page == 1, last iff page == totalPages; nothing else changes |
| `AssignmentClient.DisabledButtonsAreNoOps` | myClient/js/script.js:142-167 | a button is disabled exactly when its click would request nothing (prev, next) or only the current page (first, last) |
| `AssignmentClient.Client.Load` | myClient/js/script.js:149-151 | after page load the client shows page 1 with the server's count, page count and rows; the form and the editing mode are unchanged |
| `AssignmentClient.Client.Click` | myClient/js/script.js:153-167 | prev requests page - 1 only above page 1, next requests page + 1 only below `totalPages`, first requests 1 and last requests `totalPages`; a failed guard changes nothing; the count, the page count, the form and the editing mode never change; starting in `[1, totalPages]` the page stays there |
| `AssignmentClient.ClicksStayInRange` | myClient/js/script.js:153-167 | with at least one page, any series of clicks starting in `[1, totalPages]` never leaves it |
| `AssignmentClient.EmptyStoreLastRequestsPageZero` | myClient/js/script.js:165-167 | on an empty store there are 0 pages, and from any page last requests page 0; it is disabled only on page 0 |
| `AssignmentClient.PagesInRangeAreFilled` | myClient/js/script.js:16 | every page in `[1, ceil(N/5)]` holds one to five records, and page `ceil(N/5) + 1` is empty |
| `AssignmentClient.RequestFor` | myClient/js/script.js:43-46 | PUT to the editing id exactly when `editingAssignmentId` is truthy (not null and not 0), POST otherwise |
| `AssignmentClient.Client.EditAssignment` | myClient/js/script.js:70-79 | fills the form with the row's values and enters Editing mode for that id; the paging state, the rows and the four button flags are unchanged |
| `AssignmentClient.Client.SubmitAssignment` | myClient/js/script.js:33-67 | sends `RequestFor` the current mode with the form's values; a PUT that finds its id overwrites that record with the form's name, due date and submitted flag, a valid POST on a non-empty store appends a record with id last + 1 and those values, an invalid POST leaves the records unchanged; only a valid POST on a non-empty store sets the persisted snapshot, to the new records, and a PUT or a failed POST leaves it as it was; the response is handled exactly when it has a JSON body (a PUT that found its id, or a POST that failed validation or hit a non-empty store); a handled response resets the form, returns to Adding mode (the only way back) and re-shows the same page from fresh server data; an unhandled one changes neither the client nor the records |

## Left out

- Express, multer, CORS and swagger setup, the welcome route, the 404 fallback and `app.listen`: framework plumbing. Of the 500 handler only "create on an empty store fails" is modelled.
- `fs.writeFile` and its callback: file I/O. The ghost `persisted` snapshot is set to the whole sequence at the moment the write is issued. A failing or reordered write is not modelled.
- Loading `data.json`: the initial contents are the constructor's parameter.
- `parseInt` on query and path strings: page, limit and id arrive already parsed, as an integer or NaN. An absent page or limit is `None`.
- JavaScript numbers are IEEE doubles. `(page - 1) * limit` and `lastId + 1` lose precision beyond 2^53, and the model uses unbounded integers.
- Field values in request bodies are taken to be strings and booleans. Other JSON types, and truthiness of non-string values, are not modelled.
- The objects in the server's array are updated in place by PUT. The model keeps records as values, because no other reference to them survives a request.
- Client.Click: a browser does not fire clicks on a disabled button, but the model lets `Click` run the handler for any button. So first on page 1 and last on the last page re-request the current page and re-render the rows, where the browser would do nothing. The rows differ only when they were stale.
- The server's `console.log` and `console.error` calls (myServer/index.js:135, 157, 237): logging only.
- The client's `fetch` calls, promise chains, DOM creation, `console.log` and `window.alert`: browser and network effects. Every response is taken to arrive before the next event. After a submit the count response is taken to arrive before the page response.
- The client's delete handler: it calls `.json()` on an empty 204 response, and what happens then depends on the fetch library.
- `form.reset()` is modelled as clearing the inputs to empty text and an unchecked box. The page markup, which holds the real defaults, is not part of this model.
- Client.EditAssignment: takes the row's name and due date as strings, so it does not model how a browser converts an undefined value when writing it into an input.
- Concurrent creates that race on the last id, and overlapping asynchronous responses: concurrency is outside a sequential model.
