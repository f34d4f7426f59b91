/** The assignment store of the REST server: the in-memory sequence of assignment
    records and the route handlers that read and edit it in place (list a page,
    count, get by id, create, update, delete). */
module AssignmentStore {
  import opened Js

  /** One assignment record. After an update any of the three data fields may be
      undefined, so they are optional. */
  datatype Assignment = Assignment(id: int, name: Option<string>, dueDate: Option<string>, submitted: Option<bool>)

  /** The JSON body of a create or update request. */
  datatype Body = Body(name: Option<string>, dueDate: Option<string>, submitted: Option<bool>)

  /** The fields a create request must carry, in the order they are checked. */
  datatype Field = Name | DueDate

  const RequiredFields: seq<Field> := [Name, DueDate]

  /** Query defaults of the list route. */
  const DefaultPage := 1
  const DefaultLimit := 10

  /** The failures a handler answers with. */
  datatype ApiError =
    | MissingField(field: string)   // 400, JSON body {error: "Missing required field: <field>"}
    | NotFound                      // 404, plain text "Assignment not found"
    | ServerError                   // 500 from the error handler, plain text "Something went wrong!"

  datatype Result<+T> = Success(value: T) | Failure(error: ApiError)

  function FieldName(f: Field): string {
    match f
    case Name => "name"
    case DueDate => "dueDate"
  }

  function ErrorMessage(e: ApiError): string {
    match e
    case MissingField(f) => "Missing required field: " + f
    case NotFound => "Assignment not found"
    case ServerError => "Something went wrong!"
  }

  /** The HTTP status of each failure. */
  function Status(e: ApiError): int {
    match e
    case MissingField(_) => 400
    case NotFound => 404
    case ServerError => 500
  }

  /** Only the 400 answer carries a JSON body; the others are plain text. */
  predicate IsJsonError(e: ApiError) {
    e.MissingField?
  }

  /** JavaScript truthiness of an optional string: neither undefined nor "". */
  predicate Present(v: Option<string>) {
    v.Some? && v.value != ""
  }

  function FieldValue(body: Body, f: Field): Option<string> {
    match f
    case Name => body.name
    case DueDate => body.dueDate
  }

  /** `req.body.submitted || false`: only an explicit true stays true. */
  function SubmittedOrFalse(v: Option<bool>): bool {
    v == Some(true)
  }

  /** `a.id === n` where n comes from `parseInt`: NaN equals nothing. */
  predicate Matches(a: Assignment, id: Num) {
    id == Int(a.id)
  }

  /** The position `Array.prototype.find` and `findIndex` stop at: the first record
      whose id equals `id`, or None when there is none. */
  function FindIndex(s: seq<Assignment>, id: Num): (r: Option<nat>)
    ensures r.Some? ==> r.value < |s| && Matches(s[r.value], id)
    ensures r.Some? ==> forall j :: 0 <= j < r.value ==> !Matches(s[j], id)
    ensures r.None? <==> forall j :: 0 <= j < |s| ==> !Matches(s[j], id)
  {
    if s == [] then None
    else if Matches(s[0], id) then Some(0)
    else match FindIndex(s[1..], id)
      case None => None
      case Some(k) => Some(k + 1)
  }

  /** The page the list route answers with: `slice((page - 1) * limit, (page - 1) * limit + limit)`
      after the query defaults (page 1, limit 10) are filled in. */
  function Page(s: seq<Assignment>, page: Option<Num>, limit: Option<Num>): seq<Assignment> {
    var p := if page.Some? then page.value else Int(DefaultPage);
    var l := if limit.Some? then limit.value else Int(DefaultLimit);
    var startIndex := Mul(Sub(p, Int(1)), l);
    var endIndex := Add(startIndex, l);
    Slice(s, startIndex, endIndex)
  }

  /** The validation loop of the create route: the first required field that is
      undefined or empty, or None when both are present. */
  method FirstMissingField(body: Body) returns (missing: Option<Field>)
    ensures missing == Some(Name) <==> !Present(body.name)
    ensures missing == Some(DueDate) <==> Present(body.name) && !Present(body.dueDate)
    ensures missing == None <==> Present(body.name) && Present(body.dueDate)
  {
    for k := 0 to |RequiredFields|
      invariant forall j :: 0 <= j < k ==> Present(FieldValue(body, RequiredFields[j]))
    {
      if !Present(FieldValue(body, RequiredFields[k])) {
        assert k == 1 ==> Present(FieldValue(body, RequiredFields[0]));
        return Some(RequiredFields[k]);
      }
    }
    assert Present(FieldValue(body, RequiredFields[0])) && Present(FieldValue(body, RequiredFields[1]));
    return None;
  }

  /** No two records share an id. */
  ghost predicate IdsUnique(s: seq<Assignment>) {
    forall i, j :: 0 <= i < j < |s| ==> s[i].id != s[j].id
  }

  /** Ids strictly increase along the sequence, as they do in a file that only
      ever grew through the create route. */
  ghost predicate IdsIncreasing(s: seq<Assignment>) {
    forall i, j :: 0 <= i < j < |s| ==> s[i].id < s[j].id
  }

  /** The in-memory store of the server, with the contents the backing file last received. */
  class Store {
    var assignments: seq<Assignment>
    /** What the last write of the backing file holds (the write itself is I/O). */
    ghost var persisted: seq<Assignment>

    /** Loading the backing file once at start-up. */
    constructor (initial: seq<Assignment>)
      ensures assignments == initial && persisted == initial
    {
      assignments := initial;
      persisted := initial;
    }

    /** GET /api/assignments?page=&limit= */
    method List(page: Option<Num>, limit: Option<Num>) returns (r: seq<Assignment>)
      ensures r == Page(assignments, page, limit)
      ensures |r| <= |assignments|
    {
      r := Page(assignments, page, limit);
    }

    /** GET /api/assignments/count */
    method Count() returns (count: nat)
      ensures count == |assignments|
    {
      count := |assignments|;
    }

    /** GET /api/assignments/:id */
    method GetById(id: Num) returns (r: Result<Assignment>)
      ensures r.Failure? <==> forall j :: 0 <= j < |assignments| ==> !Matches(assignments[j], id)
      ensures r.Failure? ==> r.error == NotFound
      ensures r.Failure? ==> Status(r.error) == 404 && ErrorMessage(r.error) == "Assignment not found"
      ensures r.Success? ==> FindIndex(assignments, id).Some? && r.value == assignments[FindIndex(assignments, id).value]
    {
      var i := FindIndex(assignments, id);
      if i.None? {
        return Failure(NotFound);
      }
      r := Success(assignments[i.value]);
    }

    /** POST /api/assignments */
    method Create(body: Body) returns (r: Result<Assignment>)
      modifies this
      ensures !Present(body.name) ==> r == Failure(MissingField("name"))
      ensures Present(body.name) && !Present(body.dueDate) ==> r == Failure(MissingField("dueDate"))
      ensures Present(body.name) && Present(body.dueDate) && old(assignments) == [] ==> r == Failure(ServerError)
      ensures r.Failure? ==> assignments == old(assignments) && persisted == old(persisted)
      ensures r.Failure? && r.error.MissingField? ==>
        Status(r.error) == 400 && ErrorMessage(r.error) == "Missing required field: " + r.error.field
      ensures r.Failure? && !r.error.MissingField? ==>
        Status(r.error) == 500 && ErrorMessage(r.error) == "Something went wrong!"
      ensures Present(body.name) && Present(body.dueDate) && old(assignments) != [] ==>
        && r.Success?
        && r.value.id == old(assignments)[|old(assignments)| - 1].id + 1
        && r.value.name == body.name
        && r.value.dueDate == body.dueDate
        && r.value.submitted == Some(SubmittedOrFalse(body.submitted))
        && assignments == old(assignments) + [r.value]
        && persisted == assignments
      ensures IdsIncreasing(old(assignments)) ==> IdsIncreasing(assignments)
    {
      var missing := FirstMissingField(body);
      if missing.Some? {
        return Failure(MissingField(FieldName(missing.value)));
      }
      if assignments == [] {
        // `assignments[assignments.length - 1].id` throws on an empty store.
        return Failure(ServerError);
      }
      var lastId := assignments[|assignments| - 1].id;
      var created := Assignment(lastId + 1, body.name, body.dueDate, Some(SubmittedOrFalse(body.submitted)));
      AppendAfterLastKeepsIncreasing(assignments, created);
      assignments := assignments + [created];
      persisted := assignments;
      r := Success(created);
    }

    /** PUT /api/assignments/:id: overwrites all three data fields, merging nothing. */
    method Update(id: Num, body: Body) returns (r: Result<Assignment>)
      modifies this
      ensures persisted == old(persisted)
      ensures |assignments| == |old(assignments)|
      ensures FindIndex(old(assignments), id).None? ==> r == Failure(NotFound) && assignments == old(assignments)
      ensures r.Failure? ==> Status(r.error) == 404 && ErrorMessage(r.error) == "Assignment not found"
      ensures FindIndex(old(assignments), id).Some? ==>
        var i := FindIndex(old(assignments), id).value;
        && r == Success(assignments[i])
        && assignments[i].id == old(assignments)[i].id
        && assignments[i].name == body.name
        && assignments[i].dueDate == body.dueDate
        && assignments[i].submitted == body.submitted
        && forall j :: 0 <= j < |assignments| && j != i ==> assignments[j] == old(assignments)[j]
      ensures IdsIncreasing(old(assignments)) ==> IdsIncreasing(assignments)
    {
      var i := FindIndex(assignments, id);
      if i.None? {
        return Failure(NotFound);
      }
      var updated := Assignment(assignments[i.value].id, body.name, body.dueDate, body.submitted);
      assignments := assignments[i.value := updated];
      r := Success(updated);
    }

    /** DELETE /api/assignments/:id: `splice(index, 1)` at the first match. */
    method Delete(id: Num) returns (r: Result<()>)
      modifies this
      ensures persisted == old(persisted)
      ensures FindIndex(old(assignments), id).None? ==> r == Failure(NotFound) && assignments == old(assignments)
      ensures r.Failure? ==> Status(r.error) == 404 && ErrorMessage(r.error) == "Assignment not found"
      ensures FindIndex(old(assignments), id).Some? ==>
        var i := FindIndex(old(assignments), id).value;
        r == Success(()) && assignments == old(assignments)[..i] + old(assignments)[i + 1..]
      ensures IdsIncreasing(old(assignments)) ==> IdsIncreasing(assignments)
    {
      var i := FindIndex(assignments, id);
      if i.None? {
        return Failure(NotFound);
      }
      RemoveKeepsIncreasing(assignments, i.value);
      assignments := assignments[..i.value] + assignments[i.value + 1..];
      r := Success(());
    }
  }

  /** For page >= 1 and limit >= 0 the list route answers the window
      [(page - 1) * limit, page * limit) of the store, cut to its length. */
  lemma PageWindow(s: seq<Assignment>, page: int, limit: int)
    requires page >= 1 && limit >= 0
    ensures var start := (page - 1) * limit;
      var r := Page(s, Some(Int(page)), Some(Int(limit)));
      && 0 <= start
      && start + limit == page * limit
      && |r| <= limit
      && (start < |s| ==> r == s[start..Min(|s|, start + limit)])
      && (start >= |s| ==> r == [])
  {
  }

  /** A page number or a limit that is not a number selects nothing. */
  lemma PageOfNaN(s: seq<Assignment>, page: Option<Num>, limit: Option<Num>)
    requires page == Some(NaN) || limit == Some(NaN)
    ensures Page(s, page, limit) == []
  {
  }

  /** Page 0 is `slice(-limit, 0)`, which is empty. */
  lemma PageZeroIsEmpty(s: seq<Assignment>, limit: int)
    ensures Page(s, Some(Int(0)), Some(Int(limit))) == []
  {
  }

  /** With N records and a positive limit L, page ceil(N / L) + 1 is empty. */
  lemma PageAfterLastIsEmpty(s: seq<Assignment>, limit: int)
    requires limit >= 1
    ensures Page(s, Some(Int((|s| + limit - 1) / limit + 1)), Some(Int(limit))) == []
  {
  }

  /** Pages 1 to m concatenated; the list route's pages laid end to end. */
  ghost function Pages(s: seq<Assignment>, limit: nat, m: nat): seq<Assignment> {
    if m == 0 then [] else Pages(s, limit, m - 1) + Page(s, Some(Int(m)), Some(Int(limit)))
  }

  /** Consecutive pages tile the store: no record is skipped or repeated. */
  lemma {:induction false} PagesTile(s: seq<Assignment>, limit: nat, m: nat)
    ensures Pages(s, limit, m) == s[..Min(|s|, m * limit)]
  {
    if m > 0 {
      var start := (m - 1) * limit;
      var end := start + limit;
      PagesTile(s, limit, m - 1);
      PageWindow(s, m, limit);
      assert end == m * limit;
      var page := Page(s, Some(Int(m)), Some(Int(limit)));
      assert Pages(s, limit, m) == s[..Min(|s|, start)] + page;
      if start < |s| {
        assert page == s[start..Min(|s|, end)];
        assert s[..start] + s[start..Min(|s|, end)] == s[..Min(|s|, end)];
      } else {
        assert page == [];
      }
    }
  }

  /** Appending a record whose id is one more than the last keeps ids increasing. */
  lemma AppendAfterLastKeepsIncreasing(s: seq<Assignment>, a: Assignment)
    requires s != [] && a.id == s[|s| - 1].id + 1
    ensures IdsIncreasing(s) ==> IdsIncreasing(s + [a])
  {
  }

  /** Removing one record keeps ids increasing. */
  lemma RemoveKeepsIncreasing(s: seq<Assignment>, i: nat)
    requires i < |s|
    ensures IdsIncreasing(s) ==> IdsIncreasing(s[..i] + s[i + 1..])
  {
  }

  /** Increasing ids are unique. */
  lemma IncreasingIdsAreUnique(s: seq<Assignment>)
    requires IdsIncreasing(s)
    ensures IdsUnique(s)
  {
  }

  /** When ids are unique, delete removes the only record with that id, so a second
      delete of the same id answers NotFound. */
  lemma DeletedIdIsGone(s: seq<Assignment>, id: int)
    requires IdsUnique(s)
    requires FindIndex(s, Int(id)).Some?
    ensures var i := FindIndex(s, Int(id)).value;
      FindIndex(s[..i] + s[i + 1..], Int(id)) == None
  {
  }
}
