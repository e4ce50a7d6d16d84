/**
 The four request handlers of `/api/issues/:project` as pure state
 transformers: each takes the store and returns the JSON response together
 with the store after the request. The fresh object id and the current time
 are parameters; a request that would make the handler throw yields `Fault`
 and leaves the store as it was (no handler mutates before it could throw).
 */
module Handlers {
  import opened Values
  import opened IssueStore

  const MissingFields := "required field(s) missing"
  const MissingId := "missing _id"
  const NoUpdateFields := "no update field(s) sent"
  const CouldNotUpdate := "could not update"
  const CouldNotDelete := "could not delete"
  const Updated := "successfully updated"
  const Deleted := "successfully deleted"

  /** The JSON payload shapes the handlers send. */
  datatype Response =
    | Created(issue: Issue)                  // the new issue object
    | Issues(issues: seq<Issue>)             // an array of issues
    | Ok(result: string, id: Value)          // { result, _id }
    | Err(error: string, errId: Option<Value>) // { error } or { error, _id }
    | Fault                                  // an uncaught TypeError

  datatype Request =
    | Get(project: string, query: Query)
    | Post(project: string, body: Body)
    | Put(project: string, body: Body)
    | Remove(project: string, body: Body)

  // ---------------------------------------------------------------- create

  /** `req.body.k != undefined`: present and not null. */
  predicate Present(body: Body, k: string) {
    k in body && body[k] != Null
  }

  predicate HasRequired(body: Body) {
    Present(body, TitleField) && Present(body, TextField) && Present(body, CreatedByField)
  }

  /** `req.body.k ? req.body.k : ''` */
  function OrEmpty(body: Body, k: string): Value {
    if k in body && Truthy(body[k]) then body[k] else Str("")
  }

  /** The issue object the create handler builds. */
  function NewIssue(body: Body, freshId: string, now: nat): (issue: Issue)
    requires HasRequired(body)
    ensures issue.Keys == {IdField, TitleField, TextField, CreatedOnField, UpdatedOnField,
                           CreatedByField, AssignedToField, OpenField, StatusTextField}
    ensures HasId(issue) && IdKey(issue) == freshId
  {
    map[IdField := Str(freshId),
        TitleField := body[TitleField],
        TextField := body[TextField],
        CreatedOnField := Time(now),
        UpdatedOnField := Time(now),
        CreatedByField := body[CreatedByField],
        AssignedToField := OrEmpty(body, AssignedToField),
        OpenField := Bool(true),
        StatusTextField := OrEmpty(body, StatusTextField)]
  }

  /** POST: validate the required fields, then append the new issue to the
      named project, creating the project when no project has that name. */
  function Create(store: Store, project: string, body: Body, freshId: string, now: nat)
    : (r: (Response, Store))
    ensures r.0.Created? <==> HasRequired(body)
    ensures !HasRequired(body) ==> r.1 == store
    ensures r.0.Created? ==> IdField in r.0.issue && r.0.issue[IdField] == Str(freshId)
  {
    if HasRequired(body) then
      var issue := NewIssue(body, freshId, now);
      match FindProject(store, project)
      case Some(p) =>
        (Created(issue), store[p := store[p].(issues := store[p].issues + [issue])])
      case None =>
        (Created(issue), store + [Project(project, [issue])])
    else
      (Err(MissingFields, None), store)
  }

  // ------------------------------------------------------------------ list

  /** `issue[q].toString()` does not throw for any query key `q`. */
  predicate Filterable(issue: Issue, query: Query) {
    forall q | q in query :: q in issue && Renders(issue[q])
  }

  /** Every query key's stringified field equals the query value. */
  predicate Matches(issue: Issue, query: Query) {
    forall q | q in query :: q in issue && Renders(issue[q]) && ToStr(issue[q]) == query[q]
  }

  /** `issues.filter(...)`: the matching issues, in order. */
  function Filter(issues: seq<Issue>, query: Query): (r: seq<Issue>)
    ensures |r| <= |issues|
    ensures forall j | 0 <= j < |r| :: r[j] in issues && Matches(r[j], query)
    ensures forall i | 0 <= i < |issues| :: Matches(issues[i], query) ==> issues[i] in r
  {
    if |issues| == 0 then []
    else (if Matches(issues[0], query) then [issues[0]] else []) + Filter(issues[1..], query)
  }

  /** GET: the named project's issues that match every query filter. An
      unknown project, or a query key that some issue lacks or holds `null`
      for, makes the handler throw. */
  function List(store: Store, project: string, query: Query): (r: Response)
    ensures r.Issues? || r.Fault?
    ensures r.Fault? <==> (FindProject(store, project).None? ||
                           exists i | 0 <= i < |store[FindProject(store, project).value].issues| ::
                             !Filterable(store[FindProject(store, project).value].issues[i], query))
  {
    match FindProject(store, project)
    case None => Fault
    case Some(p) =>
      if forall i | 0 <= i < |store[p].issues| :: Filterable(store[p].issues[i], query)
      then Issues(Filter(store[p].issues, query))
      else Fault
  }

  // ------------------------------------------------------ update and delete

  /** Where the id lookup shared by update and delete lands. `Crash` is a
      `null` submitted `_id`, whose `toString()` throws as soon as the named
      project has an issue to compare against. */
  datatype Lookup = Miss | Crash | Hit(project: nat, index: nat)

  function Locate(store: Store, project: string, body: Body): (r: Lookup)
    requires IdsPresent(store)
    ensures r.Hit? ==> r.project < |store| && r.index < |store[r.project].issues|
    ensures r.Hit? ==> IdField in body && Renders(body[IdField])
    ensures r.Hit? ==> FindProject(store, project) == Some(r.project)
    ensures r.Hit? ==> FindIssue(store[r.project].issues, ToStr(body[IdField])) == Some(r.index)
    ensures r.Crash? <==> (IdField in body && body[IdField].Null? &&
                           FindProject(store, project).Some? &&
                           |store[FindProject(store, project).value].issues| > 0)
  {
    match FindProject(store, project)
    case None => Miss
    case Some(p) =>
      if IdField !in body || |store[p].issues| == 0 then Miss
      else if body[IdField].Null? then Crash
      else match FindIssue(store[p].issues, ToStr(body[IdField]))
        case None => Miss
        case Some(i) => Hit(p, i)
  }

  /** The update loop `for (k in updateData) if (issue[k] != updateData[k])
      issue[k] = updateData[k]`, followed by the `updated_on` stamp. */
  function Apply(issue: Issue, body: Body, now: nat): (r: Issue)
    ensures r.Keys == issue.Keys + (set k | k in body && body[k] != Null) + {UpdatedOnField}
    ensures r[UpdatedOnField] == Time(now)
    ensures forall k | k in body && k != UpdatedOnField && k in r :: r[k] == body[k]
    ensures forall k | k in issue && k !in body && k != UpdatedOnField :: r[k] == issue[k]
  {
    var merged := map k | k in issue.Keys + body.Keys && (k in issue || body[k] != Null) ::
      if k in body && !LooselyEqual(if k in issue then issue[k] else Null, body[k])
      then body[k] else issue[k];
    merged[UpdatedOnField := Time(now)]
  }

  /** PUT: error checks in source order, then the in-place update of the
      first issue with the submitted id. */
  function Update(store: Store, project: string, body: Body, now: nat): (r: (Response, Store))
    requires IdsPresent(store)
    ensures !r.0.Ok? ==> r.1 == store
    ensures |r.1| == |store|
  {
    var found := Locate(store, project, body);
    if found.Crash? then (Fault, store)
    else if IdField !in body then (Err(MissingId, None), store)
    else if |body| < 2 then (Err(NoUpdateFields, Some(body[IdField])), store)
    else if found.Hit? then
      var p := found.project;
      var issue := Apply(store[p].issues[found.index], body, now);
      (Ok(Updated, issue[IdField]),
       store[p := store[p].(issues := store[p].issues[found.index := issue])])
    else (Err(CouldNotUpdate, Some(body[IdField])), store)
  }

  /** DELETE: error checks in source order, then `splice(index, 1)` of the
      first issue with the submitted id. */
  function Delete(store: Store, project: string, body: Body): (r: (Response, Store))
    requires IdsPresent(store)
    ensures !r.0.Ok? ==> r.1 == store
    ensures |r.1| == |store|
  {
    var found := Locate(store, project, body);
    if found.Crash? then (Fault, store)
    else if IdField !in body then (Err(MissingId, None), store)
    else if found.Hit? then
      var p := found.project;
      var issues := store[p].issues;
      (Ok(Deleted, body[IdField]),
       store[p := store[p].(issues := issues[..found.index] + issues[found.index + 1..])])
    else (Err(CouldNotDelete, Some(body[IdField])), store)
  }

  /** The route: dispatch one request on its method. */
  function Handle(store: Store, request: Request, freshId: string, now: nat): (r: (Response, Store))
    requires IdsPresent(store)
    ensures request.Get? ==> r.1 == store
  {
    match request
    case Get(project, query) => (List(store, project, query), store)
    case Post(project, body) => Create(store, project, body, freshId, now)
    case Put(project, body) => Update(store, project, body, now)
    case Remove(project, body) => Delete(store, project, body)
  }
}
