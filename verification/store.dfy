/**
 The in-memory store of the issue tracker: a sequence of projects, each an
 ordered sequence of issues, together with the two linear lookups every
 handler starts from (project by name, issue by id string) and the
 invariants the handlers maintain.
 */
module IssueStore {
  import opened Values

  /** An issue is a plain record whose keys are field names; an update may
      add arbitrary keys, so it is a map rather than a fixed datatype. */
  type Issue = map<string, Value>

  /** A parsed request body (`req.body`). */
  type Body = map<string, Value>

  /** A parsed query string (`req.query`). */
  type Query = map<string, string>

  /** The `Project` constructor: a name and its issues in insertion order. */
  datatype Project = Project(name: string, issues: seq<Issue>)

  type Store = seq<Project>

  const IdField := "_id"
  const TitleField := "issue_title"
  const TextField := "issue_text"
  const CreatedOnField := "created_on"
  const UpdatedOnField := "updated_on"
  const CreatedByField := "created_by"
  const AssignedToField := "assigned_to"
  const OpenField := "open"
  const StatusTextField := "status_text"

  /** `issue._id.toString()` does not throw. */
  predicate HasId(issue: Issue) {
    IdField in issue && Renders(issue[IdField])
  }

  /** The string an issue is matched by in update and delete. */
  function IdKey(issue: Issue): string
    requires HasId(issue)
  {
    ToStr(issue[IdField])
  }

  predicate AllHaveIds(issues: seq<Issue>) {
    forall i | 0 <= i < |issues| :: HasId(issues[i])
  }

  predicate IdsPresent(store: Store) {
    forall p | 0 <= p < |store| :: AllHaveIds(store[p].issues)
  }

  /** Within one project no two issues share an id string. */
  predicate ValidIssues(issues: seq<Issue>) {
    && AllHaveIds(issues)
    && forall i, j | 0 <= i < j < |issues| :: IdKey(issues[i]) != IdKey(issues[j])
  }

  /** No two projects share a name. */
  predicate UniqueNames(store: Store) {
    forall p, q | 0 <= p < q < |store| :: store[p].name != store[q].name
  }

  /** The store invariant the four handlers maintain. */
  predicate Valid(store: Store) {
    && UniqueNames(store)
    && forall p | 0 <= p < |store| :: ValidIssues(store[p].issues)
  }

  /** `freshId` is not the id string of any stored issue, as a newly
      generated object id never is. */
  predicate FreshId(store: Store, freshId: string)
    requires IdsPresent(store)
  {
    forall p, i | 0 <= p < |store| && 0 <= i < |store[p].issues| ::
      IdKey(store[p].issues[i]) != freshId
  }

  /** `projects.find(p => p.projectName === name)`: the position of the
      first project with that name. */
  function FindProject(store: Store, name: string): (r: Option<nat>)
    ensures r.Some? ==> r.value < |store| && store[r.value].name == name
    ensures r.Some? ==> forall q | 0 <= q < r.value :: store[q].name != name
    ensures r.None? ==> forall q | 0 <= q < |store| :: store[q].name != name
  {
    if |store| == 0 then None
    else if store[0].name == name then Some(0)
    else match FindProject(store[1..], name)
      case None => None
      case Some(k) => Some(k + 1)
  }

  /** The position of the first issue whose id string is `key`. */
  function FindIssue(issues: seq<Issue>, key: string): (r: Option<nat>)
    requires AllHaveIds(issues)
    ensures r.Some? ==> r.value < |issues| && IdKey(issues[r.value]) == key
    ensures r.Some? ==> forall j | 0 <= j < r.value :: IdKey(issues[j]) != key
    ensures r.None? ==> forall j | 0 <= j < |issues| :: IdKey(issues[j]) != key
  {
    if |issues| == 0 then None
    else if IdKey(issues[0]) == key then Some(0)
    else match FindIssue(issues[1..], key)
      case None => None
      case Some(k) => Some(k + 1)
  }

  /** The index loop of the delete handler: scan from the front and stop at
      the first issue whose id string is `key`. It finds what `FindIssue`
      describes. */
  method ScanForId(issues: seq<Issue>, key: string) returns (index: Option<nat>)
    requires AllHaveIds(issues)
    ensures index.Some? ==> index.value < |issues| && IdKey(issues[index.value]) == key
    ensures index.Some? ==> forall j | 0 <= j < index.value :: IdKey(issues[j]) != key
    ensures index.None? ==> forall j | 0 <= j < |issues| :: IdKey(issues[j]) != key
    ensures index == FindIssue(issues, key)
  {
    var i := 0;
    while i < |issues|
      invariant 0 <= i <= |issues|
      invariant forall j | 0 <= j < i :: IdKey(issues[j]) != key
    {
      if IdKey(issues[i]) == key {
        return Some(i);
      }
      i := i + 1;
    }
    return None;
  }

  /** Under unique names the first project with a name is the only one. */
  lemma FindProjectUnique(store: Store, name: string, p: nat)
    requires UniqueNames(store)
    requires p < |store|
    ensures FindProject(store, name) == Some(p) <==> store[p].name == name
  {
  }

  /** `issues[i]` is the first issue whose id string is `key`. */
  ghost predicate FirstWithId(issues: seq<Issue>, i: nat, key: string)
    requires AllHaveIds(issues)
  {
    && i < |issues|
    && IdKey(issues[i]) == key
    && forall j | 0 <= j < i :: IdKey(issues[j]) != key
  }

  /** No issue of a project called `project` has id string `key`
      (vacuously so when there is no such project). */
  ghost predicate NoIssueWithId(store: Store, project: string, key: string)
    requires IdsPresent(store)
  {
    forall p, i | 0 <= p < |store| && 0 <= i < |store[p].issues| && store[p].name == project ::
      IdKey(store[p].issues[i]) != key
  }

  /** No project called `project` holds an issue, so a lookup by id in it
      never compares against a stored id. */
  ghost predicate NoIssuesIn(store: Store, project: string) {
    forall p | 0 <= p < |store| && store[p].name == project :: |store[p].issues| == 0
  }

  /** The first issue with an id string is the one `FindIssue` finds. */
  lemma FindIssueFirst(issues: seq<Issue>, key: string, i: nat)
    requires AllHaveIds(issues)
    requires FirstWithId(issues, i, key)
    ensures FindIssue(issues, key) == Some(i)
  {
  }
}
