/**
 Properties of the update handler: the order in which its three errors are
 reported, what a successful update changes and what it leaves alone, and
 that it keeps the store invariant.
 */
module UpdateProperties {
  import opened Values
  import opened IssueStore
  import opened Handlers

  /** First check: a body without `_id` is refused, whatever else it holds. */
  lemma UpdateMissingId(store: Store, project: string, body: Body, now: nat)
    requires IdsPresent(store)
    requires IdField !in body
    ensures Update(store, project, body, now) == (Err(MissingId, None), store)
  {
  }

  /** Second check: an `_id` with nothing to update is refused and echoes
      the submitted id, `null` included, unless a `null` id has already
      made the lookup throw. */
  lemma UpdateNoFields(store: Store, project: string, body: Body, now: nat)
    requires IdsPresent(store)
    requires IdField in body && (Renders(body[IdField]) || NoIssuesIn(store, project))
    requires |body| < 2
    ensures Update(store, project, body, now) == (Err(NoUpdateFields, Some(body[IdField])), store)
  {
  }

  /** Third check: an id that no issue of the project has, or a project
      that does not exist, is refused and echoes the submitted id; so is a
      `null` id when there is no issue to compare it against. */
  lemma UpdateNotFound(store: Store, project: string, body: Body, now: nat)
    requires IdsPresent(store)
    requires IdField in body && |body| >= 2
    requires Renders(body[IdField]) ==> NoIssueWithId(store, project, ToStr(body[IdField]))
    requires !Renders(body[IdField]) ==> NoIssuesIn(store, project)
    ensures Update(store, project, body, now) == (Err(CouldNotUpdate, Some(body[IdField])), store)
  {
    match FindProject(store, project)
    case None =>
    case Some(p) =>
      if |store[p].issues| > 0 && Renders(body[IdField]) {
        assert FindIssue(store[p].issues, ToStr(body[IdField])).None?;
      }
  }

  /** A `null` id makes the lookup throw as soon as the project has an
      issue, which pre-empts even the "no update field(s) sent" check. */
  lemma UpdateNullIdFaults(store: Store, project: string, body: Body, now: nat, p: nat)
    requires IdsPresent(store) && UniqueNames(store)
    requires p < |store| && store[p].name == project && |store[p].issues| > 0
    requires IdField in body && body[IdField] == Null
    ensures Update(store, project, body, now) == (Fault, store)
  {
    FindProjectUnique(store, project, p);
  }

  /** A successful update rewrites only the first issue with the submitted
      id: each submitted field then holds the submitted value (a `null` for
      a field the issue lacks adds nothing), `updated_on` is the current
      time, every other field, issue and project is as before, and the
      response echoes the id. */
  lemma UpdateSuccess(store: Store, project: string, body: Body, now: nat, p: nat, i: nat)
    requires IdsPresent(store) && UniqueNames(store)
    requires p < |store| && store[p].name == project
    requires IdField in body && Renders(body[IdField]) && |body| >= 2
    requires FirstWithId(store[p].issues, i, ToStr(body[IdField]))
    ensures var (resp, store') := Update(store, project, body, now);
      var issue := store[p].issues[i];
      var issue' := store'[p].issues[i];
      && resp == Ok(Updated, body[IdField])
      && |store'| == |store|
      && (forall q | 0 <= q < |store| && q != p :: store'[q] == store[q])
      && store'[p].name == project
      && |store'[p].issues| == |store[p].issues|
      && (forall j | 0 <= j < |store[p].issues| && j != i :: store'[p].issues[j] == store[p].issues[j])
      && issue'[UpdatedOnField] == Time(now)
      && (forall k | k in body && k != UpdatedOnField && (k in issue || body[k] != Null) ::
            k in issue' && issue'[k] == body[k])
      && (forall k | k in issue && k !in body && k != UpdatedOnField :: issue'[k] == issue[k])
      && issue'.Keys == issue.Keys + (set k | k in body && body[k] != Null) + {UpdatedOnField}
  {
    FindProjectUnique(store, project, p);
    FindIssueFirst(store[p].issues, ToStr(body[IdField]), i);
  }

  /** Applying an update keeps the id string the issue is found by. */
  lemma ApplyKeepsId(issue: Issue, body: Body, now: nat)
    requires HasId(issue)
    requires IdField in body && Renders(body[IdField]) && ToStr(body[IdField]) == IdKey(issue)
    ensures HasId(Apply(issue, body, now)) && IdKey(Apply(issue, body, now)) == IdKey(issue)
  {
  }

  /** Update keeps the store invariant. */
  lemma UpdatePreservesValid(store: Store, project: string, body: Body, now: nat)
    requires Valid(store)
    ensures Valid(Update(store, project, body, now).1)
  {
    var found := Locate(store, project, body);
    if !found.Crash? && IdField in body && |body| >= 2 && found.Hit? {
      var p, i := found.project, found.index;
      var issues := store[p].issues;
      ApplyKeepsId(issues[i], body, now);
      var issues' := issues[i := Apply(issues[i], body, now)];
      assert forall j | 0 <= j < |issues| :: HasId(issues'[j]) && IdKey(issues'[j]) == IdKey(issues[j]);
      assert ValidIssues(issues');
      assert Update(store, project, body, now).1 == store[p := store[p].(issues := issues')];
    }
  }
}
