/**
 Properties of the delete handler: its two errors in order, the exact
 removal a successful delete performs, that it keeps the store invariant,
 and that a deleted id is gone for good.
 */
module DeleteProperties {
  import opened Values
  import opened IssueStore
  import opened Handlers

  /** First check: a body without `_id` is refused. */
  lemma DeleteMissingId(store: Store, project: string, body: Body)
    requires IdsPresent(store)
    requires IdField !in body
    ensures Delete(store, project, body) == (Err(MissingId, None), store)
  {
  }

  /** Second check: an id no issue of the project has, or an unknown
      project, is refused, echoes the id and removes nothing; so is a
      `null` id when there is no issue to compare it against. */
  lemma DeleteNotFound(store: Store, project: string, body: Body)
    requires IdsPresent(store)
    requires IdField in body
    requires Renders(body[IdField]) ==> NoIssueWithId(store, project, ToStr(body[IdField]))
    requires !Renders(body[IdField]) ==> NoIssuesIn(store, project)
    ensures Delete(store, project, body) == (Err(CouldNotDelete, Some(body[IdField])), store)
  {
    match FindProject(store, project)
    case None =>
    case Some(p) =>
      if |store[p].issues| > 0 && Renders(body[IdField]) {
        assert FindIssue(store[p].issues, ToStr(body[IdField])).None?;
      }
  }

  /** A `null` id makes the index loop throw as soon as the project has
      an issue. */
  lemma DeleteNullIdFaults(store: Store, project: string, body: Body, p: nat)
    requires IdsPresent(store) && UniqueNames(store)
    requires p < |store| && store[p].name == project && |store[p].issues| > 0
    requires IdField in body && body[IdField] == Null
    ensures Delete(store, project, body) == (Fault, store)
  {
    FindProjectUnique(store, project, p);
  }

  /** A successful delete removes exactly the first issue with the id,
      keeps the others in order, shrinks the project by one and leaves
      every other project alone. */
  lemma DeleteSuccess(store: Store, project: string, body: Body, p: nat, i: nat)
    requires IdsPresent(store) && UniqueNames(store)
    requires p < |store| && store[p].name == project
    requires IdField in body && Renders(body[IdField])
    requires FirstWithId(store[p].issues, i, ToStr(body[IdField]))
    ensures var (resp, store') := Delete(store, project, body);
      var issues := store[p].issues;
      && resp == Ok(Deleted, body[IdField])
      && |store'| == |store|
      && (forall q | 0 <= q < |store| && q != p :: store'[q] == store[q])
      && store'[p].name == project
      && |store'[p].issues| == |issues| - 1
      && (forall j | 0 <= j < i :: store'[p].issues[j] == issues[j])
      && (forall j | i < j < |issues| :: store'[p].issues[j - 1] == issues[j])
  {
    FindProjectUnique(store, project, p);
    FindIssueFirst(store[p].issues, ToStr(body[IdField]), i);
  }

  /** Delete keeps the store invariant. */
  lemma DeletePreservesValid(store: Store, project: string, body: Body)
    requires Valid(store)
    ensures Valid(Delete(store, project, body).1)
  {
    var found := Locate(store, project, body);
    if !found.Crash? && IdField in body && found.Hit? {
      var p, i := found.project, found.index;
      var issues := store[p].issues;
      var issues' := issues[..i] + issues[i + 1..];
      assert forall j | 0 <= j < |issues'| :: issues'[j] == issues[if j < i then j else j + 1];
      assert ValidIssues(issues');
      assert Delete(store, project, body).1 == store[p := store[p].(issues := issues')];
    }
  }

  /** Removing the issue with a unique id string leaves no issue with it. */
  lemma RemovalDropsId(issues: seq<Issue>, i: nat, key: string, rest: seq<Issue>)
    requires ValidIssues(issues)
    requires i < |issues| && IdKey(issues[i]) == key
    requires rest == issues[..i] + issues[i + 1..]
    ensures AllHaveIds(rest)
    ensures forall j | 0 <= j < |rest| :: IdKey(rest[j]) != key
  {
    forall j | 0 <= j < |rest|
      ensures HasId(rest[j]) && IdKey(rest[j]) != key
    {
      if j < i {
        assert rest[j] == issues[j];
      } else {
        assert rest[j] == issues[j + 1];
      }
    }
  }

  /** After a successful delete no issue of the project has the id. */
  lemma DeleteRemovesId(store: Store, project: string, body: Body)
    requires Valid(store)
    requires IdField in body && Renders(body[IdField])
    requires Delete(store, project, body).0.Ok?
    ensures IdsPresent(Delete(store, project, body).1)
    ensures NoIssueWithId(Delete(store, project, body).1, project, ToStr(body[IdField]))
  {
    var found := Locate(store, project, body);
    var p, i := found.project, found.index;
    var key := ToStr(body[IdField]);
    var store' := Delete(store, project, body).1;
    DeletePreservesValid(store, project, body);
    assert store'[p].issues == store[p].issues[..i] + store[p].issues[i + 1..];
    RemovalDropsId(store[p].issues, i, key, store'[p].issues);
    forall q | 0 <= q < |store'| && store'[q].name == project
      ensures q == p
    {
      FindProjectUnique(store, project, q);
    }
  }

  /** Once deleted, an id is gone from its project: a second delete of the
      same id reports "could not delete" and changes nothing. */
  lemma DeleteTwice(store: Store, project: string, body: Body)
    requires Valid(store)
    requires IdField in body && Renders(body[IdField])
    requires Delete(store, project, body).0.Ok?
    ensures var store' := Delete(store, project, body).1;
      Delete(store', project, body) == (Err(CouldNotDelete, Some(body[IdField])), store')
  {
    DeleteRemovesId(store, project, body);
    DeleteNotFound(Delete(store, project, body).1, project, body);
  }
}
