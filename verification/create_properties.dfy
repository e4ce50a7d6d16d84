/**
 Properties of the create handler: validation, the shape of a new issue,
 where it is stored, what stays untouched, and that a created issue is
 found again by its id.
 */
module CreateProperties {
  import opened Values
  import opened IssueStore
  import opened Handlers
  import opened ListProperties

  /** A missing (undefined or null) required field is reported and nothing
      is stored; an empty string counts as present. */
  lemma CreateRejectsMissing(store: Store, project: string, body: Body, freshId: string, now: nat)
    requires !Present(body, TitleField) || !Present(body, TextField) || !Present(body, CreatedByField)
    ensures Create(store, project, body, freshId, now) == (Err(MissingFields, None), store)
  {
  }

  /** The new issue carries the fresh id, is open, is stamped with the
      current time twice, copies the three required fields and defaults a
      missing or falsy optional field to the empty string. */
  lemma CreatedIssueShape(store: Store, project: string, body: Body, freshId: string, now: nat)
    requires HasRequired(body)
    ensures Create(store, project, body, freshId, now).0.Created?
    ensures var issue := Create(store, project, body, freshId, now).0.issue;
      && issue[IdField] == Str(freshId)
      && issue[OpenField] == Bool(true)
      && issue[CreatedOnField] == Time(now) && issue[UpdatedOnField] == Time(now)
      && issue[TitleField] == body[TitleField]
      && issue[TextField] == body[TextField]
      && issue[CreatedByField] == body[CreatedByField]
      && (AssignedToField !in body || !Truthy(body[AssignedToField]) ==> issue[AssignedToField] == Str(""))
      && (AssignedToField in body && Truthy(body[AssignedToField]) ==> issue[AssignedToField] == body[AssignedToField])
      && (StatusTextField !in body || !Truthy(body[StatusTextField]) ==> issue[StatusTextField] == Str(""))
      && (StatusTextField in body && Truthy(body[StatusTextField]) ==> issue[StatusTextField] == body[StatusTextField])
  {
  }

  /** Posting to an existing project appends exactly the returned issue at
      the end of its sequence and changes no other project. */
  lemma CreateAppends(store: Store, project: string, body: Body, freshId: string, now: nat, p: nat)
    requires UniqueNames(store)
    requires HasRequired(body)
    requires p < |store| && store[p].name == project
    ensures var (resp, store') := Create(store, project, body, freshId, now);
      && resp.Created?
      && |store'| == |store|
      && store'[p] == Project(project, store[p].issues + [resp.issue])
      && forall q | 0 <= q < |store| && q != p :: store'[q] == store[q]
  {
    FindProjectUnique(store, project, p);
  }

  /** Posting to an unknown project adds one project holding just the
      returned issue, after all existing ones. */
  lemma CreateAddsProject(store: Store, project: string, body: Body, freshId: string, now: nat)
    requires HasRequired(body)
    requires forall q | 0 <= q < |store| :: store[q].name != project
    ensures var (resp, store') := Create(store, project, body, freshId, now);
      && resp.Created?
      && store' == store + [Project(project, [resp.issue])]
  {
  }

  /** Create keeps the store invariant: names stay unique because a project
      is only added when none has the name, and ids stay unique and present
      because the generated id is fresh. */
  lemma CreatePreservesValid(store: Store, project: string, body: Body, freshId: string, now: nat)
    requires Valid(store)
    requires FreshId(store, freshId)
    ensures Valid(Create(store, project, body, freshId, now).1)
  {
    var (resp, store') := Create(store, project, body, freshId, now);
    if HasRequired(body) {
      var issue := NewIssue(body, freshId, now);
      match FindProject(store, project)
      case Some(p) =>
        var issues' := store[p].issues + [issue];
        assert store'[p].issues == issues';
        assert forall i | 0 <= i < |store[p].issues| :: issues'[i] == store[p].issues[i];
        assert ValidIssues(issues');
      case None =>
        assert store'[|store|].issues == [issue];
    }
  }

  /** Listing the project filtered by the fresh id right after a
      successful create returns exactly the created issue. */
  lemma CreateThenListById(store: Store, project: string, body: Body, freshId: string, now: nat)
    requires Valid(store)
    requires FreshId(store, freshId)
    requires HasRequired(body)
    ensures var (resp, store') := Create(store, project, body, freshId, now);
      List(store', project, map[IdField := freshId]) == Issues([resp.issue])
  {
    var (resp, store') := Create(store, project, body, freshId, now);
    var issue := resp.issue;
    var query := map[IdField := freshId];
    CreatePreservesValid(store, project, body, freshId, now);
    var before: seq<Issue> := match FindProject(store, project)
      case Some(p) => store[p].issues
      case None => [];
    var p' := match FindProject(store, project)
      case Some(p) => p
      case None => |store|;
    assert store'[p'].name == project;
    FindProjectUnique(store', project, p');
    assert store'[p'].issues == before + [issue];
    assert forall i | 0 <= i < |before| :: !Matches(before[i], query);
    FilterNone(before, query);
    FilterAppend(before, issue, query);
    assert Matches(issue, query);
  }
}
