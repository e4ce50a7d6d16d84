/**
 The route as a whole: every request keeps the store invariant, and the
 request sequence of the functional tests (three creates, an unfiltered and
 two filtered views, the updates and the deletes, with the tests' own
 values) gets the replies those tests expect.
 */
module Routes {
  import opened Values
  import opened IssueStore
  import opened Handlers
  import opened ListProperties
  import CreateProperties
  import UpdateProperties
  import DeleteProperties

  /** Whatever request arrives, the store stays valid, provided a create
      is given an id that is not yet in use. A listing never changes it. */
  lemma HandlePreservesValid(store: Store, request: Request, freshId: string, now: nat)
    requires Valid(store)
    requires request.Post? ==> FreshId(store, freshId)
    ensures Valid(Handle(store, request, freshId, now).1)
    ensures request.Get? ==> Handle(store, request, freshId, now).1 == store
  {
    match request
    case Get(_, _) =>
    case Post(project, body) => CreateProperties.CreatePreservesValid(store, project, body, freshId, now);
    case Put(project, body) => UpdateProperties.UpdatePreservesValid(store, project, body, now);
    case Remove(project, body) => DeleteProperties.DeletePreservesValid(store, project, body);
  }

  /** The body of the "Create an issue with every field" test. */
  function FullPost(): Body {
    map[TitleField := Str("Fix error in posting data"),
        TextField := Str("When we post data it has an error."),
        CreatedByField := Str("Joe"),
        AssignedToField := Str("Joe"),
        StatusTextField := Str("In QA")]
  }

  /** The body of the "Create an issue with only required fields" test. */
  function RequiredPost(): Body {
    map[TitleField := Str("Fix error in posting data"),
        TextField := Str("When we post data it has an error."),
        CreatedByField := Str("Win")]
  }

  /** The body of the "Update one field on an issue" test. */
  function TitlePut(id: string): Body {
    map[IdField := Str(id), TitleField := Str("Updated title")]
  }

  /** The first create of the functional tests, on an empty store: the
      project "test" is created holding the new issue, which keeps the
      optional fields it was sent and starts open. */
  lemma TestPostFull(idA: string, t0: nat)
    ensures var a := NewIssue(FullPost(), idA, t0);
      Handle([], Post("test", FullPost()), idA, t0) == (Created(a), [Project("test", [a])])
    ensures var a := NewIssue(FullPost(), idA, t0);
      && a[TitleField] == Str("Fix error in posting data")
      && a[CreatedByField] == Str("Joe") && a[AssignedToField] == Str("Joe")
      && a[StatusTextField] == Str("In QA") && a[OpenField] == Bool(true)
  {
    var a := NewIssue(FullPost(), idA, t0);
    assert HasRequired(FullPost());
    assert FindProject([], "test") == None;
    assert [] + [Project("test", [a])] == [Project("test", [a])];
  }

  /** The second create: the issue sent with only the required fields is
      appended after the first, with both optional fields defaulted to the
      empty string. */
  lemma TestPostRequired(a: Issue, idB: string, t1: nat)
    requires HasId(a)
    ensures var b := NewIssue(RequiredPost(), idB, t1);
      Handle([Project("test", [a])], Post("test", RequiredPost()), idB, t1)
      == (Created(b), [Project("test", [a, b])])
    ensures var b := NewIssue(RequiredPost(), idB, t1);
      && b[CreatedByField] == Str("Win") && b[OpenField] == Bool(true)
      && b[AssignedToField] == Str("") && b[StatusTextField] == Str("")
  {
    var b := NewIssue(RequiredPost(), idB, t1);
    var store := [Project("test", [a])];
    assert HasRequired(RequiredPost());
    assert FindProject(store, "test") == Some(0);
    assert [a] + [b] == [a, b];
    assert store[0 := Project("test", [a, b])] == [Project("test", [a, b])];
  }

  /** The body of the "Create an issue with missing required fields"
      test: everything but `issue_text`. */
  function MissingTextPost(): Body {
    map[TitleField := Str("Fix error in posting data"),
        CreatedByField := Str("Joe"),
        AssignedToField := Str("Joe"),
        StatusTextField := Str("In QA")]
  }

  /** The third create test: a body without `issue_text` is refused with
      "required field(s) missing" and the two stored issues stay as they
      are. */
  lemma TestPostMissing(a: Issue, b: Issue, id: string, t: nat)
    requires HasId(a) && HasId(b)
    ensures Handle([Project("test", [a, b])], Post("test", MissingTextPost()), id, t)
            == (Err(MissingFields, None), [Project("test", [a, b])])
  {
    assert TextField !in MissingTextPost();
    CreateProperties.CreateRejectsMissing([Project("test", [a, b])], "test", MissingTextPost(), id, t);
  }

  /** The unfiltered view test: with no query both issues come back, in
      creation order. */
  lemma TestListAll(a: Issue, b: Issue)
    ensures List([Project("test", [a, b])], "test", map[]) == Issues([a, b])
  {
    ListNoFilters([Project("test", [a, b])], "test", 0);
  }

  /** The first filter test: `open=true` returns both open issues, in
      creation order. */
  lemma TestFilterOpen(a: Issue, b: Issue)
    requires OpenField in a && a[OpenField] == Bool(true)
    requires OpenField in b && b[OpenField] == Bool(true)
    ensures List([Project("test", [a, b])], "test", map[OpenField := "true"]) == Issues([a, b])
  {
    var open := map[OpenField := "true"];
    assert Matches(a, open) && Matches(b, open);
    FilterAll([a, b], open);
    assert [a, b][0] == a && [a, b][1] == b;
  }

  /** The second filter test: `open=true&created_by=Win` returns only the
      issue Win created. */
  lemma TestFilterOpenWin(a: Issue, b: Issue)
    requires OpenField in a && a[OpenField] == Bool(true)
    requires OpenField in b && b[OpenField] == Bool(true)
    requires CreatedByField in a && a[CreatedByField] == Str("Joe")
    requires CreatedByField in b && b[CreatedByField] == Str("Win")
    ensures List([Project("test", [a, b])], "test",
                 map[OpenField := "true", CreatedByField := "Win"]) == Issues([b])
  {
    var win := map[OpenField := "true", CreatedByField := "Win"];
    assert !Matches(a, win) by {
      assert CreatedByField in win && win[CreatedByField] == "Win";
      assert ToStr(a[CreatedByField]) == "Joe";
    }
    assert Matches(b, win);
    FilterNone([a], win);
    FilterAppend([a], b, win);
    assert [a] + [b] == [a, b];
  }

  /** The first update test: retitling the first issue by its id
      succeeds, echoes the id and stores the new title, leaving the second
      issue alone. */
  lemma TestUpdateOne(idA: string, a: Issue, b: Issue, t: nat)
    requires HasId(a) && IdKey(a) == idA
    requires HasId(b) && IdKey(b) != idA
    ensures var a' := Apply(a, TitlePut(idA), t);
      && Handle([Project("test", [a, b])], Put("test", TitlePut(idA)), idA, t)
         == (Ok(Updated, Str(idA)), [Project("test", [a', b])])
      && a'[TitleField] == Str("Updated title")
  {
    var store := [Project("test", [a, b])];
    var put := TitlePut(idA);
    assert put.Keys == {IdField, TitleField};
    assert |put| == 2;
    assert FindIssue([a, b], idA) == Some(0);
    assert Locate(store, "test", put) == Hit(0, 0);
    var a' := Apply(a, put, t);
    assert a'[IdField] == Str(idA);
    assert [a, b][0 := a'] == [a', b];
    assert store[0 := store[0].(issues := [a', b])] == [Project("test", [a', b])];
    assert Update(store, "test", put, t) == (Ok(Updated, Str(idA)), [Project("test", [a', b])]);
  }

  /** The body of the "Update multiple fields on an issue" test. */
  function TitleTextPut(id: string): Body {
    map[IdField := Str(id), TitleField := Str("Updated title"), TextField := Str("Updated text")]
  }

  /** The second update test: title and text of the second issue are
      rewritten by its id, the first issue is left alone. */
  lemma TestUpdateTwo(idB: string, a: Issue, b: Issue, t: nat)
    requires HasId(a) && IdKey(a) != idB
    requires HasId(b) && IdKey(b) == idB
    ensures var b' := Apply(b, TitleTextPut(idB), t);
      && Handle([Project("test", [a, b])], Put("test", TitleTextPut(idB)), idB, t)
         == (Ok(Updated, Str(idB)), [Project("test", [a, b'])])
      && b'[TitleField] == Str("Updated title") && b'[TextField] == Str("Updated text")
  {
    var store := [Project("test", [a, b])];
    var put := TitleTextPut(idB);
    assert put.Keys == {IdField, TitleField, TextField};
    assert |put| == 3;
    assert FindIssue([a, b], idB) == Some(1);
    assert Locate(store, "test", put) == Hit(0, 1);
    var b' := Apply(b, put, t);
    assert [a, b][1 := b'] == [a, b'];
    assert store[0 := store[0].(issues := [a, b'])] == [Project("test", [a, b'])];
    assert Update(store, "test", put, t) == (Ok(Updated, Str(idB)), [Project("test", [a, b'])]);
  }

  /** The failing update tests: no `_id` gets "missing _id", an `_id`
      alone gets "no update field(s) sent", an unknown id gets "could not
      update"; none of them changes the store. */
  lemma TestUpdateErrors(idA: string, a: Issue, b: Issue, t: nat)
    requires HasId(a) && HasId(b)
    requires IdKey(a) != "textabcd" && IdKey(b) != "textabcd"
    ensures Handle([Project("test", [a, b])],
                   Put("test", map[TitleField := Str("Updated title"), TextField := Str("Updated text")]), idA, t)
            == (Err(MissingId, None), [Project("test", [a, b])])
    ensures Handle([Project("test", [a, b])], Put("test", map[IdField := Str(idA)]), idA, t)
            == (Err(NoUpdateFields, Some(Str(idA))), [Project("test", [a, b])])
    ensures Handle([Project("test", [a, b])], Put("test", TitlePut("textabcd")), idA, t)
            == (Err(CouldNotUpdate, Some(Str("textabcd"))), [Project("test", [a, b])])
  {
    var store := [Project("test", [a, b])];
    UpdateProperties.UpdateMissingId(store, "test",
      map[TitleField := Str("Updated title"), TextField := Str("Updated text")], t);
    UpdateProperties.UpdateNoFields(store, "test", map[IdField := Str(idA)], t);
    var bad := TitlePut("textabcd");
    assert bad.Keys == {IdField, TitleField};
    assert |bad| == 2;
    UpdateProperties.UpdateNotFound(store, "test", bad, t);
  }

  /** The delete tests, in order: deleting the first issue by its id
      succeeds, echoes the id and leaves only the second; on that store an
      unknown id then gets "could not delete" and an empty body gets
      "missing _id". */
  lemma TestDelete(idA: string, a: Issue, b: Issue)
    requires HasId(a) && IdKey(a) == idA
    requires HasId(b) && IdKey(b) != idA && IdKey(b) != "textabcd"
    ensures Handle([Project("test", [a, b])], Remove("test", map[IdField := Str(idA)]), idA, 0)
            == (Ok(Deleted, Str(idA)), [Project("test", [b])])
    ensures Handle([Project("test", [b])], Remove("test", map[IdField := Str("textabcd")]), idA, 0)
            == (Err(CouldNotDelete, Some(Str("textabcd"))), [Project("test", [b])])
    ensures Handle([Project("test", [b])], Remove("test", map[]), idA, 0)
            == (Err(MissingId, None), [Project("test", [b])])
  {
    var store := [Project("test", [a, b])];
    var del := map[IdField := Str(idA)];
    assert FindIssue([a, b], idA) == Some(0);
    assert Locate(store, "test", del) == Hit(0, 0);
    assert [a, b][..0] + [a, b][1..] == [b];
    assert store[0 := store[0].(issues := [b])] == [Project("test", [b])];
    assert Delete(store, "test", del) == (Ok(Deleted, Str(idA)), [Project("test", [b])]);

    DeleteProperties.DeleteNotFound([Project("test", [b])], "test", map[IdField := Str("textabcd")]);
  }
}
