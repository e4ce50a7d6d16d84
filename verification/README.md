# Issue tracker store — a Dafny model

This project models the request-handling core of a small issue-tracking
service. The service keeps an in-memory list of projects. Each project has a
name and an ordered list of issues. One resource, `/api/issues/:project`,
answers four methods:

- **POST** creates an issue. It checks that `issue_title`, `issue_text` and
  `created_by` are defined, fills in defaults, and appends the issue to the
  named project. If no project has that name, it creates one.
- **GET** lists the project's issues that match every query filter. Matching
  compares each field's string form with the filter value.
- **PUT** updates one issue in place. It reports `missing _id`,
  `no update field(s) sent` and `could not update`, in that order.
- **DELETE** removes one issue. It reports `missing _id` and
  `could not delete`, in that order.

Each handler is a pure function from the store to a response and the new
store (`Handlers.Create`, `List`, `Update`, `Delete`, dispatched by
`Handlers.Handle`). Responses are a datatype of the JSON shapes the service
sends. The generated object id and the current time are parameters.

Field values are `Str`, `Bool`, `Time` (a server-stamped date, in
milliseconds) or `Null` (JSON `null`). An `undefined` field is a key missing
from the issue's or body's map. An issue is a `map<string, Value>`, because
an update may add arbitrary keys.

Some inputs make the JavaScript throw a `TypeError`. The handler yields
`Fault` for these and leaves the store unchanged; no handler mutates the
store before the point where it can throw. The inputs are:

- a GET for an unknown project (`p.issues` on `undefined`);
- a GET whose filter key is missing or `null` in some issue of the project;
- a PUT or DELETE whose `_id` is `null`, when the project has at least one
  issue, because `null.toString()` runs inside the lookup.

PUT performs its lookup before its error checks. So the third case pre-empts
even `no update field(s) sent` (`UpdateProperties.UpdateNullIdFaults`).

The store invariant `IssueStore.Valid` says that no two projects share a
name, and that within a project every issue has a non-null `_id` and no two
issues share an id string. Every request preserves it
(`Routes.HandlePreservesValid`), provided that a create gets an id not yet in
use. `Update`, `Delete` and `Handle` require only that every stored issue has
an id (`IdsPresent`). The source establishes this by construction and never
checks it.

In these places the code does something a reader might not expect, and the
model does what the code does:

- The update reply carries the issue's `_id` after the update, not the
  submitted value. `UpdateProperties.UpdateSuccess` proves the two are equal.
- A `null` sent for a field the issue lacks is loosely equal to `undefined`.
  So the update does not add that field.

## Model

| member | source | states |
|---|---|---|
| IssueStore.FindProject | routes/api.js:43 | the result is the position of the first project with the name, and `None` exactly when no project has it |
| IssueStore.FindIssue | routes/api.js:62 | the result is the position of the first issue whose id string is the key, and `None` exactly when no issue has it |
| IssueStore.ScanForId | routes/api.js:88-95 | the delete handler's index loop stops at the first issue with the id and finds what `FindIssue` describes |
| Handlers.NewIssue | routes/api.js:26-36 | a new issue has exactly the nine documented fields and is found by the fresh id |
| Handlers.Create | routes/api.js:24-53 | a create succeeds exactly when the three required fields are defined; otherwise the store is unchanged; the reply carries the fresh id |
| Handlers.Filter | routes/api.js:12-20 | every kept issue matches all filters, every matching issue is kept, and the result is never longer than the input |
| Handlers.List | routes/api.js:9-22 | a listing throws exactly when the project is unknown or some issue lacks, or holds null for, a filter key; otherwise it returns issues |
| Handlers.Locate | routes/api.js:58-63 | a hit is the first issue with the submitted id in the named project; the lookup throws exactly for a null `_id` against a non-empty project |
| Handlers.Apply | routes/api.js:70-75 | after the update loop, every submitted field holds the submitted value, other fields keep theirs, the key set grows by the non-null submitted keys, and `updated_on` is the current time |
| Handlers.Update | routes/api.js:55-80 | only a successful update changes the store, and the number of projects never changes |
| Handlers.Delete | routes/api.js:82-105 | only a successful delete changes the store, and the number of projects never changes |
| Handlers.Handle | routes/api.js:7-9 | a GET never changes the store |
| ListProperties.FilterSelects | routes/api.js:12-20 | the filter returns the order-preserving subsequence of exactly the matching issues |
| ListProperties.FilterAppend | routes/api.js:12-20 | filtering a sequence with one more issue gives the same result plus that issue exactly when it matches |
| ListProperties.ListNoFilters | routes/api.js:12-21 | with no filters, the listing is every issue of the project in insertion order |
| ListProperties.ListSelects | routes/api.js:9-22 | a successful listing is the order-preserving selection of the project's issues that match every filter |
| CreateProperties.CreateRejectsMissing | routes/api.js:38-52 | if any required field is undefined or null, the reply is `required field(s) missing` and the store is unchanged |
| CreateProperties.CreatedIssueShape | routes/api.js:26-36 | a new issue has the fresh id, `open` true and both timestamps at the current time; it copies the required fields, and a missing or falsy optional field becomes `""` |
| CreateProperties.CreateAppends | routes/api.js:43-45 | posting to an existing project appends the returned issue at its end and leaves every other project unchanged |
| CreateProperties.CreateAddsProject | routes/api.js:46-48 | posting to an unknown project appends one project that holds just the returned issue |
| CreateProperties.CreatePreservesValid | routes/api.js:43-48 | with a fresh id, a create keeps project names unique and ids present and unique |
| CreateProperties.CreateThenListById | routes/api.js:9-53 | listing by the fresh id right after a create returns exactly the created issue |
| UpdateProperties.UpdateMissingId | routes/api.js:65-66 | without `_id`, the reply is `missing _id` and the store is unchanged |
| UpdateProperties.UpdateNoFields | routes/api.js:61-68 | an `_id` alone gets `no update field(s) sent` with that id and the store is unchanged; this holds for a `null` id too, whenever no issue of the project gives the lookup anything to compare against |
| UpdateProperties.UpdateNotFound | routes/api.js:61-79 | an id that no issue of the project has, or an unknown project, gets `could not update` with that id and the store is unchanged; so does a `null` id when the project is unknown or has no issues |
| UpdateProperties.UpdateNullIdFaults | routes/api.js:61-63 | a null `_id` against a non-empty project throws before any error check, and the store is unchanged |
| UpdateProperties.UpdateSuccess | routes/api.js:69-76 | only the first issue with the id changes: submitted fields take the submitted values, `updated_on` is now, everything else keeps its value, and the reply echoes the id |
| UpdateProperties.ApplyKeepsId | routes/api.js:71-72 | an update keeps the id string its issue is found by |
| UpdateProperties.UpdatePreservesValid | routes/api.js:55-80 | an update keeps the store invariant |
| DeleteProperties.DeleteMissingId | routes/api.js:97-98 | without `_id`, the reply is `missing _id` and the store is unchanged |
| DeleteProperties.DeleteNotFound | routes/api.js:88-104 | an id that no issue of the project has, or an unknown project, gets `could not delete` with that id and the store is unchanged; so does a `null` id when the project is unknown or has no issues |
| DeleteProperties.DeleteNullIdFaults | routes/api.js:88-90 | a null `_id` against a non-empty project throws, and the store is unchanged |
| DeleteProperties.DeleteSuccess | routes/api.js:99-101 | a delete removes exactly the first issue with the id and shrinks the project by one; the rest keep their order, other projects are unchanged, and the reply echoes the id |
| DeleteProperties.DeletePreservesValid | routes/api.js:82-105 | a delete keeps the store invariant |
| DeleteProperties.DeleteRemovesId | routes/api.js:99-101 | after a successful delete no issue of the project has the deleted id any more, and every remaining issue still has an id |
| DeleteProperties.DeleteTwice | routes/api.js:88-104 | after a delete, deleting the same id again gets `could not delete` and changes nothing |
| Routes.HandlePreservesValid | routes/api.js:7-105 | every request keeps the store invariant, given a fresh id for a create; a listing leaves the store unchanged |
| Routes.TestPostFull | tests/2_functional-tests.js:14-48 | posting every field to `test` on an empty store creates the project holding one open issue that keeps the title, creator, assignee and status text it was sent |
| Routes.TestPostRequired | tests/2_functional-tests.js:50-82 | posting only the required fields (creator `Win`) appends a second open issue whose assignee and status text are empty |
| Routes.TestPostMissing | tests/2_functional-tests.js:84-100 | a post without `issue_text` gets `required field(s) missing` and the two stored issues stay as they are |
| Routes.TestListAll | tests/2_functional-tests.js:104-148 | with no query both issues come back in creation order |
| Routes.TestFilterOpen | tests/2_functional-tests.js:150-194 | `open=true` returns both issues in creation order, because `true` renders as `"true"` |
| Routes.TestFilterOpenWin | tests/2_functional-tests.js:196-223 | `open=true&created_by=Win` returns only the second issue |
| Routes.TestUpdateOne | tests/2_functional-tests.js:227-242 | retitling the first issue to `Updated title` by its id succeeds, echoes the id and leaves the second issue alone |
| Routes.TestUpdateTwo | tests/2_functional-tests.js:244-260 | updating title and text of the second issue by its id succeeds, echoes the id and leaves the first issue alone |
| Routes.TestUpdateErrors | tests/2_functional-tests.js:262-309 | a PUT without `_id` gets `missing _id`, one with only `_id` gets `no update field(s) sent` and one with id `textabcd` gets `could not update`, each echoing the id it was sent and none changing the store |
| Routes.TestDelete | tests/2_functional-tests.js:314-357 | deleting the first issue by id succeeds and leaves only the second; on that store id `textabcd` then gets `could not delete` and an empty body gets `missing _id`, neither changing it |

## Left out

- Express routing, `req`/`res`, body parsing and JSON serialisation. They are
  HTTP plumbing. Requests and responses are datatypes, and every response is
  HTTP 200 except the thrown cases.
- Thrown errors are the `Fault` response. The 500 page Express would render
  for them is not modelled.
- `new ObjectId()` is a foreign library. The id is the parameter `freshId`,
  stored as its hex string. `ObjectId.isValid` and the 24-hex-digit format
  are not modelled.
- Handlers.Create: the code reads the clock twice, once for `created_on` and
  once for `updated_on`. The model takes one `now` for both, so it does not
  model the two stamps differing by a millisecond.
- Values.ToStr: a `Date` renders as its decimal millisecond count, not as the
  calendar text of `Date.prototype.toString`. So a `created_on` filter
  matches a different string from the one the service expects.
- Handlers.Apply: the overwrite guard `issue[k] !=
  updateData[k]` is modelled exactly for `null`/`undefined`, and as
  structural equality otherwise. JavaScript's coercions between booleans and
  numeric strings (`true == "1"`) are not modelled. When those hold, the
  service keeps the stored boolean, while the model stores the string.
- JSON numbers, arrays and objects in request bodies, and array-valued query
  parameters (`?a=1&a=2`), are outside the `Value` and `Query` types.
- Properties inherited from `Object.prototype` (a filter key such as
  `constructor`) are treated as missing keys.
- The shared mutable `projects` array, and interleaved requests. Requests are
  applied one at a time.
