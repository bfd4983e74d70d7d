# Form approval workflow — a verified model

This project models the decision logic of a small form-approval system in Dafny.
A requester submits a form with five fields: name, e-mail, phone, purpose and description.
An administrator approves or rejects pending forms, with an optional comment.
The requester looks up their submissions by e-mail.

The model has three layers:

- **Form schema** (`form.dfy`, module `FormModel`). The `Form` record has a `Status` enum {pending, approved, rejected}. Construction with schema validation is `Create`. It checks the five required paths (an empty string counts as missing) and the status enum. It fills the defaults: status `pending`, the submission date from the clock, and an empty comment.
- **Form service** (`routes.dfy`, module `FormRoutes`, over `store.dfy` and `ordering.dfy`). The four HTTP handlers are pure functions from a `Store` and a request to a `Step`. A `Step` holds the new store and the response envelope (`success`, status code, `message`, `data`, `error`).
  - The store is a `map<Id, Form>` plus `nextId`. `nextId` stands in for the identifier generator, so every new identifier is fresh.
  - Listings are sorted newest first by a functional insertion sort.
  - The clock value (`now`) is a parameter of `Submit`.
  - Whether the document store fails during a request is the parameter `fault`.
- **Client presentation rules** (`client.dfy`, module `ClientUi`, with `text.dfy` for JavaScript's `trim`). These cover:
  - the badge class of a status;
  - the three dashboard counters;
  - the Approve/Reject gating of a table row;
  - the comments cell;
  - the note on a status card;
  - the blank-e-mail guard;
  - the body that an approve or reject click sends.

`workflow.dfy` (module `Workflow`) connects the layers. It proves that no pending record ever carries a comment, and that a button offered by the dashboard always passes the server's status whitelist. It also proves that updates and submissions are visible to the next lookup, and it proves the outcome of an example submission, an approval with comment "ok" and a lookup (`SubmitApproveLookup`).

Two facts about the source shape the model:
- The schema only defaults status and date (backend/models/Form.js:12,14), so `Create` takes a given status or date. The submit route forces them by never passing them on (backend/routes/forms.js:10-16, `SubmissionOf`).
- Any failure while saving a submission answers 400, not 500 (backend/routes/forms.js:25-31), because one `catch` handles both validation and store errors.

## Model

| member | source | states |
|---|---|---|
| FormModel.ParseStatus | backend/models/Form.js:9-13 | a status string is accepted exactly when it is one of "pending", "approved", "rejected", and it reads as the status of that name |
| FormModel.ParseName | backend/models/Form.js:11 | each status's stored name reads back as that status |
| FormModel.MissingAmong | backend/models/Form.js:4-8 | a `required` violation is reported for a listed path exactly when its value is absent or the empty string |
| FormModel.Violations | backend/models/Form.js:4-13 | the schema's violations name exactly the missing required paths and an out-of-enum status; there are none exactly when all five are present and any given status is in the enum |
| FormModel.Create | backend/models/Form.js:3-16 | construction succeeds exactly when the document has no violations; a failure carries at least one violation, naming each missing path; an accepted record is well-formed, keeps the given fields, takes a given status (which the enum type keeps within the three names), defaults to `pending`, takes the clock value as its date when none is given, and defaults its comments to "" |
| Ordering.Insert | backend/routes/forms.js:37 | inserting into a newest-first sequence keeps it newest first and adds exactly that record |
| Ordering.SortNewestFirst | backend/routes/forms.js:37 | the result is newest first by submission date and is a permutation of the input (same multiset) |
| Ordering.SortKeepsRecords | backend/routes/forms.js:54-56 | sorting keeps the length and the set of records |
| Ordering.SortOfSortedIsIdentity | frontend/js/app.js:189 | re-sorting a list that is already newest first leaves it unchanged, so the client's re-sort of server output changes nothing |
| Text.TrimStart | frontend/js/app.js:138 | drops exactly the leading whitespace and line-terminator characters |
| Text.TrimEnd | frontend/js/app.js:138 | drops exactly the trailing whitespace and line-terminator characters |
| Text.Trim | frontend/js/app.js:138 | the result is a slice of the input with only trimmable characters around it, and it neither starts nor ends with one |
| Text.TrimEmptyIffBlank | frontend/js/app.js:138-140 | the trimmed e-mail is empty exactly when every character of the input is trimmable |
| FormStore.Scan | backend/routes/forms.js:37 | a scan lists each stored record with an identifier in the interval, in strictly increasing identifier order, and nothing else |
| FormStore.ScanLength | backend/routes/forms.js:37 | a scan has one entry per stored key in its interval |
| FormStore.Records | backend/routes/forms.js:37 | an unsorted `find()` returns every stored record exactly once |
| FormStore.Matching | backend/routes/forms.js:54 | `find({ email })` keeps exactly the records whose e-mail equals the parameter, unchanged |
| FormRoutes.SubmissionOf | backend/routes/forms.js:8-16 | the submitted document takes only the five named body fields; status, date and comments are never taken from the body |
| FormRoutes.FileFresh | backend/routes/forms.js:18 | saving a well-formed record under the next identifier adds exactly one fresh key and keeps every record filed under its own identifier |
| FormRoutes.SubmittedFields | backend/routes/forms.js:10-16 | an accepted submission copies the five body fields into the record |
| FormRoutes.Submit | backend/routes/forms.js:6-32 | success (201) exactly when no store fault occurs and all five fields are non-empty; the success adds exactly one new record under a fresh identifier, pending, with comments "" and the clock value as date, leaving other records unchanged; otherwise 400 "Error submitting form", with the violations when validation failed, and the store unchanged |
| FormRoutes.ListAll | backend/routes/forms.js:35-49 | returns every stored record exactly once, newest first, and leaves the store unchanged; a store fault answers 500 |
| FormRoutes.MatchingValues | backend/routes/forms.js:54-56 | the query's records are exactly the stored records with the given e-mail |
| FormRoutes.ListByEmail | backend/routes/forms.js:52-68 | returns exactly the stored records with that e-mail, each once, newest first; an empty result is still a 200 success; the store is unchanged; a store fault answers 500 |
| FormRoutes.Decision | backend/routes/forms.js:76 | the whitelist accepts exactly "approved" and "rejected", never "pending" |
| FormRoutes.CommentOrEmpty | backend/routes/forms.js:87 | a missing or empty comment becomes "", any other comment is kept |
| FormRoutes.ReviewKeepsSchema | backend/routes/forms.js:83-90 | changing only status and comments keeps a record well-formed and keeps its identifier |
| FormRoutes.UpdateStatus | backend/routes/forms.js:71-111 | the whitelist is checked first: 400 "Invalid status" with the store unchanged, whatever the identifier; then a store fault gives 500; then an unknown identifier gives 404 "Form not found" with the store unchanged; otherwise 200 with the record, where only status and comments change, the status is the requested one, the comment is the given one or "", and every other record is unchanged; the current status is not checked |
| ClientUi.BadgeClass | frontend/js/app.js:236-245 | "approved" gets bg-success, "rejected" gets bg-danger, any other string gets bg-warning |
| ClientUi.CounterCardClass | frontend/js/app.js:302-318 | the counter cards are coloured bg-warning for pending, bg-success for approved and bg-danger for rejected |
| ClientUi.BadgeMatchesCounterCard | frontend/js/app.js:236-245 | each status's badge has the colour of that status's counter card, and different statuses get different badges |
| ClientUi.WithStatus | frontend/js/app.js:295-297 | the filter keeps exactly the records with that status |
| ClientUi.WithStatusCounts | frontend/js/app.js:295-297 | each filtered length is the number of occurrences of that status among the records |
| ClientUi.CountersPartition | frontend/js/app.js:295-297 | the three filtered lengths add up to the number of records |
| ClientUi.CountStatuses | frontend/js/app.js:295-297 | each counter is the number of records with its status, and the three counters sum to the number of records |
| ClientUi.ActionFor | frontend/js/app.js:362-377 | Approve/Reject are offered exactly for pending records; every other record shows "Completed" |
| ClientUi.CommentsCell | frontend/js/app.js:360 | an empty comment shows "No comments"; a non-empty comment is shown as is |
| ClientUi.AdminPanel | frontend/js/app.js:282-387 | "No forms submitted yet" exactly for an empty list; otherwise the counters and one row per record, in order, with its badge, comments cell and actions |
| ClientUi.CheckStatus | frontend/js/app.js:138-146 | the user is warned and nothing is fetched exactly when the input is blank; otherwise the trimmed, non-empty e-mail is looked up |
| ClientUi.NoteFor | frontend/js/app.js:212-226 | an admin response is shown exactly when there is a comment; the under-review notice is shown exactly for a pending record without a comment; otherwise no note is shown |
| ClientUi.StatusResults | frontend/js/app.js:178-233 | "No forms found" exactly for an empty list; otherwise the cards show a permutation of the records, newest first, each with its badge and note |
| ClientUi.StatusResultsKeepServerOrder | frontend/js/app.js:189 | cards for a list the server already sorted come in the server's order |
| ClientUi.DecisionBody | frontend/js/app.js:390-411 | nothing is sent exactly when the operator declines; otherwise the body carries only the status and the answer, with a cancelled or empty answer sent as "" |
| Workflow.SubmitKeepsPendingUncommented | backend/routes/forms.js:10-18 | a submission keeps every pending record free of comments |
| Workflow.UpdateKeepsPendingUncommented | backend/routes/forms.js:76-90 | a status update keeps every pending record free of comments |
| Workflow.PendingCardShowsUnderReview | frontend/js/app.js:212-226 | in such a store, a pending record's card always shows the under-review notice |
| Workflow.PendingRowShowsNoComments | frontend/js/app.js:360-377 | in such a store, a pending record's comments cell shows "No comments" and its row offers Approve/Reject |
| Workflow.OfferedDecisionApplies | frontend/js/app.js:362-399 | a confirmed click on an offered button passes the server's whitelist and sets that status and the operator's comment (or ""), changing nothing else |
| Workflow.DecidedRecordCanBeDecidedAgain | backend/routes/forms.js:83-103 | an approved or rejected record accepts a new decision, which overwrites the old one |
| Workflow.SubmitIgnoresOtherKeys | backend/routes/forms.js:8-16 | body keys other than the five named fields do not affect a submission |
| Workflow.UpdateVisibleToLookup | backend/routes/forms.js:83-103 | after a successful update, the lookup by that record's e-mail lists the updated record and no older version of it |
| Workflow.SubmitVisibleToLookup | backend/routes/forms.js:18-24 | after a successful submission, the lookup by its e-mail lists the new record |
| Workflow.ExampleSubmit | backend/routes/forms.js:6-32 | the example submission to an empty store answers 201 and files one pending record |
| Workflow.ExampleApprove | backend/routes/forms.js:71-111 | approving that record with comment "ok" answers 200 with the approved, commented record |
| Workflow.LookupOfOnlyRecord | backend/routes/forms.js:52-68 | looking up the e-mail of the only stored record lists just that record |
| Workflow.SubmitApproveLookup | backend/routes/forms.js:6-111 | submit, approve and look up on an empty store finds exactly one record, approved, with the comment |

## Left out

- The process host (`backend/server.js`) is not part of this model: the cross-origin allow-list, the JSON middleware, the database connection, the port binding and the health route.
- Identifier generation is modelled by the counter `nextId`, which only ensures freshness. In the source, a malformed identifier in `PUT /:id/status` raises a cast error, which answers 500. Here identifiers are numbers, so that case appears only as the `fault` branch.
- Store failures are the boolean parameter `fault`. Their error text, and the text of the validation message, are not modelled. The model keeps the violations as structured values (`Violation`) instead.
- Request bodies are string-to-string maps. Non-string JSON values (numbers converted to strings, `null`, nested objects) are not modelled. An absent key stands for `undefined`.
- Concurrency is left out: requests are applied one at a time, so last-write-wins between simultaneous updates does not arise.
- The clock is the parameter `now` of `Submit`. The model does not assume that successive calls see increasing values.
- Dates are numbers. Date formatting (`toLocaleString`) is left out, and so are the upper-cased status labels.
- Ordering.SortNewestFirst: the store queries (backend/routes/forms.js:37, backend/routes/forms.js:54-56) leave the order of records with equal dates unspecified, so the contracts state only the newest-first order and the permutation. The client's re-sort (frontend/js/app.js:189) is stable; it only ever sorts server output that is already newest first, and `StatusResultsKeepServerOrder` proves that this output keeps its order.
- The e-mail path parameter is assumed to arrive exactly as the client trimmed it. The `encodeURIComponent` encoding and the server's decoding are treated as inverse to each other.
- ClientUi.CountStatuses: records carry the `Status` enum, so a status outside the enum cannot occur. The counters therefore always sum to the number of records. The "any other string" branch of the badge is reachable only through `BadgeClass` on raw strings.
- ClientUi.CommentsCell: a comment whose text is literally "No comments" looks the same as an absent one. The contract states both cases but not that the shown text identifies which one it was.
- All DOM work is left out: tab switching, alerts and their timers, spinners, disabled buttons, and HTML escaping. Network calls and the client's network-error branches are left out too. `loadAllForms` and the post-update reload are a re-run of `ListAll`, which is modelled.
- Form submission in the client (`frontend/js/app.js:84-90`) sends the five input values. This is covered by `Submit`, whose body is any map of strings.
