# Employee management: view-state controller and CRUD gateway

A Dafny model of the two pieces of logic in a small employee-records
application:

- the **view-state controller** of the browser client's top-level `App`
  component (`client/src/App.js`): the current view, the session flag and its
  persisted copy in `localStorage`, the in-memory employee list, the selected
  employee, the loading flag and the transient notification; the handlers for
  add, delete, update, login, sign-out and navigation; and the view dispatch
  of `renderContent`;
- the **CRUD gateway** (`server/server.js`): the POST, GET, DELETE and PUT
  `/employees` routes, with their validation, their single call on the
  document store, and their mapping of outcomes to status 200/400/404/500 with
  fixed messages.

Files (one module each):

| file | module | models |
|---|---|---|
| records.dfy | `Records` | a JSON object as `map<string, string>`, its optional `id` |
| employee_list.dfy | `EmployeeList` | the three list edits of the client (spread-append, `filter`, `map`) |
| controller.dfy | `Controller` | class `App`: the component state and one method per handler |
| document_store.dfy | `DocumentStore` | the collection as `map<Id, Record>`: `add`, `delete`, `update`, and GET's listing |
| gateway.dfy | `Gateway` | the four routes, each a method returning the response and the new store |
| agreement.dfy | `Agreement` | when the client's optimistic edit equals the gateway's listing after the same request |

How the outside world enters the model:

- A network call's result is a parameter of the handler that awaits it: the id
  the POST returned (or `None` on failure), or a success flag for DELETE and PUT.
  Handlers run one at a time.
- Every `setTimeout` in the component uses the same 2000 ms delay, so callbacks
  fire in the order they were scheduled. `App.timers` is that queue, and
  `App.FireTimer` runs its head. "Wait 2 s, then …" is therefore a second
  transition, not a clock.
- The document store's fresh id on `add` is a parameter (`requires freshId !in store`).
  The order in which `get` enumerates the collection is a parameter
  (`requires IsEnumeration(order, store)`). Each store call that can throw has
  a boolean failure flag.
- A GET entry is `{ id: doc.id, ...doc.data() }`, so a document's own `id`
  field shadows its key (`DocumentStore.WithId`). The predicate
  `IdsMatchKeys` says that every stored `id` field equals its key. The
  "exactly one listed entry per identifier" lemmas assume it. Delete always
  preserves it. Add preserves it only when the payload has no `id` or carries
  the fresh identifier. Update preserves it only when the body has no `id` or
  carries the route's identifier. The gateway checks neither condition
  (server/server.js:26 and 79). The client meets the update condition, because
  it PUTs a record under that record's own id (client/src/App.js:79). A POST
  draft that carries a foreign `id` is stored as given. The listing then shows
  it under that `id`, while the client's list carries the store's id:
  `Gateway.CreateWithForeignId`, `Agreement.AddDivergence` and
  `Agreement.AddDivergenceAnyOrder` state that case.

Points where the code's behaviour is easy to misread:

- A view is a free string, not a closed enumeration. `handleNavigate`
  accepts any string, and `renderContent` draws the sign-in screen for any
  name it does not know.
- A failed initial fetch leaves the list as it was (`[]` at mount), stops
  loading, and does not touch the notification.
- A new entry is `{ ...employee, id }`, so the store's id replaces any `id`
  the draft carried.
- PUT on an identifier with no document: the handler does not check that the
  document exists. It calls the store's `update`, which rejects a missing
  document, and the `catch` turns that into 500 "Failed to update employee"
  with the store unchanged. The model does the same.

## Model

| member | source | states |
|---|---|---|
| Records.IdOf | client/src/App.js:64 | reading `.id` gives `undefined` (`None`) exactly when the record has no `id` attribute, and otherwise its value; the same read is used at line 81 |
| EmployeeList.Stamp | client/src/App.js:48 | the new entry has id equal to the returned id, the draft's keys plus `id`, and the draft's value for every other field |
| EmployeeList.Append | client/src/App.js:48 | one more entry; the old list is an unchanged prefix; the last entry carries the returned id and every other field of the draft |
| EmployeeList.AppendCount | client/src/App.js:47-49 | a successful add adds exactly one entry with the new id and none with any other id |
| EmployeeList.Remove | client/src/App.js:64 | a record is in the result exactly when it was in the list and its id differs from the deleted one; the list does not grow |
| EmployeeList.RemoveConcat | client/src/App.js:64 | removal distributes over concatenation, so kept entries keep their original order |
| EmployeeList.RemoveLength | client/src/App.js:64 | the result is shorter by exactly the number of entries carrying the id |
| EmployeeList.RemoveUnchanged | client/src/App.js:64 | the list is unchanged if and only if no entry carries the id |
| EmployeeList.RemoveIdempotent | client/src/App.js:60-65 | deleting the same id twice leaves what deleting once leaves |
| EmployeeList.Replace | client/src/App.js:80-82 | same length and order; each entry whose id equals the updated record's id (both absent counts as equal) becomes that record, every other entry is unchanged |
| EmployeeList.ReplaceIdempotent | client/src/App.js:80-82 | applying the same update twice equals applying it once |
| EmployeeList.ReplaceCount | client/src/App.js:80-82 | an update never changes how many entries carry any given id |
| EmployeeList.RemoveAfterReplace | client/src/App.js:63-81 | an update followed by a delete of the same id leaves exactly what the delete alone leaves |
| Controller.RenderContent | client/src/App.js:115-134 | `employees`, `registration` and `profile` each draw their own screen, and every other view name, known or not, draws the sign-in screen |
| Controller.LoggedIn | client/src/App.js:23 | the stored string `'true'` reads as logged in, and nothing else does: neither an absent key nor any other string |
| Controller.InitialView | client/src/App.js:22-26 | the initial view is `employees` exactly when the persisted flag is `'true'`, and `signIn` otherwise |
| Controller.App.constructor | client/src/App.js:14-26 | initial state after the login-status effect: `isLoggedIn` equals whether the flag is `'true'`, the view follows it, list empty, loading, no notification, no timers |
| Controller.App.ReceiveEmployees | client/src/App.js:29-41 | on success the list becomes the fetched one; on failure the list and notification stay; loading ends either way |
| Controller.App.AddEmployee | client/src/App.js:44-57 | success appends the draft stamped with the returned id and shows "Successfully added"; failure keeps the list and shows "Failed to add employee"; loading ends; one clear-notification timer is queued; nothing else changes |
| Controller.App.DeleteEmployee | client/src/App.js:60-73 | success filters out the id and shows "Successfully deleted"; failure keeps the list and shows "Failed to delete employee"; loading ends; a clear-notification timer is queued; nothing else changes |
| Controller.App.UpdateEmployee | client/src/App.js:76-91 | success replaces entries by id and shows "Successfully updated"; failure keeps the list and shows "Failed to update employee"; loading ends; a clear-notification timer is queued; nothing else changes |
| Controller.App.Login | client/src/App.js:94-102 | loading starts and the sign-in completion is queued; session and view are untouched until it fires |
| Controller.App.SignOut | client/src/App.js:105-113 | loading starts and the sign-out completion is queued; session and view are untouched until it fires |
| Controller.App.Navigate | client/src/App.js:136-142 | the view becomes the target at once, loading starts, and only the queued timer ends it |
| Controller.App.ViewEmployee | client/src/App.js:124 | the selected employee becomes the given record; nothing else changes |
| Controller.App.SetCurrentView | client/src/App.js:128 | the registration screen's direct view change: the view becomes the argument with no loading step |
| Controller.App.FireTimer | client/src/App.js:96-112 | the earliest timer fires. A clear sets notification to `''` (lines 55, 71, 89). Sign-in completion stores `'true'`, logs in, shows `employees` and ends loading. Sign-out completion removes the flag, logs out, shows `signIn` and ends loading. A navigation timer only ends loading (line 140). Like every handler, it keeps the two invariants of `App.Valid`: the session flag matches the stored one, and a non-empty notification always has a clear timer queued behind it |
| Controller.App.CurrentScreen | client/src/App.js:155-157 | the current view draws the `employees`, `registration` or `profile` screen exactly when it names that view, and the sign-in screen for every other name |
| DocumentStore.Insert | server/server.js:31 | `add` puts one new document under the fresh id and changes no other document |
| DocumentStore.Delete | server/server.js:60 | `delete` removes exactly that key, and every other document is kept |
| DocumentStore.Merge | server/server.js:84 | `update` overwrites or adds the supplied fields, keeps every other field of that document, and keeps every other document |
| DocumentStore.WithId | server/server.js:43 | a listed entry has the document's fields plus `id`; its `id` is the document's own `id` field if it has one, otherwise the key |
| DocumentStore.Entries | server/server.js:42-43 | one entry per visited document, in the store's enumeration order, each that document with its id |
| DocumentStore.EntriesConcat | server/server.js:43 | listing in order `a` then `b` gives `a`'s entries followed by `b`'s |
| DocumentStore.EntriesAgree | server/server.js:43 | a listing depends only on the documents it visits |
| DocumentStore.EntriesPermute | server/server.js:43 | listings in two orders that visit the same ids equally often hold the same entries, each as often |
| DocumentStore.EntriesSplit | server/server.js:43 | a listing holds the entries before a position, the entry at it and the entries after it |
| DocumentStore.DistinctMultiplicity | server/server.js:42 | in an enumeration with no repeats, each id occurs once or not at all |
| DocumentStore.EnumerationsPermute | server/server.js:42 | two enumerations of the same collection differ only in order |
| DocumentStore.EnumerationSize | server/server.js:42-44 | an enumeration of the collection visits exactly as many ids as there are documents |
| DocumentStore.ListedOnce | server/server.js:42-44 | while stored ids match keys, a listing has exactly one entry for each visited id and none for any other |
| DocumentStore.InsertKeepsIdsMatchKeys | server/server.js:31 | adding a document whose `id` field, if any, is its new key preserves the id/key invariant |
| DocumentStore.DeleteKeepsIdsMatchKeys | server/server.js:60 | deleting preserves the id/key invariant |
| DocumentStore.MergeKeepsIdsMatchKeys | server/server.js:84 | merging fields whose `id`, if any, is the document's key preserves the id/key invariant |
| Gateway.Truthy | server/server.js:26 | an attribute is truthy exactly when it is present and non-empty: an absent attribute and an empty string are both falsy |
| Gateway.ValidEmployee | server/server.js:26 | a payload is accepted exactly when it is present and each of name, surname, email and idNumber is truthy: the negation of line 26's condition |
| Gateway.CreateEmployee | server/server.js:22-37 | 400 "Employee data is missing or invalid" exactly when the employee is absent or any of name/surname/email/idNumber is absent or empty, with the store unchanged; otherwise 500 "Failed to add employee" with the store unchanged exactly on store failure; otherwise 200 with the payload added under the fresh id and echoed with that id and "Employee added successfully" |
| Gateway.ListEmployees | server/server.js:40-49 | store failure gives 500 "Failed to fetch employees"; otherwise 200 with one entry per document, in enumeration order, each that document plus its id; while ids match keys, every stored id is listed exactly once and no other id is listed |
| Gateway.DeleteEmployee | server/server.js:52-69 | 500 "Failed to delete employee" exactly when the existence check fails, or when the document exists and its removal fails; 404 "Employee not found" exactly when the check succeeds and the id is absent; 200 "Employee deleted successfully" with exactly that key removed otherwise; the store is unchanged on every non-200 outcome |
| Gateway.UpdateEmployee | server/server.js:74-90 | 400 "No data provided to update" exactly when the body is absent or has no keys; 500 "Failed to update employee" exactly when the store fails or the document is missing; 200 "Employee updated successfully" with the fields merged otherwise; the store is unchanged on every non-200 outcome |
| Gateway.CreateThenList | server/server.js:31-44 | while stored ids match keys, and when the payload has no `id` or carries the fresh identifier: after a successful create, a listing has one more entry than before, exactly one entry with the new id, and that entry is the payload with its id |
| Gateway.DeleteThenList | server/server.js:40-61 | while stored ids match keys: after a successful delete, a listing has one entry fewer and no entry with the deleted id |
| Gateway.CreateWithForeignId | server/server.js:26-43 | while stored ids match keys: a created payload carrying an `id` other than the fresh identifier is stored as given, and the listing then has no entry with the identifier the response returned |
| Gateway.NoEntryWithId | server/server.js:43 | a listing has no entry with an id when no document is listed with it |
| Agreement.Skip | server/server.js:60 | the enumeration after a delete holds exactly the old ids other than the deleted one |
| Agreement.SkipDistinct | server/server.js:60 | leaving the deleted id out of an enumeration with no repeats leaves no repeats |
| Agreement.SkipEnumerates | server/server.js:60 | the old enumeration with the deleted id left out is an enumeration of the store after the delete, so it is a listing the GET route can return |
| Agreement.AppendEnumerates | server/server.js:31 | the old enumeration followed by the fresh id is an enumeration of the store after the add |
| Agreement.StampIsWithId | client/src/App.js:48 | the client's `{ ...draft, id }` equals the listing's `{ id, ...draft }` when the draft carries no other id |
| Agreement.AddAgreement | client/src/App.js:47-48 | if the client's list was the listing, the draft has no `id` or carries the fresh identifier, and the store lists the new document last, appending after a successful POST gives the listing of the new store |
| Agreement.AddAgreementAnyOrder | client/src/App.js:47-48 | under the same conditions but in any order the new store can enumerate, the appended list holds the same entries as the listing, each as often |
| Agreement.AddAgreementAt | client/src/App.js:47-48 | under the same conditions, and when the store keeps the old documents in their old order and lists the new one at position `j`, the listing is the old list with the stamped draft inserted at `j`, where the client's append puts it at the end |
| Agreement.AddDivergence | client/src/App.js:47-48 | if the draft carries an `id` other than the fresh identifier and the store lists the new document last, the client's appended list differs from the new store's listing: the client stamps the store's id, the listing shows the draft's |
| Agreement.AddDivergenceAnyOrder | client/src/App.js:47-48 | while stored ids match keys, a draft carrying an `id` other than the fresh identifier makes the client's appended list differ from the new store's listing in every order the store can enumerate it |
| Agreement.DeleteAgreement | client/src/App.js:63-64 | while stored ids match keys: if the client's list was the listing, filtering after a successful DELETE gives the listing of the remaining documents in their old order |
| Agreement.UpdateAgreement | client/src/App.js:79-81 | while stored ids match keys: if the client's list was the listing and the PUT record carries the document's id and all its stored fields, replacing gives the listing of the merged store |
| Agreement.MergedEntry | server/server.js:84 | a document merged with a record that holds its id and all its fields is listed as exactly that record |
| Agreement.UpdateDivergence | client/src/App.js:79-81 | if the stored document has a field the PUT record lacks, the client's replaced list differs from the merged store's listing: the server merges, the client replaces |

## Left out

- React rendering, JSX and the presentational components (sign-in form, list, registration, profile, navigation bar, loader, notification banner): these are display only. `RenderContent` keeps only the choice of screen, and the `isLoggedIn` gate on the navigation bar is not modelled.
- The `setIsLoading` setter handed to the navigation bar (client/src/App.js:152): what that component does with it is not part of this model.
- axios, the HTTP transport and the hard-coded URLs: each request's result is an input.
- The document database SDK: its id generation, enumeration order, durability and error kinds become inputs. Credential loading, `dotenv` and `admin.initializeApp` are left out.
- Express routing, body-parser, CORS and `app.listen`: framework plumbing.
- Real time behind `setTimeout`: replaced by the FIFO timer queue.
- Concurrency between in-flight requests. Examples: the stale `employees` closure in add and delete versus the functional update in update, and a response arriving after navigation or after another handler. Handlers run one at a time.
- Controller.App.AddEmployee: the loading flag is true only while the request is pending. One transition per handler hides that intermediate state; the model shows only the final `isLoading = false`. DeleteEmployee and UpdateEmployee are the same.
- `console.error` logging: it doesn't affect state.
- Non-string JSON values: every attribute is a string. So JavaScript truthiness (`!employee.name`) is "absent or empty string". Numbers, booleans, null and nested objects are not modelled. The same holds for Firestore's dotted field paths in `update`: every key is a top-level field.
- Gateway.UpdateEmployee: passes `req.body` as given. A non-object JSON body (an array, say) is not modelled; the body is an optional object.
