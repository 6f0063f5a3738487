# Sentence quote collection — a Dafny model of its data path

The application keeps a collection of quotes, each an English sentence with a
Chinese translation. This project models its core:

- **the connection cache** (`lib/mongodb.ts`): the process-wide cell
  `{conn, promise}` and `connectDB`, which reuses an established handle,
  starts a connection attempt only when none is pending, and on failure
  clears the pending marker so that a later call can retry. The model is a
  class `MongooseCache` whose `ConnectDB` is split at its `await` into
  `Begin` (before it) and `Settle` (after it), each specified by a pure step
  function on a `Cell` snapshot. How the awaited promise settles is a
  parameter, and a counter `attempts` records how many times
  `mongoose.connect` was called. A missing connection string is fatal at
  module load, and an existing global cell is reused;
- **the Sentence schema** (`models/Sentence.ts`): `english` and `chinese` are
  required, each with its own message, and trimmed with JavaScript's `trim`;
  the store stamps `createdAt` and `updatedAt`;
- **the list and create handlers** (`app/api/sentences/route.ts`) over an
  in-memory store class standing in for the database. GET connects, then lists
  every record newest first; POST parses the body, connects, then validates
  and inserts it. Any failure becomes status 500 with a fixed message;
- **the page's local list** (`app/page.tsx`): three sequence transformers
  (prepend, filter by id, replace by id), and a `Home` class whose handlers
  apply them whatever the response status: delete whenever the request
  resolves, add and edit whenever it resolves with a parsed body. A rejected
  request leaves the list unchanged.

Beyond the contracts on each operation, the lemmas prove:

- sequential `connectDB` calls from an idle cell make one attempt per failed
  call until the first success, and none after it. Every later call returns
  that same handle (`RunFromIdle`, `ReadyIsFinal`);
- overlapping first callers share one attempt and all receive the same
  handle or the same error (`OverlappingCallers`);
- the trimmed value is the unique infix that neither starts nor ends with
  whitespace and has only whitespace around it (`TrimIsUnique`);
- deleting preserves the order of the survivors (`RemoveIdConcat`);
- a successful GET puts the page in step with the store (`LoadPage`);
- a successful add keeps the page in step with what GET would answer,
  provided no stored record was created later than the add's clock reading
  and with ties in `createdAt` listed newest-inserted first
  (`AddKeepsPageInStep`, `AddSentence`).

Two consequences of the code as written are also proved:

- a failed add puts the server's error object at the head of the page's list
  (`FailedAddLeavesStep`);
- an edit answered with an error object replaces the entry with an object
  that a later delete of the id cannot remove (`FailedEditSurvivesDelete`).

## Model

| member | source | states |
|---|---|---|
| `Sentence.Trim` | models/Sentence.ts:15-20 | the stored value has no leading or trailing whitespace and is the input with only surrounding whitespace removed |
| `Sentence.TrimIsUnique` | models/Sentence.ts:15-20 | any trimmed infix of the input that leaves only whitespace around it equals `Trim` of the input (an independent definition of trimming) |
| `Sentence.TrimIdempotent` | models/Sentence.ts:15-20 | trimming a stored value again changes nothing |
| `Sentence.TrimFixpoint` | models/Sentence.ts:15-20 | `Trim(s) == s` exactly when `s` has no surrounding whitespace |
| `Sentence.TrimEmptyIffBlank` | models/Sentence.ts:15-20 | a value trims to the empty string exactly when it is whitespace only |
| `Sentence.TrimField` | models/Sentence.ts:15-20 | the trim setter keeps absence, trims a present value, and leaves it empty exactly when it was blank |
| `Sentence.Validate` | models/Sentence.ts:10-22 | validation succeeds iff neither field is missing (absent, or blank when `required` refuses empty strings); each missing field is reported by its own message, in both directions; a success carries both values trimmed |
| `Sentence.Stamp` | models/Sentence.ts:23-25 | a created record keeps the validated fields and has `createdAt == updatedAt == now`, so it is well formed |
| `ConnectionCache.CheckUri` | lib/mongodb.ts:12-18 | loading fails with the fixed message iff the connection string is undefined or empty |
| `ConnectionCache.LoadModule` | lib/mongodb.ts:12-26 | a missing connection string is fatal before any cell exists; otherwise an existing global cell is reused as is, else a fresh empty cell is made |
| `ConnectionCache.BeginStep` | lib/mongodb.ts:28-45 | an established handle is returned with the cell untouched; a pending promise is awaited with no new attempt; only an idle cell starts exactly one new attempt, which becomes the cached promise; consistency is kept |
| `ConnectionCache.SettleStep` | lib/mongodb.ts:47-56 | resolution stores and returns the awaited handle; rejection clears the promise, leaves `conn` and re-raises the error; no attempt is started |
| `ConnectionCache.ConnectStep` | lib/mongodb.ts:28-57 | a whole call: a ready cell answers its handle and changes nothing; otherwise success iff the promise resolves, failure leaves the cell idle; the attempt count grows only from an idle cell; the invariant `conn != null ==> promise != null` is kept |
| `ConnectionCache.RunConsistent` | lib/mongodb.ts:40-54 | any sequence of calls keeps the cell's invariant |
| `ConnectionCache.ReadyIsFinal` | lib/mongodb.ts:30-32 | once a handle is stored, every later call returns it and the cell never changes again |
| `ConnectionCache.RunFromIdle` | lib/mongodb.ts:35-54 | from an idle cell, calls fail one by one until the first resolving attempt; from then on all return its handle; attempts made = failures before it plus one |
| `ConnectionCache.OverlappingCallers` | lib/mongodb.ts:35-50 | n callers that begin before the promise settles start at most one attempt (exactly one from idle), await the same promise, and all receive the same handle or the same error |
| `ConnectionCache.MongooseCache.constructor` | lib/mongodb.ts:21-24 | a fresh cell has no connection and no pending promise |
| `ConnectionCache.MongooseCache.Begin` | lib/mongodb.ts:30-45 | updates the fields in place as `BeginStep` prescribes and keeps `Valid()` |
| `ConnectionCache.MongooseCache.Settle` | lib/mongodb.ts:47-56 | updates the fields in place as `SettleStep` prescribes and keeps `Valid()` |
| `ConnectionCache.MongooseCache.ConnectDB` | lib/mongodb.ts:28-57 | the whole call as `ConnectStep` prescribes; with a stored handle it returns it and the cell is unchanged |
| `SentenceStore.SortNewestFirst` | app/api/sentences/route.ts:8 | the listing is ordered by `createdAt` descending and is a permutation of the stored records |
| `SentenceStore.NewestRecordFirst` | app/api/sentences/route.ts:8 | a record created no earlier than all stored ones heads the listing, followed by the previous listing unchanged |
| `SentenceStore.Store.Find` | app/api/sentences/route.ts:8 | every stored record, newest first |
| `SentenceStore.Store.Create` | app/api/sentences/route.ts:19 | a document failing validation or a failed write stores nothing; otherwise one record with a fresh id, trimmed fields and equal timestamps is appended |
| `SentencesRoute.ListResponse` | app/api/sentences/route.ts:7-12 | status 200 iff both connect and query succeed, then all records newest first; otherwise exactly `{error: 'Failed to fetch sentences'}` with 500 |
| `SentencesRoute.CreateResponse` | app/api/sentences/route.ts:19-23 | the created record with 200, or exactly `{error: 'Failed to create sentence'}` with 500 |
| `SentencesRoute.Get` | app/api/sentences/route.ts:5-13 | connects first, leaves the store untouched, and answers `ListResponse` of the connection outcome |
| `SentencesRoute.Post` | app/api/sentences/route.ts:15-24 | a malformed body fails before the cache is touched; 200 iff connect, validation and write all succeed, with the new record appended and returned; any failure gives the fixed 500 error and stores nothing |
| `HomePage.Prepend` | app/page.tsx:43 | the new document is at index 0, the previous list follows unchanged, and length grows by one |
| `HomePage.RemoveId` | app/page.tsx:55 | the list never grows |
| `HomePage.RemoveIdMembers` | app/page.tsx:55 | no document with the id remains; every other document is kept; the list shrinks iff the id was present |
| `HomePage.ReplaceId` | app/page.tsx:71-75 | the length is unchanged; each position holding the id gets the reply and every other position keeps its document |
| `HomePage.RemoveIdConcat` | app/page.tsx:55 | deleting distributes over concatenation, so survivors keep their relative order |
| `HomePage.RemoveIdAbsent` | app/page.tsx:55 | deleting an id that is not in the list changes nothing |
| `HomePage.RemoveIdIdempotent` | app/page.tsx:55 | deleting the same id twice is deleting it once |
| `HomePage.RemoveAfterReplace` | app/page.tsx:50-75 | an edit answered with a document carrying the id, followed by a delete of that id, equals the delete alone |
| `HomePage.ReplaceIdIdempotent` | app/page.tsx:71-75 | repeating an edit whose reply carries the id changes nothing more |
| `HomePage.FailedEditSurvivesDelete` | app/page.tsx:70-74 | an edit answered with an error object leaves that object in the list even after the id is deleted |
| `HomePage.Home.constructor` | app/page.tsx:16-17 | the page starts with an empty list and the form closed |
| `HomePage.Home.FetchSentences` | app/page.tsx:23-31 | a resolved, parsed reply replaces the whole list; otherwise the list is unchanged; the form is untouched |
| `HomePage.Home.OpenForm` | app/page.tsx:93 | opens the form and leaves the list |
| `HomePage.Home.CancelForm` | app/page.tsx:106 | closes the form and leaves the list |
| `HomePage.Home.HandleAddSentence` | app/page.tsx:33-48 | a resolved, parsed reply is prepended whatever its status and the form closes; a rejected request changes neither the list nor the form |
| `HomePage.Home.HandleDelete` | app/page.tsx:50-59 | any resolved DELETE, whatever its status, removes the id; a rejected one leaves the list |
| `HomePage.Home.HandleEdit` | app/page.tsx:61-79 | a resolved, parsed reply replaces every entry with the id; otherwise the list is unchanged |
| `Consistency.AsDoc` | app/page.tsx:9-13 | the page's view of a record carries its id and both texts |
| `Consistency.PostedDoc` | app/page.tsx:42 | the page parses a created record as its document and an error response as an error object, which is not a sentence |
| `Consistency.AddKeepsPageInStep` | app/page.tsx:42-43 | prepending a record created no earlier than all stored ones yields exactly what GET would list after the insert, with ties in `createdAt` listed newest-inserted first |
| `Consistency.FailedAddLeavesStep` | app/page.tsx:42-43 | after a failed add the list starts with the error object and equals no GET listing of any store |
| `Consistency.LoadPage` | app/page.tsx:23-31 | GET followed by the page's fetch handler: a 200 answer leaves the page's list exactly the documents of the store's records, newest first |
| `Consistency.AddSentence` | app/page.tsx:33-48 | starting in step, with no stored record created after the clock reading, POST followed by the page's add handler keeps the page in step when POST succeeds; when it fails, nothing is stored and the error object heads the page's list |

## Left out

- HTTP, `fetch`, JSON parsing and `NextResponse` are not modelled. A response is a `(status, body)` value. A page request is a `Reply`: rejected, or resolved with a status and a parsed body. `None` stands for a body that would not parse.
- Database internals are not modelled: `mongoose.connect`, `find`, `sort`, `create` and model registration (models/Sentence.ts:28). The store is an in-memory class. The connect result is a `Settlement` parameter. A failing query or write is a boolean parameter.
- Connection options (`bufferCommands: false`) are not modelled, nor the environment read of `MONGODB_URI`; the connection string is a parameter.
- Concurrency is not modelled. Calls run one after another, and the pending state is explicit between `Begin` and `Settle`. The only interleaving covered is n callers that all begin before the shared promise settles (`OverlappingCallers`).
- ConnectionCache.MongooseCache.Settle: requires `CanSettle`. A resolved promise is still the cached one, and a rejected one never stored a handle. Interleavings that would break this are not covered.
- Whether the schema library's `required` check refuses an empty string is library behaviour. The model takes it as the parameter `blankIsMissing` of `Sentence.Validate`, `SentenceStore.Store.Create` and `SentencesRoute.Post`, and its contracts cover both values.
- Sentence.Validate: a field given a non-string JSON value is not modelled; the library would cast it.
- SentenceStore.Document: holds only the two declared fields. POST passes the whole body to `create` with no allow-list, and what the library does with other keys is not modelled.
- Sentence.Stamp: the clock is a parameter `now`. Exact timestamp values are not modelled, nor the library's own handling of `updatedAt`.
- SentenceStore.SortNewestFirst: records with equal `createdAt` are listed newest-inserted first. The database leaves their order unspecified.
- The update/delete route (app/api/sentences/[id]/route.ts) is not part of this model. The page's delete and edit handlers take its reply as a parameter.
- HomePage.Home.FetchSentences: takes only array bodies. A 500 reply's error object is not an array, and storing it as the list is not modelled.
- HomePage.Home.HandleEdit: a `null` reply (the id no longer exists) is not modelled.
- Logging with `console.error` is not modelled. The page fetches on mount (`useEffect`), and that mount trigger is not modelled either.
- The presentational components (components/SentenceList.tsx, components/AddSentenceForm.tsx) are not part of this model. The form sends both fields as typed, without validation (components/AddSentenceForm.tsx:17-22).
- Identifiers are natural numbers handed out by the store. The page compares their string form, which is equal exactly when the ids are.
