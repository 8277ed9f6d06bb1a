# Document-signing front end: a verified model of its client-side logic

The front end of a multi-party document-signing workflow keeps a local copy
of every signing request and document. It decodes what the backend sends,
recovers status codes from labels, and decides which operations each user is
offered. This project models that logic in Dafny and proves what it promises.

- **Status catalog** (`Constants`): the eight status codes 0..7 (Unsigned,
  Ready for Signature, Rejected, Delegated, In Process, Signed, Ready for
  Dispatch, Dispatched), their display labels, and the role codes (admin 1,
  officer 2, reader 3).
- **API decoding** (`RequestClient`): the Zod schemas of the request client,
  read as parsers over a JSON value.
  - The `status` transform turns a number into its label. An absent status
    becomes "Unsigned".
  - A body that fails its schema is rejected with "Invalid data from backend".
  - JavaScript objects are kept as ordered lists of entries (`JsValues`), so
    that key order can be stated.
- **Request list** (`RequestsPage`): the state of the list page, as class
  `Requests`, and its handlers.
  - A fetch sorts newest first and recovers `rawStatus` from the label.
  - Search; delete.
  - Signing: optimistic "In Process", then clean-up on every exit.
  - Socket progress and status events.
  - The action menu (`getActions`), the status shown and the reason tooltip.
- **One request** (`RequestPage`): normalisation of the fetched request; the
  spreadsheet rows turned into document entries on upload (nested loops);
  the template header row; the union of data keys as table columns; the
  document status label and buttons.
- **Rejected documents** (`RejectedDocs`): the rejected filter, the columns,
  the tooltip and the label.
- **Document data** (`DocumentData`): removing the `Signature` and `qrCode`
  keys, and the 'N/A' fallbacks.

I/O and clocks become parameters:
- an HTTP call becomes its outcome (`Result`);
- a spreadsheet becomes its header row and data rows;
- `new Date(createdAt).getTime()` becomes a function `timeOf` given to the
  page;
- the session becomes a role code and a user id.

Decisions:
- `undefined` and `NaN` in page state are `None`. A JSON `null` in a
  decoded body is `Json.Null`: the optional fields reject it, and only the
  corrected decoder's `LenientString` reads it as absent.
- Loose equality (`==`) on ids compares two `Option` values. So a missing
  owner equals a missing user id, as in JavaScript.
- Sending for signature is offered to every viewer of an Unsigned request,
  officers included (src/pages/Requests.tsx:384-401). The model follows the
  code.
- "Ready for Dispatch" replaces "Signed" only for readers
  (src/pages/Requests.tsx:533-535), not for the owner. The model follows the
  code.
- Sign, Reject and Delegate on a request Ready for Signature are gated on
  `!isReader`, so administrators qualify as well as officers.
- The source's `Requests.tsx` `Request` type and its `getActions` read
  `createdBy` and `rejectionReason`. The decoder as written drops them (see
  Findings). The rest of the model uses the corrected decoder
  (`RequestClient.ParseRequest`). It reads those keys when they hold a
  string and treats any other value, `null` included, as absent. So it
  accepts exactly the bodies the schema as written accepts.
- A status outside 0..7 decodes to no label. The list then reads it as
  Unsigned: the row shows "Unknown" but offers Send and Delete
  (src/pages/Requests.tsx:47-54, 384-401, 567). The model follows the code.

## Model

| member | source | states |
|---|---|---|
| Constants.RoleOf | src/libs/constants.ts:2-6 | exactly the codes 1, 2, 3 name a role, and a role's code is the code it was read from |
| Constants.RoleCodeRoundTrip | src/libs/constants.ts:2-6 | reading back a role's code gives that role, so the three codes are pairwise distinct |
| Constants.StatusCodesInOrder | src/libs/constants.ts:14-34 | the status codes are 0..7 in enum order, and they are exactly the keys of the label table |
| Constants.Label | src/libs/constants.ts:25-34 | the label table is defined on exactly the codes 0..7 (it is total on them), and no label is empty |
| Constants.LabelsDistinct | src/libs/constants.ts:26-33 | two codes with the same label are the same code |
| RequestClient.DecodeStatus | src/client/request.ts:28-30 | an absent status decodes to "Unsigned"; a number has a label iff it is in 0..7, and then it is that code's catalog label; every label produced is a catalog label |
| RequestClient.ParseEach | src/client/request.ts:52 | an array is accepted iff every element is, and the result holds each element's parse in place |
| RequestClient.Receive | src/client/request.ts:49-62 | a transport error is passed on; a body failing its schema yields the error "Invalid data from backend" and no data; otherwise the parsed body is returned |
| RequestClient.ParseTemplateVariable | src/client/request.ts:15-19 | a template variable is accepted iff it is an object with a string `name` and boolean `required` and `showOnExcel`, and it carries exactly those values |
| RequestClient.ParseDocument | src/client/request.ts:5-13 | a document is accepted iff it is an object of the document shape; it carries the `id`, `name`, `filePath`, `uploadedAt` and `data` sent and its `signStatus` exactly as sent; as written it never has a reason |
| RequestClient.ParseRequestWith | src/client/request.ts:21-33 | a request is accepted iff it is an object of the request shape, with either schema; it carries the `id`, `title` and `createdAt` sent, the `url` read by `OptionalString`, the template variables read by `OptionalArray` and the documents read by `ParseDocuments` from the same body; as written it has no owner and no reason |
| RequestClient.ParseOfficer | src/client/request.ts:39-42 | an officer is accepted iff it is an object with string `id` and `name`, and it carries exactly those |
| RequestClient.RequestBody | src/client/request.ts:67 | `requestSchema.safeParse(res?.data)`, with the corrected schema (which accepts what the source's does): a body is accepted iff it is present and an object of the request shape |
| RequestClient.RequestListBody | src/client/request.ts:52 | `Zod.array(requestSchema).safeParse(res?.data)`, with the corrected schema (which accepts what the source's does): a body is accepted iff it is an array all of whose elements are requests, and the result holds each element's parse in place |
| RequestClient.OfficerListBody | src/client/request.ts:83 | a body is accepted iff it is an array all of whose elements are officers, and the result holds each element's parse in place |
| RequestClient.ParsedRequestHasCounts | src/client/request.ts:25-26 | an accepted request body holds numeric `documentCount` and `rejectedCount`, and they are the values carried |
| RequestClient.ParsedRequestStatus | src/client/request.ts:28-30 | an accepted request's status is the catalog label of the number sent, and "Unsigned" when none was sent |
| RequestClient.DocumentStatusUnchecked | src/client/request.ts:5-13 | a document's `signStatus` is not checked: any value (or none) leaves acceptance unchanged and is carried as sent |
| RequestClient.AsWrittenDropsOwnerAndReasons | src/client/request.ts:21-33 | with the schemas as written, a decoded request never has an owner or a rejection reason, and neither do its documents |
| RequestClient.AsWrittenDocumentsHaveNoReason | src/client/request.ts:5-13 | with the document schema as written, no decoded document carries a rejection reason |
| RequestClient.OptionalArray | src/client/request.ts:31 | `Zod.array(…).optional()`: an absent key decodes to no list, and a decoded list has one element per array item, each that item's parse |
| RequestClient.ParseDocuments | src/client/request.ts:32 | the optional document list is accepted iff it is absent or an array of objects of the document shape, with either schema; an absent list decodes to none, and a decoded list has one document per element, each that element's `ParseDocument` |
| RequestClient.LenientString | src/client/request.ts:5-33 | a key the schema as written strips is read as its string, and as absent when it holds anything else |
| RequestClient.SchemasAcceptAlike | src/client/request.ts:5-33 | the corrected decoder accepts a request or a document iff the decoder as written does, and then differs only in the owner and the reasons |
| RequestClient.CorrectedToleratesNullReason | src/client/request.ts:21-33 | a request whose `rejectionReason` is `null` is accepted by both decoders and decodes to no reason |
| RequestClient.CorrectedKeepsOwnerAndReason | src/client/request.ts:21-33 | with the corrected decoder, an owner and a reason sent as strings are the ones decoded |
| RequestClient.CorrectedDocumentKeepsReason | src/client/request.ts:5-13 | with the corrected decoder, a document reason sent as a string is the one decoded |
| RequestsPage.FindCode | src/pages/Requests.tsx:49-53 | the result is the smallest code from the start point whose label matches; no result means no code from there has that label |
| RequestsPage.LookupCode | src/pages/Requests.tsx:47-54 | the result is a code whose label is the given one; there is none exactly when no code has that label |
| RequestsPage.RawStatus | src/pages/Requests.tsx:47-54 | a missing or empty label gives Unsigned; otherwise the code carrying that label, or no code (`NaN`) when no code carries it |
| RequestsPage.LabelRoundTrip | src/pages/Requests.tsx:47-54 | looking up the label of any code 0..7 gives back that code |
| RequestsPage.DecodeThenLookup | src/pages/Requests.tsx:47-54 | decoding then looking up returns a code in 0..7 unchanged; an absent status, or a number out of range, comes back as Unsigned |
| RequestsPage.Insert | src/pages/Requests.tsx:42-44 | insertion yields the list plus the new element, a permutation, holding nothing else |
| RequestsPage.InsertNewestFirst | src/pages/Requests.tsx:42-44 | inserting into a newest-first list keeps it newest first |
| RequestsPage.SortNewestFirst | src/pages/Requests.tsx:42-44 | the sort is a permutation of its input, ordered by decreasing `createdAt` time |
| RequestsPage.ToListRequest | src/pages/Requests.tsx:45-55 | a row carries the request's id, title, document and rejected counts, creation time, status label, owner and reason, and its `rawStatus` is the code whose label the request shows (so every row is consistent) |
| RequestsPage.InsertThenRows | src/pages/Requests.tsx:42-55 | inserting and then mapping to rows gives the rows plus the new row, as multisets |
| RequestsPage.SortThenRows | src/pages/Requests.tsx:42-55 | sorting and then mapping to rows is a permutation of mapping to rows |
| RequestsPage.FetchedRows | src/pages/Requests.tsx:42-55 | the list after a fetch is a permutation of the fetched requests' rows, newest first, every row's `rawStatus` agreeing with its label |
| RequestsPage.Lower | src/pages/Requests.tsx:97 | lower-casing keeps the length and lower-cases each ASCII letter in place |
| RequestsPage.Includes | src/pages/Requests.tsx:97 | `includes` holds iff the query occurs at some position of the title |
| RequestsPage.SearchResults | src/pages/Requests.tsx:94-100 | the search keeps exactly the requests whose lower-cased title contains the lower-cased query, as often as before, in their original order |
| RequestsPage.EmptySearchKeepsAll | src/pages/Requests.tsx:96-98 | an empty query keeps the whole list |
| RequestsPage.WithoutRequest | src/pages/Requests.tsx:179-180 | deletion removes exactly the rows with that id; every other row stays, as often as before, in order |
| RequestsPage.WithStatus | src/pages/Requests.tsx:195-216 | only rows with the matching id change, and they get the code and its label; all others are untouched and in place |
| RequestsPage.WithStatusConsistent | src/pages/Requests.tsx:195-216 | setting a catalog status keeps every row's label equal to the label of its `rawStatus` |
| RequestsPage.EventStatus | src/pages/Requests.tsx:345-346 | a status event means In Process exactly when it says "inProcess", and Signed otherwise |
| RequestsPage.OnlyCloneWhenSettled | src/pages/Requests.tsx:376-460 | a row whose code is Rejected, In Process or Dispatched, or `NaN`, offers only Clone, to every viewer (an unknown backend status never reaches this lemma: it becomes Unsigned, see `UnknownStatusActedOnAsUnsigned`) |
| RequestsPage.UnknownStatusActedOnAsUnsigned | src/pages/Requests.tsx:47-54 | a backend status outside 0..7 gives a row read as Unsigned, shown as "Unknown" and offered Send and Delete |
| RequestsPage.DisplayStatus | src/pages/Requests.tsx:533-567 | a reader sees a Signed request as "Ready for Dispatch"; otherwise the stored label is shown, or "Unknown" when there is none |
| RequestsPage.DisplayStatusMeaning | src/pages/Requests.tsx:533-567 | on a consistent row, "Ready for Dispatch" is shown iff a reader views a Signed request or the code is Ready for Dispatch; a catalog label always shows a catalog label |
| RequestsPage.ReasonTooltip | src/pages/Requests.tsx:541-543 | the tooltip is non-empty iff the request is Rejected and has a non-empty reason, and then it reads "Reason: " plus the reason |
| RequestsPage.Requests.constructor | src/pages/Requests.tsx:32-36 | the page starts with empty lists, no signing in progress, and `isReader` exactly for role code 3 |
| RequestsPage.Requests.LoadRequests | src/pages/Requests.tsx:38-63 | the response goes through the list schema (`getRequests`); after a successful fetch both lists are the fetched rows, newest first; after a failed one (transport error or a body the schema rejects) nothing changes; consistency is kept |
| RequestsPage.Requests.LoadOfficers | src/pages/Requests.tsx:65-73 | the response goes through the officer-list schema (`getOfficers`); the officer list is replaced on success and kept on failure |
| RequestsPage.Requests.Search | src/pages/Requests.tsx:94-100 | the query is stored and the shown list becomes the search over the full list |
| RequestsPage.Requests.DeleteRequest | src/pages/Requests.tsx:174-187 | once the backend has deleted it, the id leaves both lists and nothing else does; a failed call changes nothing |
| RequestsPage.Requests.UpdateStatus | src/pages/Requests.tsx:195-216 | both lists get the status on the matching id only, and the page invariant is kept |
| RequestsPage.Requests.StartSign | src/pages/Requests.tsx:189-216 | the request is marked as being signed and shown In Process in both lists |
| RequestsPage.Requests.FinishSign | src/pages/Requests.tsx:217-236 | on every exit the signing id is cleared and the request's progress entry deleted; a failure refetches the list through the list schema, and a success keeps it |
| RequestsPage.Requests.AbandonSign | src/pages/Requests.tsx:189-236 | when the form does not validate, the list is refetched, the signing id cleared and no progress entry touched |
| RequestsPage.Requests.OnSigningProgress | src/pages/Requests.tsx:320-325 | only the entry of that request is overwritten with {current, total}; every other entry is kept |
| RequestsPage.Requests.OnStatusUpdate | src/pages/Requests.tsx:339-362 | both lists get In Process or Signed on the matching id only, and the page invariant is kept |
| RequestsPage.Requests.GetActions | src/pages/Requests.tsx:376-460 | Clone comes first and is always enabled; an action is offered iff the table `ActionOffered` allows it (Send and Delete on Unsigned; Sign on Delegated to its owner; Sign, Reject and Delegate on Ready for Signature to a non-reader who is not the owner; Print and Download on Signed, Dispatch there to a reader); `ActionDisabled` greys out Send without documents or officers and Sign while this request is being signed; no action appears twice, and the entries come in the order the branches push them (`MenuRank`) |
| RequestsPage.AsWrittenOwnerCannotSignDelegated | src/pages/Requests.tsx:402-412 | with the decoder as written, a signed-in owner is never offered Sign on their Delegated request |
| RequestsPage.NoOwnerNoSign | src/pages/Requests.tsx:402 | a Delegated row without an owner is offered Sign to no signed-in user |
| RequestsPage.AsWrittenHidesRejectionReason | src/pages/Requests.tsx:541-543 | with the decoder as written, the reason tooltip is always empty |
| RequestsPage.AsWrittenOwnerOfferedOwnReady | src/pages/Requests.tsx:413-439 | with the decoder as written, every signed-in non-reader, the author included, is offered Sign, Reject and Delegate on a request Ready for Signature |
| RequestsPage.NoOwnerOfferedReady | src/pages/Requests.tsx:413 | a Ready-for-Signature row without an owner offers the signing actions to every signed-in non-reader |
| RequestsPage.CorrectedOwnerNotOfferedOwnReady | src/pages/Requests.tsx:413-439 | with the corrected decoder, the author of a Ready-for-Signature request is offered none of Sign, Reject and Delegate on it |
| RequestsPage.OwnerNotOfferedReady | src/pages/Requests.tsx:413 | a Ready-for-Signature row offers its own owner none of Sign, Reject and Delegate |
| RequestsPage.CorrectedOwnerSignsDelegated | src/pages/Requests.tsx:402-412 | with the corrected decoder, the owner of a Delegated request is offered Sign |
| RequestsPage.CorrectedShowsRejectionReason | src/pages/Requests.tsx:541-543 | with the corrected decoder, a rejected request sent with a reason shows "Reason: " plus it |
| RequestPage.NormalizeDocument | src/pages/Request.tsx:51-55 | a missing or falsy document status becomes Unsigned and a truthy one is kept; id, name, file path, upload time, signed date and data are unchanged |
| RequestPage.NormalizeRequest | src/pages/Request.tsx:49-57 | missing documents and template variables become empty lists; each document is normalised; id, title, status and document count are unchanged |
| RequestPage.NormalizedStatuses | src/pages/Request.tsx:51-56 | a normalised request has one document per document received, each with a defined status (truthy, or Unsigned) |
| RequestPage.RequestView.constructor | src/pages/Request.tsx:38-39 | the page starts with the route id and no request |
| RequestPage.RequestView.LoadRequest | src/pages/Request.tsx:43-63 | without an id, or after a failed fetch (transport error, or a body `requestSchema` rejects), nothing changes; after a successful one the request is the normalised one |
| RequestPage.Cell | src/pages/Request.tsx:84 | a present truthy cell is kept; a missing or falsy one becomes '' |
| RequestPage.RowData | src/pages/Request.tsx:82-85 | the row record has one key per distinct header, in order of first appearance, holding the cell under the last column with that header, and no other key |
| RequestPage.FillRow | src/pages/Request.tsx:82-85 | the loop over the headers builds exactly the row record |
| RequestPage.RowDataStep | src/pages/Request.tsx:83-85 | one more header writes one more key into the row record |
| RequestPage.PushSheet | src/pages/Request.tsx:78-93 | the loop over a file's rows appends that file's entries, in row order, after those already built |
| RequestPage.BuildDataEntries | src/pages/Request.tsx:70-94 | the nested loops build exactly the entries of all files, file after file, row after row |
| RequestPage.AllEntriesShape | src/pages/Request.tsx:78-93 | one entry per data row (the header row yields none), each Unsigned and named after one of the files |
| RequestPage.SheetEntriesShape | src/pages/Request.tsx:81-92 | a file yields one Unsigned entry per data row, in row order, named after that file and holding that row's data |
| RequestPage.AllEntriesAppend | src/pages/Request.tsx:78-93 | the entries of two batches of files are the first batch's followed by the second's |
| RequestPage.FileEntriesInPlace | src/pages/Request.tsx:78-93 | the entries of file k form one block between those of the files before and after it, so every entry is named after the file its row came from |
| RequestPage.ExcelNames | src/pages/Request.tsx:116-118 | the i-th name is the name of the i-th variable marked `showOnExcel`, and there are exactly as many names as marked variables (repeats included) |
| RequestPage.ExcelNamesInOrder | src/pages/Request.tsx:116-118 | the names keep their declaration order: a first variable, when marked, contributes its name before all the others, no variables give no names, and the names are a subsequence of the declared names |
| RequestPage.TemplateHeaders | src/pages/Request.tsx:109-123 | with no request, "No template variables available"; with no variable marked, "No variables to include in Excel template" and no header row; otherwise the non-empty marked names |
| RequestPage.DataKeysMembers | src/pages/Request.tsx:176-179 | a key is gathered iff some document's data has it |
| RequestPage.AddKeys | src/pages/Request.tsx:178 | adding a document's keys to the Set extends it in first-appearance order |
| RequestPage.GetColumns | src/pages/Request.tsx:175-243 | the columns are one data column per gathered key, in Set order, then Sign Date, Request Status and Actions |
| RequestPage.DataColumnsMeaning | src/pages/Request.tsx:176-186 | a data column exists iff some document uses the key, and no key has two columns |
| RequestPage.DocStatusLabel | src/pages/Request.tsx:200-207 | only Unsigned, Signed and Delegated have a label on this page, and it is the catalog label; anything else is "Unknown" |
| RequestPage.DocActions | src/pages/Request.tsx:212-240 | Download iff Signed, Preview iff Unsigned or Delegated, Delete iff Unsigned, each at most once |
| RequestPage.ActionsNeedLabel | src/pages/Request.tsx:200-240 | a row with a button has a known label, and a deletable row can be previewed |
| RequestPage.MissingStatusIsUnsigned | src/pages/Request.tsx:53 | a document received without a status shows "Unsigned" and offers Preview then Delete |
| RejectedDocs.RejectedRows | src/pages/RejectedDocs.tsx:22-29 | the rows are exactly the documents with status 2, in their received order, one row per such document, with their data and reason |
| RejectedDocs.LoadRejected | src/pages/RejectedDocs.tsx:20-32 | the page keeps the rejected rows (none when the request has no documents) and the variables, defaulting to none |
| RejectedDocs.Columns | src/pages/RejectedDocs.tsx:56-93 | one column per marked variable, in declaration order, then Sign Date and Request Status |
| RejectedDocs.StatusTooltip | src/pages/RejectedDocs.tsx:82-86 | for status 2, "Reason: r" with a reason and "No reason provided" without; for any other status, empty |
| RejectedDocs.StatusText | src/pages/RejectedDocs.tsx:88 | a code 0..7 shows its catalog label, anything else "Unknown" |
| RejectedDocs.RowsShowRejected | src/pages/RejectedDocs.tsx:80-88 | every row shows "Rejected" with a non-empty tooltip |
| RejectedDocs.AsWrittenReasonNeverShown | src/pages/RejectedDocs.tsx:82-86 | with the decoder as written, every row says "No reason provided" |
| RejectedDocs.CorrectedReasonShown | src/pages/RejectedDocs.tsx:82-86 | with the corrected decoder, a rejected document sent with a reason shows "Reason: " plus it |
| DocumentData.FilteredData | src/pages/DocumentData.tsx:38-40 | no `Signature` or `qrCode` key remains; every other key keeps its value; the keys keep their order |
| DocumentData.FilteredDataIdempotent | src/pages/DocumentData.tsx:38-40 | filtering twice is filtering once |
| DocumentData.FilterKeepsEntries | src/pages/DocumentData.tsx:38-40 | every entry kept is an entry of the data with a listed key |
| DocumentData.FilterNoHidden | src/pages/DocumentData.tsx:38-40 | data without hidden keys is left as it is |
| DocumentData.DescriptionText | src/pages/DocumentData.tsx:46 | a missing or empty description shows 'N/A', any other as it is |
| DocumentData.DisplayedEntries | src/pages/DocumentData.tsx:50-52 | the listed items are the filtered keys in order, every value shown is truthy, and truthy values are shown as they are |
| DocumentData.DisplayedGet | src/pages/DocumentData.tsx:51 | each listed key shows its value, or 'N/A' when the value is falsy |
| Seqs.Filter | src/pages/Requests.tsx:96-98 | `filter` keeps exactly the elements satisfying the test, as often as before, in order |
| Seqs.Dedup | src/pages/Request.tsx:176-181 | the Set holds every element once, and nothing else, in the order of the input |
| Seqs.DedupSnoc | src/pages/Request.tsx:178 | adding to a Set appends a new element and ignores a present one |
| Seqs.DedupFirstAppearanceOrder | src/pages/Request.tsx:176-181 | an element listed earlier in the Set first appeared earlier in the input |
| JsValues.Put | src/pages/Request.tsx:84 | a property write keeps an existing key in place or appends a new one, and changes no other key |

## Left out

- HTTP, axios, FormData, console logging, `message` pop-ups and the Zod
  library itself: each call is replaced by its outcome.
- The sockets: events are handlers applied one at a time. Delivery timing,
  ordering, and events arriving after signing ends are not modelled.
- The backend: its transitions, batch signing and per-document outcomes.
  The chosen signature id has no effect in the client.
- Spreadsheets and Date values:
  - XLSX reading and writing: a sheet is its header row and data rows, and
    header cells are strings (no string coercion of other cell types).
  - Blob, `window.open`, printing, and `toLocaleDateString`.
  - `new Date(...).getTime()` is the parameter `timeOf`. Invalid dates, which
    make the comparator return `NaN`, are not modelled.
- Fresh values: the ObjectId and `createdAt` of uploaded entries.
- Rendering: antd widgets, the drawers, tag colours, the progress bar, and
  the 'Loading...' titles. The Clone, Send, Reject, Delegate, Print,
  Download and Dispatch handlers after the menu are also not modelled.
- Pages with no client logic: TemplatePreview (a wrapper over `atob` and
  Blob) and Signatures (upload plumbing).
- The interface files under src/@types: they became the datatypes.
- Numbers are integers: fractional and non-finite numbers are not modelled.
- JavaScript objects are ordered entry lists. Reordering integer-like keys
  first, and coercing keys to strings, are not modelled.
- RequestsPage.ToListRequest: the row drops the request's `url`,
  `templateVariables` and `documents`, which `{...req}` keeps. The list page
  reads none of them.
- RequestsPage.Lower: lower-cases ASCII letters only, not full Unicode
  `toLowerCase`.
- RequestsPage.SortNewestFirst: the insertion sort is stable, like
  `Array.prototype.sort`, but stability is not proved; only the permutation
  and the order are.
- RequestPage.DocStatusLabel: a status sent as the string "0", "3" or "5"
  would also find its label through JavaScript's key coercion. The model
  shows every non-number as "Unknown".
- RejectedDocs.StatusText: the same key coercion for string statuses is not
  modelled.
- Duplicate keys: an entry list may repeat a key. `Get` returns the first
  entry, whereas `JSON.parse` keeps the last value. The model takes decoded
  objects to have distinct keys, as `JSON.parse` yields.
- RejectedDocs.ToRow: the row drops the document's `name`, `filePath` and
  `uploadedAt`, which `{...doc}` keeps. The rejected-documents table reads
  none of them.
- RequestPage.NormalizeDocument: the `data || {}` fallback cannot fire
  after decoding, because `data` is always an object.

## Findings

| source | as written | input that shows it | evidently intended | confidence | as-written member | corrected member |
|---|---|---|---|---|---|---|
| src/client/request.ts:21-33 | `requestSchema` does not declare `createdBy`, and a Zod object strips undeclared keys, so no decoded request has an owner | a request with status 3 (Delegated) and `createdBy` "u1", viewed by user "u1" | the owner of a Delegated request is offered Sign (src/pages/Requests.tsx:402) | medium, not executed | RequestsPage.AsWrittenOwnerCannotSignDelegated | RequestsPage.CorrectedOwnerSignsDelegated |
| src/client/request.ts:21-33 | `requestSchema` does not declare `rejectionReason`, so the list's tooltip is always empty | a request with status 2 (Rejected) and `rejectionReason` "wrong name" | the tooltip reads "Reason: wrong name" (src/pages/Requests.tsx:541-543) | medium, not executed | RequestsPage.AsWrittenHidesRejectionReason | RequestsPage.CorrectedShowsRejectionReason |
| src/client/request.ts:21-33 | with `createdBy` stripped, `record.createdBy != userId` always holds, so the owner check on Ready for Signature never fires | a request with status 1 (Ready for Signature) and `createdBy` "u1", viewed by non-reader "u1" | the author is not offered Sign, Reject or Delegate on their own request (src/pages/Requests.tsx:413) | medium, not executed | RequestsPage.AsWrittenOwnerOfferedOwnReady | RequestsPage.CorrectedOwnerNotOfferedOwnReady |
| src/client/request.ts:5-13 | `documentSchema` does not declare `rejectionReason`, so every rejected document says "No reason provided" | a document with `signStatus` 2 and `rejectionReason` "wrong name" | the tooltip reads "Reason: wrong name" (src/pages/RejectedDocs.tsx:82-86) | medium, not executed | RejectedDocs.AsWrittenReasonNeverShown | RejectedDocs.CorrectedReasonShown |
