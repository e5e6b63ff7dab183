# Verified model of the PDF merge panel and the audit-log page

This project models the two pieces of real logic in a React document-review front end:

- **The merge panel** (`src/MergePDF.jsx`). The user fills up to four file slots. A merge keeps the filled slots in slot order and refuses fewer than two. It then loads every file, stopping at the first failure with an error that names the file's 1-based position. Otherwise the first document becomes the destination, and every later document's pages `1..pageCount` are inserted at `pageCount + 1` of the destination, one document at a time. The panel's `merging`, `mergedUrl` and `error` state follows every path.
- **The audit-log page** (`src/AuditLog.jsx`). It reads the records stored under the key `pdftron-auditlog`, gives each record the fields the table shows (`user` forced to `'Guest'`, `currentPage` from `page` or `'-'`, `document` kept or `'N/A'`), and can clear the log.

Modules:

- `Common` (`common.dfy`): `Option`, `Result`, and the decimal rendering JavaScript uses when it concatenates a number to a string. It comes with its read-back round trip.
- `Documents` (`documents.dfy`): the document library as the merge uses it. A document is a sequence of pages. `insertPages` is a sequence splice, `getPageCount` is the length, and `createDocument` either yields the file's pages or an error. The `Document` class holds the pages that `insertPages` updates in place. `Concat` and `TotalPages` are the reference for the merge result.
- `MergePdf` (`merge_pdf.dfy`): the slot filter, the load step and the merge loop. `MergePanel` is a class whose fields are the component's state. `MergeOf` is the reference outcome that `HandleMerge` is proved against.
- `AuditLog` (`audit_log.dfy`): parsed JSON values, JavaScript truthiness, object spread, the enrichment map and the read-back. `Storage` and `AuditLogView` are classes for local storage and the page's `logs` state.

Local storage maps a key to the stored text. The model represents that text by what `JSON.parse` makes of it: a value, or `None` when parsing throws. The document library, `JSON.parse`, `localStorage`, `Blob` and object URLs are outside the model. They appear only as the behaviours stated here.

## Model

| member | source | states |
|---|---|---|
| Common.NatToString | src/MergePDF.jsx:59 | The text `(i+1)` becomes in the error: non-empty, all decimal digits, and starting with '0' only for zero |
| Common.DecimalRoundTrip | src/MergePDF.jsx:59 | Reading the decimal text back gives the number, so the position can be recovered from the message |
| Common.NatToStringInjective | src/MergePDF.jsx:59 | Different positions give different decimal texts |
| Documents.PageRange | src/MergePDF.jsx:66 | The page list has exactly `pageCount` entries, and entry k is k + 1 |
| Documents.PageRangeIsIncreasingAndValid | src/MergePDF.jsx:66 | The page list is strictly increasing, and every entry names a page of the source document |
| Documents.SelectFullRange | src/MergePDF.jsx:65-67 | Selecting pages `1..pageCount` of a document gives all its pages, in their order |
| Documents.InsertedPages | src/MergePDF.jsx:67 | `insertPages(src, pages, at)` is accepted exactly when `1 <= at <= count + 1` and every page number exists in `src`. When accepted, the destination grows by the number of listed pages, keeps its first `at - 1` pages and its tail, and holds the listed source pages in list order in between |
| Documents.AppendStep | src/MergePDF.jsx:65-67 | Inserting a document's full page range at its destination's `getPageCount() + 1` is always accepted, and appends that document's pages at the end |
| Documents.ConcatLength | src/MergePDF.jsx:62-68 | The concatenated document's page count is the sum of the inputs' page counts |
| Documents.ConcatBlock | src/MergePDF.jsx:62-68 | Page j of input k is page `TotalPages(inputs[..k]) + j` of the result: each input is one contiguous block in list order, with its own page order kept |
| Documents.Document.InsertPages | src/MergePDF.jsx:67 | The document's new pages are the splice `InsertedPages` describes, or unchanged when the call is rejected. `ok` says which happened, and an accepted call raises the page count by the number of listed pages |
| Documents.Document.PageCount | src/MergePDF.jsx:65-67 | `getPageCount()` is the number of pages the document holds, so an accepted `insertPages` raises it by the number of listed pages (stated on `InsertPages`) |
| Documents.Document.GetFileData | src/MergePDF.jsx:70-72 | The serialised document carries exactly the document's current pages |
| Documents.CreateDocument | src/MergePDF.jsx:57 | A readable file gives a fresh document holding its pages. An unreadable one gives the library's error reason |
| MergePdf.Selected | src/MergePDF.jsx:47 | `files.filter(f => f)` keeps at most one file per slot. Which files, and in which order, is stated by `SelectedIsFilledSlotsInOrder` |
| MergePdf.SelectedIsFilledSlotsInOrder | src/MergePDF.jsx:47 | `files.filter(f => f)` holds exactly the filled slots' files. The k-th selected file is the file of the k-th filled slot, the slot indices increase, and a slot is listed exactly when it is filled |
| MergePdf.FirstUnreadable | src/MergePDF.jsx:55-61 | The index found is of a file that fails to load, with every earlier file loading. None means every file loads |
| MergePdf.LoadFailureMessage | src/MergePDF.jsx:59 | The message starts with `'Failed to load file #'`, the digits after it read back as the 1-based position `i + 1`, and it ends with the reason |
| MergePdf.LoadFailureMessageInjective | src/MergePDF.jsx:59 | Two `'Failed to load file #' + (i+1) + ': ' + reason` messages are equal only when position and reason are equal, so the message names one file |
| MergePdf.LoadAll | src/MergePDF.jsx:55-61 | Loading succeeds exactly when every selected file is readable, and then gives each file's pages in list order. A failure carries the message of a file that fails to load and is preceded only by files that load |
| MergePdf.MergeOf | src/MergePDF.jsx:45-80 | The merge is refused as "too few" exactly when fewer than two files are selected. Otherwise, without the Core, the message is exactly `'Merge failed: PDFTron Core not loaded yet.'`. With it, a failure's message is `'Merge failed: '` followed by the load failure of a selected file that fails and is preceded only by files that load, so it names that file's position `#(i+1)` and its reason. The merge succeeds exactly when at least two files are selected, the Core is loaded and every file loads, and the result then has the sum of their page counts |
| MergePdf.MergedLayout | src/MergePDF.jsx:62-68 | A successful merge has the sum of the selected files' page counts, and page j of the k-th selected file sits at offset j of that file's block |
| MergePdf.SingleFileIsRefused | src/MergePDF.jsx:47-48 | Four slots of which exactly one, any one, is filled give the "too few files" outcome, with or without the Core |
| MergePdf.ThreePagesThenTwo | src/MergePDF.jsx:62-68 | A three-page and a two-page file merge to A1, A2, A3, B1, B2 |
| MergePdf.SecondFileFails | src/MergePDF.jsx:55-61 | If the second of three files fails to load, the merge fails with `'Merge failed: Failed to load file #2: ' + reason` |
| MergePdf.LoadDocuments | src/MergePDF.jsx:55-61 | Files load in list order, stopping at the first failure. The result is that failure's message, or fresh, pairwise distinct documents, one per file, holding the files' pages |
| MergePdf.AppendDocuments | src/MergePDF.jsx:62-68 | The loop inserts into the first document and no other. Every insertion is accepted, and the first document ends with the concatenation of all inputs in list order |
| MergePdf.MergePanel.constructor | src/MergePDF.jsx:7-12 | Four empty slots, not merging, no merged URL, empty error, no Core yet |
| MergePdf.MergePanel.AttachCore | src/MergePDF.jsx:28-29 | Attaching the Core only marks it loaded |
| MergePdf.MergePanel.HandleFileChange | src/MergePDF.jsx:36-42 | Only slot `idx` changes, and there are still four slots. The merged URL and the error are cleared. `merging` and the Core are untouched |
| MergePdf.MergePanel.HandleMerge | src/MergePDF.jsx:45-80 | The final state is the one `MergeOf` predicts, and the slots are unchanged. Too few files set the "Select at least two" error and leave `merging` and `mergedUrl` as they were. A missing Core or a load failure sets `'Merge failed: '` plus the reason, clears `mergedUrl` and ends with `merging` false. Success clears the error, sets `mergedUrl` to the concatenated pages and ends with `merging` false |
| AuditLog.Truthy | src/AuditLog.jsx:10 | A JSON value is falsy in JavaScript exactly when it is `null`, `false`, `0` or the empty string |
| AuditLog.OrDefault | src/AuditLog.jsx:10 | A logical or of `log[key]` with a fallback string keeps the field when it is present and truthy, and is the fallback string otherwise. The result is truthy exactly when the field is or the fallback is non-empty |
| AuditLog.Indexed | src/AuditLog.jsx:10 | A list's elements become properties under the keys `"0"`, `"1"`, ..., one per element, and there is no other key |
| AuditLog.Spread | src/AuditLog.jsx:10 | `{ ...log }` copies an object's fields unchanged. An array's elements and a string's characters appear under their decimal indices `"0"` to `"n-1"`, and there are no other keys. Null, a boolean and a number give no properties |
| AuditLog.NonObjectShowsDefaults | src/AuditLog.jsx:10 | A stored element that is neither an object nor null has no `page` or `document` property, so its record shows `'-'` and `'N/A'`. A null element empties the whole list instead (see `ReadLogs`) |
| AuditLog.Enrich | src/AuditLog.jsx:10 | `user` is `'Guest'` even when the record had one. `currentPage` is `page` when truthy, else `'-'`. `document` is kept when truthy, else `'N/A'`. Every other field is unchanged and no field is added |
| AuditLog.EnrichIdempotent | src/AuditLog.jsx:10 | Enriching an enriched record gives it back unchanged |
| AuditLog.EnrichLogs | src/AuditLog.jsx:10 | The map keeps the number and the order of the records. Record k of the result is the enrichment of stored element k |
| AuditLog.StoredValue | src/AuditLog.jsx:9 | A missing key reads as `'[]'`, the empty array. A stored entry is read as it was parsed |
| AuditLog.ReadLogs | src/AuditLog.jsx:8-14 | A missing key reads as the empty list. So do a parse failure, a parsed value that is not an array, and an array holding a null (reading `log.page` on it throws). Every record shown has `user = 'Guest'` |
| AuditLog.ReadLogsPreservesOrder | src/AuditLog.jsx:9-11 | With a stored array free of nulls, the page shows one enriched record per stored element, in stored order |
| AuditLog.ReadBackIsStable | src/AuditLog.jsx:9-11 | Storing the shown records back under the key and reading again shows the same records |
| AuditLog.Storage.RemoveItem | src/AuditLog.jsx:18 | The key is gone and every other entry is unchanged |
| AuditLog.AuditLogView.constructor | src/AuditLog.jsx:4 | The page starts with no records shown |
| AuditLog.AuditLogView.LoadLogs | src/AuditLog.jsx:6-15 | After the mount effect, the page shows exactly `ReadLogs` of the store. A throwing step gives the empty list |
| AuditLog.AuditLogView.ClearLogs | src/AuditLog.jsx:17-20 | The key is removed and nothing else in storage changes. The page shows nothing, and a fresh read gives the empty list. Clearing an already cleared log leaves storage as it was |

## Left out

- The WebViewer/Core initialisation effect (src/MergePDF.jsx:15-33) is left out: its worker path, its licence key and its failure message `'Failed to load PDFTron Core: '`. `AttachCore` stands for its successful end (lines 28-29) only.
- `Promise.all` at src/MergePDF.jsx:55 loads in parallel and reports whichever rejection comes first in time. The model loads in list order and reports the first failing position. Which error wins a race is concurrency behaviour and is not modelled.
- The error text `e.message || e` (src/MergePDF.jsx:59, 77) is abstracted to a reason string carried by the file or the thrown error.
- `docToInsert.getPageCount()`, `insertPages` and `getFileData` are awaited in the source, and the model treats them as immediate. `mergedDoc.getPageCount() + 1` at src/MergePDF.jsx:67 is not awaited: the model relies on that call returning the page count synchronously as a number.
- `getFileData` is treated as always succeeding, and its bytes are represented by the document's pages. A failure there would be caught at lines 76-79; that path is not modelled.
- `insertPages` can reject a call. The model proves that every call the merge loop makes is accepted (`AppendStep`, `AppendDocuments`), so the catch block never sees an insertion error. A library failure beyond those documented preconditions is not modelled.
- `Blob` and `URL.createObjectURL` (src/MergePDF.jsx:74), and the download link with its fixed name `merged.pdf`, are not modelled. `mergedUrl` holds the pages the URL would serve.
- React state updates are batched and asynchronous. `HandleMerge` is one step from the state before to the state after. The intermediate `merging = true` state and the disabled inputs and button (src/MergePDF.jsx:93, 112) are rendering concerns.
- `MergePdf.MergePanel.HandleFileChange` requires `idx < 4`, and the page only calls it with the slot indices 0-3 (src/MergePDF.jsx:86, 92). What JavaScript does with a larger index (it grows the array) is not modelled.
- `MergePdf.MergePanel.HandleMerge`: its contract does not say that no document is loaded when fewer than two files are picked. The body returns before `LoadDocuments`, but a contract over the panel's state cannot observe library calls.
- The system's design calls for releasing the loaded documents after a merge. src/MergePDF.jsx never disposes of them, so the model, following the code, has no release step.
- `JSON.parse` and `localStorage` are abstracted (src/AuditLog.jsx:9, 18). A stored empty string reads as `'[]'` in the source through `||`, but in the model it is a parse failure. Both give the empty list.
- JSON numbers are modelled as integers. Only zero versus non-zero matters for `log.page || '-'`, and JSON cannot produce `NaN`. Object spread of a string is taken character by character, not by UTF-16 code unit. Prototype-related keys such as `__proto__` are not modelled.
- Appending audit events and normalising viewer events are not in src/AuditLog.jsx and are not part of this model. The system's design also calls for newest-first read-back ordered by a sequence counter. The code shows records in stored order, and the model follows the code.
- src/App.jsx (navigation chrome and the folder tree), src/DonorOverview.jsx (static grids and the row-resize clamp) and src/PdfTronViewer.jsx (viewer mounting) are presentational and not part of this model.
- All JSX rendering and styling is left out.
