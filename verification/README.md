# my_tools flashcard store, toast queue and upload list — a Dafny model

This project models the core logic of the my_tools web app. There are four parts.

- **The flashcard day store** (`json.dfy`, `learn.dfy`, `store.dfy`):
  - the vocabulary validator `toVocabItem` / `normalizeArray` and the `day-N.json` file-name parser;
  - the five routes over the `public/learn` directory: save-day, get, list, learn.json and delete.
  - The directory is a map from file name to what reading that file yields: unreadable, empty text, text that is not JSON, or a parsed JSON value.
  - `DayStore` is a class whose `files` field the save and delete routes update.
  - Iteration over the directory visits the names in an unspecified order, like `readdir`.
- **The toast queue** (`toast.dfy`): `ToastProvider` with its newest-first list of at most six toasts, its id counter and its timer map.
- **The flashcard index page** (`flashcard.dfy`):
  - its copy of the validator;
  - the JSON import up to the save-day request;
  - the open/closed map of listed days;
  - the item total and the first key.
- **The ImgBB upload page list** (`imgbb.dfy`):
  - admission of picked files under the 32 MiB limit;
  - the per-id status updates made by the upload callbacks;
  - remove, clear-all and clear-done;
  - the two counters;
  - the exported link list.

JavaScript semantics that matter to the results are written out:
- optional chaining with `??`, where missing and `null` both fall back;
- truthiness;
- object spread, where a key present with `undefined` differs from a missing key;
- `parseInt(...) || 0`;
- the text of the `TypeError` message that reading a property of a missing value produces.

Day numbers are not reserved. In the save-day route, the next number is one more than the highest number present. Gaps below the highest number are never filled. When day n is the highest and day n-1 is present, deleting day n makes n the next number again. `Store.DeletingHighestAllowsReuse` proves this.

## Model

| member | source | states |
|---|---|---|
| Learn.StringsOnly | src/lib/learn.ts:26-29 | a string is kept iff it occurs as a string element; never longer than the input |
| Learn.StringsOnlyAppend | src/lib/learn.ts:27-29 | the filter distributes over concatenation, so the strings keep their original order |
| Learn.MixedSynonyms | src/lib/learn.ts:27-29 | `["a", 5, null, "b"]` keeps `["a", "b"]` |
| Learn.ToVocabItem | src/lib/learn.ts:17-31 | an item is produced iff the value is a non-array object whose `word` is a non-empty string; the word is kept and each optional field is taken only when it is a string (synonyms: the strings of an array) |
| Learn.Accepted | src/lib/learn.ts:35 | the accepted items are all valid, no more than the inputs, and each comes from some input element |
| Learn.NormalizeArray | src/lib/learn.ts:33-36 | a non-array gives no items; an array gives exactly its accepted elements, all valid |
| Learn.AcceptedAppend | src/lib/learn.ts:35 | normalising distributes over concatenation, so input order is kept |
| Learn.AcceptedSingleton | src/lib/learn.ts:35 | one element gives its item when it has a word and nothing otherwise |
| Learn.AcceptedAll | src/lib/learn.ts:35 | when every element has a word, nothing is dropped and element i becomes item i |
| Learn.AcceptedNone | src/lib/learn.ts:35 | when no element has a word, the result is empty |
| Learn.StringsRoundTrip | src/lib/learn.ts:26-29 | writing a string list and filtering it again gives the same list |
| Learn.ItemFieldsRead | src/lib/learn.ts:17-31 | each field of a written item (word, pronunciation, both meanings, example, synonyms) reads back as the item's own field |
| Learn.ItemRoundTrip | src/lib/learn.ts:17-31 | a valid item written as JSON validates back to itself |
| Learn.NormalizeRoundTrip | src/lib/learn.ts:33-36 | a list of valid items written as a JSON array normalises back to the same list |
| Learn.NormalizeIdempotent | src/lib/learn.ts:33-36 | normalising already normalised items changes nothing |
| Learn.NatToString | src/app/api/learn/save-day/route.ts:21 | the decimal rendering of a number is a non-empty digit string with no leading zero; it is `"0"` exactly for 0 |
| Learn.NatToStringCanonical | src/app/api/learn/save-day/route.ts:21 | every digit string without a leading zero that reads as n is the rendering of n, so the written file name is pinned |
| Learn.DigitsOfNatToString | src/app/api/learn/save-day/route.ts:21 | reading the rendered digits back gives the number |
| Learn.ParseDayNumber | src/lib/learn.ts:48-51 | a number is returned iff the name is `day-`, digits, `.json`, matched case-insensitively |
| Learn.ParseDayFileName | src/lib/learn.ts:48-51 | the file name save-day writes for day n parses back to n |
| Learn.ParseIgnoresCase | src/lib/learn.ts:49-50 | names equal up to ASCII case parse to the same result |
| Learn.ParseIgnoresLeadingZeros | src/lib/learn.ts:49-50 | `day-` followed by any run of zeros, the digits of n, and `.json` parses to n |
| Store.StoredDate | src/app/api/learn/get/route.ts:25 | the stored `meta.dateISO` when both it and `meta` are present and not null; `""` otherwise |
| Store.ShapeOf | src/app/api/learn/get/route.ts:22-28 | a parsed file is the wrapped shape iff it is an object with an `items` key, and the legacy shape iff it is an array; the date is `meta.dateISO ?? ""` |
| Store.ItemsRaw | src/app/api/learn/save-day/route.ts:8-9 | an unparsable body, or a missing or null `items`, reads as `[]`; otherwise the body's `items` value |
| Store.SavedItemsNeedItemsKey | src/app/api/learn/save-day/route.ts:8-11 | only a JSON object body with an `items` key can carry items to save; any other body is answered "No items" |
| Store.MaxDayNumber | src/app/api/learn/save-day/route.ts:15-19 | the result is the largest positive day number among the names, or 0 when there is none |
| Store.HighestDayNumber | src/app/api/learn/save-day/route.ts:14-19 | the loop over the directory names ends with the largest positive day number among them, or 0 when there is none, whatever the visit order |
| Store.MaxDayUnique | src/app/api/learn/save-day/route.ts:15-19 | that maximum is unique, whatever order the names are visited in |
| Store.NextDayIsFresh | src/app/api/learn/save-day/route.ts:15-21 | every present day number is below the next one, so the new file name is not in use |
| Store.SaveAdvancesMax | src/app/api/learn/save-day/route.ts:15-26 | after a save the maximum is the number just written |
| Store.EmptyStoreStartsAtOne | src/app/api/learn/save-day/route.ts:15-21 | an empty directory gets key `day-1` |
| Store.DeletingHighestAllowsReuse | src/app/api/learn/save-day/route.ts:15-21 | when day n-1 is present and n is the highest, deleting day n makes the next save n again |
| Store.Get | src/app/api/learn/get/route.ts:9-30 | "Missing day" iff the parameter is absent or empty; "Not found" iff the file is absent, unreadable or empty; "Bad JSON" iff it does not parse; otherwise the key is echoed and all items are valid |
| Store.GetAfterSave | src/app/api/learn/get/route.ts:20-30 | reading a file written by save-day returns its date and exactly its items |
| Store.LegacyReadsLikeWrapped | src/app/api/learn/get/route.ts:26-28 | a bare array reads as the wrapped file with an empty date |
| Store.OtherShapeReadsEmpty | src/app/api/learn/get/route.ts:20-28 | any other parsed value reads as no items and an empty date |
| Store.GetWrapped | src/app/api/learn/get/route.ts:20-25 | any object file with an `items` key reads as its stored date and its normalised items |
| Store.DigitPrefix | src/app/api/learn/list/route.ts:32 | the longest all-digit prefix of the text: a prefix, all digits, followed by the end or a non-digit |
| Store.KeyNumber | src/app/api/learn/list/route.ts:32 | on the keys the list route produces: with `day-` removed, an all-digit rest is read whole, and a rest with no leading digit gives 0, the zero fallback |
| Store.DigitPrefixOfDigits | src/app/api/learn/list/route.ts:32 | on a digit string, `parseInt` reads all of it |
| Store.KeyNumberOfDayKey | src/app/api/learn/list/route.ts:31-35 | the sort key of `day-n` is n |
| Store.ListRecord | src/app/api/learn/list/route.ts:12-28 | an entry gives a record iff its name matches, it parses, and it has one of the two shapes; the key is `day-<number>`, so the `?` fallback is never reached; a wrapped file gives its stored date and its `items` array verbatim (`[]` when not an array), a bare array gives date `""` and the array itself |
| Store.Scan | src/app/api/learn/list/route.ts:11-29 | visiting names gives at most one record each |
| Store.ScanSnoc | src/app/api/learn/list/route.ts:11-29 | visiting one more name appends that entry's record, if it has one |
| Store.ScanComplete | src/app/api/learn/list/route.ts:11-29 | every visited name whose file is usable contributes its record |
| Store.ScanAppend | src/app/api/learn/list/route.ts:11-29 | records follow the visit order: scanning two runs of names concatenates their records |
| Store.ScanListsEveryDayFile | src/app/api/learn/list/route.ts:11-29 | over a full visit of the directory, every usable day file is listed |
| Store.ScanDir | src/app/api/learn/list/route.ts:8-29 | the loop over the directory visits each name once and collects exactly the records of the usable files, in visit order |
| Store.ListAfterSave | src/app/api/learn/list/route.ts:20-25 | a file written by save-day is listed under `day-n` with its date and the written items |
| Store.LegacyListsLikeWrapped | src/app/api/learn/list/route.ts:23-28 | a bare array is listed like the wrapped file around it with an empty date |
| Store.ScanRecordsFromFiles | src/app/api/learn/list/route.ts:11-29 | every record comes from a day file in the directory, under its canonical key |
| Store.SwapDown | src/app/api/learn/list/route.ts:31-35 | exchanges two adjacent records and keeps the same multiset |
| Store.SinkStep | src/app/api/learn/list/route.ts:31-35 | one exchange moves the out-of-order record down a place and keeps the others in day order |
| Store.SinkDone | src/app/api/learn/list/route.ts:31-35 | once the record is at the front or after one that precedes it, the prefix is in day order |
| Store.Sink | src/app/api/learn/list/route.ts:31-35 | extends the sorted prefix by one and keeps the same multiset |
| Store.SortByDay | src/app/api/learn/list/route.ts:31-35 | the array ends sorted by day number and is a permutation of its old contents |
| Store.Stem | src/app/learn.json/route.ts:22 | a name ending in `.json` (any case) loses exactly that suffix; any other name is kept |
| Store.StemOfDayFileName | src/app/learn.json/route.ts:22 | the aggregate key of `day-n.json` is `day-n` |
| Store.AggregateItems | src/app/learn.json/route.ts:13-29 | a day file contributes iff its name matches, it parses, and it has one of the two shapes; a wrapped file gives `normalizeArray(items)`, a bare array its accepted elements, all valid |
| Store.AggregateAfterSave | src/app/learn.json/route.ts:24-26 | a file written by save-day aggregates to exactly the written items |
| Store.LegacyAggregatesLikeWrapped | src/app/learn.json/route.ts:24-29 | a bare array aggregates like the wrapped file around it |
| Store.GetAfterDelete | src/app/api/learn/delete/route.ts:12 | after deleting a day, get answers "Not found" |
| Store.DayStore.constructor | src/lib/learn.ts:42-46 | the store starts with the directory as given |
| Store.DayStore.Save | src/app/api/learn/save-day/route.ts:8-28 | with no valid items: "No items" and nothing written; otherwise exactly one new file `day-<max+1>.json` holding `{meta:{dateISO}, items}`, with the count answered |
| Store.DayStore.List | src/app/api/learn/list/route.ts:6-37 | the records are a permutation of those from one visit of every name, sorted by day number |
| Store.DayStore.Aggregate | src/app/learn.json/route.ts:6-33 | every eligible file's stem is a key; each key holds the normalised items of some eligible file with that stem |
| Store.DayStore.Delete | src/app/api/learn/delete/route.ts:6-18 | missing day: refused with nothing changed; existing file: only that file is removed; otherwise "not found" with nothing changed |
| Toasts.WithDefaults | src/components/Toast.tsx:41 | id is the new id; a missing duration or type defaults to 3800 / info; a key present as `undefined` stays undefined; a given value wins |
| Toasts.ShorthandSkipsDefaultDuration | src/components/Toast.tsx:51-53 | a shorthand without a duration leaves it undefined, not 3800, and sets its own type |
| Toasts.Newest | src/components/Toast.tsx:42 | at most six toasts, the first six in order |
| Toasts.WithoutId | src/components/Toast.tsx:31 | exactly the toasts without that id remain |
| Toasts.WithoutIdAppend | src/components/Toast.tsx:31 | removal keeps the survivors in order |
| Toasts.WithoutUnknownId | src/components/Toast.tsx:31 | an unknown id leaves the list unchanged |
| Toasts.WithoutIdKeepsOrder | src/components/Toast.tsx:31 | removal keeps ids strictly decreasing from newest to oldest |
| Toasts.PrependKeepsOrder | src/components/Toast.tsx:40-42 | a new toast goes first; ids stay decreasing; at six, the oldest is dropped |
| Toasts.ToastProvider.constructor | src/components/Toast.tsx:26-28 | no toasts, next id 1, no timers |
| Toasts.ToastProvider.Show | src/components/Toast.tsx:39-46 | returns the counter, then increments it; prepends the defaulted toast and keeps six; registers its timer; the invariant (at most six, decreasing ids below the counter) is kept |
| Toasts.ToastProvider.Remove | src/components/Toast.tsx:30-37 | drops that id's toasts; deletes its timer only when the handle is truthy; the invariant is kept |
| Toasts.ToastProvider.Success | src/components/Toast.tsx:51 | `show` with type success and every key present |
| Toasts.ToastProvider.Error | src/components/Toast.tsx:52 | `show` with type error and every key present |
| Toasts.ToastProvider.Info | src/components/Toast.tsx:53 | `show` with type info and every key present |
| FlashCard.PageToVocabItem | src/app/learn/flash-card/page.tsx:23-37 | an item is produced iff the value is a non-array object with a non-empty string `word`, which it keeps |
| FlashCard.PageAccepted | src/app/learn/flash-card/page.tsx:74-76 | at most one item per element, all valid |
| FlashCard.PageValidatorAgrees | src/app/learn/flash-card/page.tsx:23-37 | the page's validator equals the library's on every value |
| FlashCard.PageAcceptedAgrees | src/app/learn/flash-card/page.tsx:74-76 | the page keeps the same items as the library, in the same order |
| FlashCard.ImportJson | src/app/learn/flash-card/page.tsx:61-98 | no file: nothing; a file whose text cannot be read: the "Import thất bại." alert; not JSON: the invalid-file alert; no valid array items: the no-items alert; otherwise the request carries exactly the accepted items |
| FlashCard.ImportedItemsSurviveSaveDay | src/app/learn/flash-card/page.tsx:81-85 | save-day normalises the import's request body back to the same non-empty items |
| FlashCard.Total | src/app/learn/flash-card/page.tsx:111 | the total is at least each day's item count, and is 0 iff every day has no items; its value is pinned by TotalSingleton and TotalAppend |
| FlashCard.TotalAppend | src/app/learn/flash-card/page.tsx:111 | the total over two runs of days is the sum of their totals |
| FlashCard.TotalSingleton | src/app/learn/flash-card/page.tsx:111 | one day contributes exactly its item count, so with TotalAppend the total is the sum of the item counts |
| FlashCard.FirstKey | src/app/learn/flash-card/page.tsx:112 | the first day's key when there are days, none otherwise |
| FlashCard.FirstKeyIsEarliest | src/app/learn/flash-card/page.tsx:112 | on the listing sorted by the list route, the day opened first has the lowest day number |
| FlashCard.MergeOpen | src/app/learn/flash-card/page.tsx:50-54 | keys become the old keys plus the listed keys; old flags are kept; new keys are open |
| FlashCard.FlashCardPage.constructor | src/app/learn/flash-card/page.tsx:40-41 | no days, empty open map |
| FlashCard.FlashCardPage.LoadDays | src/app/learn/flash-card/page.tsx:45-55 | the days become the listing; the open map is merged as above |
| FlashCard.FlashCardPage.Toggle | src/app/learn/flash-card/page.tsx:182 | only that key's flag flips (missing reads as closed); every other flag and the days are kept |
| ImgbbUpload.Admit | src/app/tools/imgbb-upload/page.tsx:40-49 | admitted rows are no more than the picked files, each within the limit, queued with progress 0 |
| ImgbbUpload.AdmitExact | src/app/tools/imgbb-upload/page.tsx:40-49 | a row is admitted iff it is the queued row (name, size, and its id from `ids`) of a picked file within the limit |
| ImgbbUpload.AdmitAppend | src/app/tools/imgbb-upload/page.tsx:40-49 | admission keeps the picked order |
| ImgbbUpload.OverLimitCount | src/app/tools/imgbb-upload/page.tsx:50 | the skipped count is at most the number picked |
| ImgbbUpload.AdmitCount | src/app/tools/imgbb-upload/page.tsx:40-51 | admitted plus skipped equals picked |
| ImgbbUpload.AdmitWithinLimit | src/app/tools/imgbb-upload/page.tsx:40-49 | when every file fits, file i becomes row i |
| ImgbbUpload.SkippedMessage | src/app/tools/imgbb-upload/page.tsx:52 | the message opens with `Có `, then the decimal count, then a space |
| ImgbbUpload.UpdateById | src/app/tools/imgbb-upload/page.tsx:123-129 | only rows with the matching id change; the rest are kept in place |
| ImgbbUpload.UpdateUnknownId | src/app/tools/imgbb-upload/page.tsx:123-129 | an update for an id not in the list changes nothing |
| ImgbbUpload.Settled | src/app/tools/imgbb-upload/page.tsx:146-203 | done, with progress 100 and the links, iff the status is 2xx, `success` is truthy and `data` is present; otherwise error with `resp.error`, "Upload failed", or the exception message ("Parse error" without one); a missing or null `data` after a successful status gives the engine's TypeError text; the error field is left as it was on success; identity is kept |
| ImgbbUpload.FailureText | src/app/tools/imgbb-upload/page.tsx:178 | `resp.error` when it is truthy, otherwise "Upload failed"; the result is always truthy |
| ImgbbUpload.NetworkFailed | src/app/tools/imgbb-upload/page.tsx:205-213 | error "Network error" on the same row; id, name, size, progress and result keep the snapshot's values |
| ImgbbUpload.WithoutItem | src/app/tools/imgbb-upload/page.tsx:265-266 | exactly the rows without that id remain |
| ImgbbUpload.WithoutItemAppend | src/app/tools/imgbb-upload/page.tsx:265-266 | removal keeps the other rows in order |
| ImgbbUpload.WithoutUnknownItem | src/app/tools/imgbb-upload/page.tsx:265-266 | removing an unknown id changes nothing |
| ImgbbUpload.WithoutDone | src/app/tools/imgbb-upload/page.tsx:268-269 | exactly the rows that are not done remain |
| ImgbbUpload.WithoutDoneAppend | src/app/tools/imgbb-upload/page.tsx:268-269 | clearing keeps the surviving rows in order |
| ImgbbUpload.CountStatus | src/app/tools/imgbb-upload/page.tsx:99-107 | a status count is at most the number of rows; its value is pinned by CountStatusSingleton and CountStatusAppend |
| ImgbbUpload.CountStatusAppend | src/app/tools/imgbb-upload/page.tsx:99-107 | counts add up over two runs of rows |
| ImgbbUpload.CountStatusSingleton | src/app/tools/imgbb-upload/page.tsx:99-107 | one row counts 1 under its own status and 0 under any other, so with CountStatusAppend the count is the number of rows in that status |
| ImgbbUpload.ClearDoneCounts | src/app/tools/imgbb-upload/page.tsx:268-269 | clearing done rows removes exactly `doneCount` rows, leaves no done row, and keeps `queuedCount` |
| ImgbbUpload.ExportLines | src/app/tools/imgbb-upload/page.tsx:285-289 | at most one line per row, none empty |
| ImgbbUpload.ExportLinesExact | src/app/tools/imgbb-upload/page.tsx:285-289 | a line is exported iff some done row's picked link is that non-empty string |
| ImgbbUpload.ExportLinesAppend | src/app/tools/imgbb-upload/page.tsx:285-289 | lines follow list order |
| ImgbbUpload.Join | src/app/tools/imgbb-upload/page.tsx:290 | no lines give `""`; otherwise the text starts with the first line, followed by a newline when more lines follow |
| ImgbbUpload.ExportLinks | src/app/tools/imgbb-upload/page.tsx:285-290 | no exported lines give `""`; otherwise, when no link contains a newline, the text splits back into exactly the exported lines |
| ImgbbUpload.SplitJoin | src/app/tools/imgbb-upload/page.tsx:290 | the joined text splits back into the exact lines when no link contains a newline |
| ImgbbUpload.ImgbbUploadPage.constructor | src/app/tools/imgbb-upload/page.tsx:33-35 | empty list, empty message |
| ImgbbUpload.ImgbbUploadPage.AddFiles | src/app/tools/imgbb-upload/page.tsx:39-55 | admitted rows are appended after the existing ones; the message reports the skipped count when it is positive and is otherwise unchanged |
| ImgbbUpload.ImgbbUploadPage.OnProgress | src/app/tools/imgbb-upload/page.tsx:120-131 | the matching row becomes uploading with the given percentage; nothing else changes |
| ImgbbUpload.ImgbbUploadPage.OnHeadersReceived | src/app/tools/imgbb-upload/page.tsx:133-144 | the matching row becomes processing with progress 100; nothing else changes |
| ImgbbUpload.ImgbbUploadPage.OnLoad | src/app/tools/imgbb-upload/page.tsx:146-203 | the matching row is replaced by the settled snapshot; nothing else changes |
| ImgbbUpload.ImgbbUploadPage.OnNetworkError | src/app/tools/imgbb-upload/page.tsx:205-213 | the matching row is replaced by the failed snapshot; nothing else changes |
| ImgbbUpload.ImgbbUploadPage.RemoveItem | src/app/tools/imgbb-upload/page.tsx:265-266 | the list becomes the list without that id |
| ImgbbUpload.ImgbbUploadPage.ClearAll | src/app/tools/imgbb-upload/page.tsx:267 | the list becomes empty |
| ImgbbUpload.ImgbbUploadPage.ClearDone | src/app/tools/imgbb-upload/page.tsx:268-269 | the done rows are dropped: no done row remains, and the length falls by the old `doneCount` |

## Left out

- File-system I/O, HTTP framing, status codes and response JSON layout are left out. Each route is a function or method on the directory map, and its answer is a datatype.
- The 500 answers of the `catch` blocks are left out, as is the `readdir` failure path, which yields an empty listing. The directory map is always readable as a whole.
- The clock is a parameter: `Store.DayStore.Save` takes `dateISO` as given.
- Concurrent saves are left out. Two saves racing for the same number are not modelled, because each operation is atomic here.
- Store.DayStore.Delete: removes any entry present under the name. The source's `catch` answers 404 for every `unlink` failure, including a present entry that `unlink` refuses, such as a directory or a file without permission; those failures are not modelled.
- `path.join` normalisation of `<day>.json` is not modelled, including `..` segments and separators in `day`. The file name is the string `day + ".json"`.
- JSON numbers are integers, and object key order is not represented. `parseInt` on very long digit strings is exact here; JavaScript loses precision beyond 2^53.
- Store.KeyNumber: models `parseInt` only on text that starts with a digit or a non-digit that is not whitespace, `+` or `-`. Leading whitespace and a sign are not read as `parseInt` reads them. The keys the list route produces are always `day-` followed by a canonical decimal, so the comparator never meets such text.
- `Store.DayStore.List` sorts a copy of its records in an array with an insertion sort. The stability of the source's `Array.prototype.sort` is not stated.
- `Store.DayStore.List` returns the unsorted visit order only as a ghost listing, because the `readdir` order is unspecified.
- FlashCard.ImportJson: stops at the save-day request. What the page does with the answer is not modelled: the "Lưu ngày học thất bại." alert when `ok` is falsy, the reload otherwise, and the "Import thất bại." alert when the request itself fails. Neither is the reset of the file input.
- The upload route, the ImgBB proxy route and the converter tool pages are not part of this model.
- Toast expiry is not modelled. Neither is the firing of `setTimeout` nor the rendering: the timer handle is a parameter of `Show`.
- `runUpload` is not part of this model: its concurrency limit of three, its polling interval and its messages are left out. So are the XHR requests themselves; the callbacks are methods that receive the row snapshot, the HTTP status and the parsed body.
- ImgbbUpload.ImgbbUploadPage.OnProgress: takes the percentage as given. The floating-point `Math.round(loaded / total * 100)` and the `lengthComputable` test are not modelled.
- The success toast that a finished upload shows is not modelled.
- The clipboard write and its toasts in `copy` are not modelled: `ExportLinks` returns the text handed to the clipboard.
- ImgbbUpload.Settled: a result link that is not a string is recorded as absent. The source copies whatever value is there.
- ImgbbUpload.Settled: when `data` is missing or `null`, the error text is the V8 wording of the `TypeError`. Other engines word it differently.
- ImgbbUpload.Settled: an empty response body is read as `{}` by the source; callers pass that parsed value.
- The `File` object of an upload row is left out; its name and size are kept.
