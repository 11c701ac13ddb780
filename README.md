# Course progress monitor: the client-local store and what is built on it

This project models the part of the course-monitor web application that has logic of its own:

- the localStorage layer in `src/utils/storage.js`. Report records live in the slot `courseProgressData` and file attachments in `courseProgressFiles`. Each save reads the whole array, appends one object and writes the whole array back.
- the administrator panel in `src/components/AdminPanel.jsx`. It loads both slots, exports one flat row per submission, left-joined with the first attachment that has the same `id`. It also clears everything after a confirmation and looks up a submission's attachment.
- the submit handler of `src/components/ProgressForm.jsx`, with its form state. The handler saves the record, then the optional attachment under the record's id. It then either resets the form (success) or keeps it (error).

Modules:

- `Wrappers`: `Option`, and `Outcome` (a call returns a value or throws).
- `Json`: JavaScript values (`Undefined`, `Num`, `Str`), objects as `map<string, Value>`, property access `Get`, and the string conversion a template literal performs.
- `Storage`: the `LocalStorage` class (`items: map<string, seq<Obj>>`) and the storage functions.
- `Admin`: the export rows, and the `AdminPanel` class with its component state.
- `Form`: the `ProgressForm` class with its component state and handlers.

Inputs:

- `JSON.stringify` followed by `JSON.parse` is taken as the identity.
- The clock readings (`Date.now()`, `new Date().toISOString()`) and the FileReader's data URL are inputs.
- Whether the browser accepts a `setItem` (quota) is a boolean input. It is the only throw the model represents, and it is what makes the `catch` branch of `handleSubmit` reachable. Other throws exist: `getItem` throws when storage is disabled, and a corrupted slot makes `JSON.parse` or `push` throw (see the line on corrupted slots under "## Left out"). Each ends the same way as a refused write: the save throws and the store is unchanged, which is the model's `Threw`.
- `toLocaleString()` is a function parameter `localeString`.
- `window.confirm` is a boolean input.

A failed file read never rejects the attachment promise. `saveFile` (src/utils/storage.js:19-38) has no `onerror`, so a read that never completes leaves the promise pending forever. A `setItem` that throws inside `onload` also leaves it pending. `Storage.SaveFile` returns `Pending` in both cases. `Form.ProgressForm.HandleSubmit` then stays suspended at the `await`: `isSubmitting` stays true, `submitStatus` stays null, and the form stays as it was. The record saved before it stays in the store.

Record ids are not guaranteed unique: they come from `Date.now()`, and a form field named `id` overrides the generated one, so the model does not claim uniqueness. Where several attachments share an id, the model proves that the first one wins.

## Model

| member | source | states |
|---|---|---|
| `Storage.LocalStorage.GetItem` | src/utils/storage.js:15 | the stored array for a present key, `None` (null) for an absent one |
| `Storage.LocalStorage.SetItem` | src/utils/storage.js:10 | an accepted write replaces exactly that slot; a refused one throws and changes nothing |
| `Storage.LocalStorage.RemoveItem` | src/components/AdminPanel.jsx:65-66 | removes exactly that key; absent keys are fine |
| `Storage.Slot` | src/utils/storage.js:16 | a present slot reads as its stored array; a non-empty result comes only from a present slot (`data ? JSON.parse(data) : []`, also line 42) |
| `Storage.Appended` | src/utils/storage.js:9-10 | the store after the read-modify-write (also lines 31-33): the slot is present and holds the old array plus the new element, and every other slot keeps its value |
| `Storage.AppendedSlots` | src/utils/storage.js:9-10 | a read-modify-write append adds one element at the end of its own slot, keeps the earlier elements, and leaves every other slot (and its presence) unchanged |
| `Storage.NewEntry` | src/utils/storage.js:4-8 | the entry holds every key of the form plus `id` and `timestamp`; the form's values win (a form key `id` or `timestamp` overrides the generated one); otherwise `id` is the clock reading and `timestamp` the ISO string |
| `Storage.NewEntryKeepsField` | src/utils/storage.js:7 | every property other than `id` and `timestamp` reads exactly as in the form |
| `Storage.Attachment` | src/utils/storage.js:23-29 | the `fileData` object holds exactly `id`, `name`, `type`, `data` and `timestamp`: the owner id, the file's name and type, the data URL and the clock reading |
| `Storage.GetFormData` | src/utils/storage.js:14-17 | `[]` when the records slot is absent, otherwise the stored array |
| `Storage.GetFiles` | src/utils/storage.js:40-43 | `[]` when the attachments slot is absent, otherwise the stored array |
| `Storage.SaveFormData` | src/utils/storage.js:2-12 | on an accepted write, exactly the new entry is appended to the records slot and nothing else changes; the returned id is the `id` of the entry just appended; on a refused write it throws and the store is unchanged |
| `Storage.SaveFile` | src/utils/storage.js:19-38 | once the read completes and the write is accepted, it appends exactly one attachment (id = the owner id, name and type copied from the file) to the attachments slot only, and resolves with that same object; otherwise the promise never settles and the store is unchanged |
| `Storage.FindIndexById` | src/utils/storage.js:47 | returns none exactly when no object has that `id`; otherwise the index of the first object whose `id` is equal |
| `Storage.FindById` | src/utils/storage.js:47 | `find`: undefined exactly when nothing matches, otherwise the first matching object |
| `Storage.FirstMatchUnique` | src/utils/storage.js:47 | there is at most one first match |
| `Storage.FindIndexAppend` | src/utils/storage.js:31-33 | appending an attachment never changes an existing match; the new one becomes the match only for an id that had none |
| `Storage.DownloadFile` | src/utils/storage.js:45-56 | downloads the first attachment with that id (href = its data URL, name = its name); when none matches it does nothing |
| `Json.Get` | src/utils/storage.js:47 | property access as in `f.id` (used throughout): a present key reads its value, and only a present key reads as something other than undefined |
| `Json.JsString` | src/components/AdminPanel.jsx:50 | the `${…}` conversion: a string prints as itself; a number prints as its decimal digits, with a leading '-' exactly when it is negative |
| `Json.NumberStringInjective` | src/components/AdminPanel.jsx:50 | two different numbers never print the same in a template literal |
| `Json.DecimalRoundTrip` | src/components/AdminPanel.jsx:50 | the decimal spelling of a number parses back to that number |
| `Admin.Instructions` | src/components/AdminPanel.jsx:50 | the instructions text is the fixed prefix, the printed submission id, and the fixed suffix, so the id can be cut back out |
| `Admin.InstructionsDistinguishIds` | src/components/AdminPanel.jsx:47-53 | submissions with different numeric ids get different download instructions |
| `Admin.RowFor` | src/components/AdminPanel.jsx:26-54 | the eleven plain columns copy the submission's fields verbatim; 'Submitted At' is the localised timestamp; with no attachment of that id, the three file columns are 'No file attached', 'N/A' and 'No file to download'; otherwise they are the first matching attachment's name and type, and the instructions embedding the id |
| `Admin.ExportRows` | src/components/AdminPanel.jsx:26 | exactly one row per submission, in submission order |
| `Admin.ExportRowsAppend` | src/components/AdminPanel.jsx:26 | one more submission adds exactly one row at the end and changes no earlier row |
| `Admin.FreshAttachmentJoins` | src/components/AdminPanel.jsx:39-53 | after storing a file for an id that had none, the export shows that file's name and type and the download instructions; a submission of another id that had no attachment keeps its row |
| `Admin.AppendKeepsJoin` | src/components/AdminPanel.jsx:39-53 | a later attachment with an already matched id does not change that submission's row |
| `Admin.SubmissionRoundTrip` | src/utils/storage.js:2-12 | a saved form (without its own `id`) becomes a new last export row whose id is the generated one and whose plain columns are the form's values |
| `Admin.AdminPanel.constructor` | src/components/AdminPanel.jsx:7-13 | on mount both lists hold the stored slots (or are empty) and nothing is selected |
| `Admin.AdminPanel.LoadData` | src/components/AdminPanel.jsx:15-18 | both lists are re-read from the store; the selection is kept |
| `Admin.AdminPanel.ExportToExcel` | src/components/AdminPanel.jsx:20-54 | with zero submissions the export stops and there are no rows; otherwise one row per submission, in order, each built as `RowFor` states |
| `Admin.AdminPanel.ClearAllData` | src/components/AdminPanel.jsx:63-70 | when confirmed, both slots are removed, the reloaded lists are empty and the selection is null; when not confirmed, neither the store nor the component changes |
| `Admin.Cleared` | src/components/AdminPanel.jsx:65-66 | the store after both `removeItem` calls: neither slot is present, and every other slot keeps its key and value |
| `Admin.ClearIdempotent` | src/components/AdminPanel.jsx:63-70 | after a clear both lists read back empty, every other slot is untouched, and clearing again gives the same store |
| `Admin.AdminPanel.GetFileForSubmission` | src/components/AdminPanel.jsx:72-74 | undefined exactly when no attachment has that id, otherwise the first one that has it |
| `Admin.DetailAgreesWithExport` | src/components/AdminPanel.jsx:72-74 | the detail view's attachment and the export's 'Attached File' column come from the same first match |
| `Form.InitialFormData` | src/components/ProgressForm.jsx:6-17 | the form holds exactly the ten field names, each the empty string |
| `Form.ProgressForm.constructor` | src/components/ProgressForm.jsx:6-20 | blank form, no file, not submitting, no status |
| `Form.ProgressForm.HandleInputChange` | src/components/ProgressForm.jsx:30-36 | only the named field changes (it is added if new); all others keep their values |
| `Form.ProgressForm.HandleFileChange` | src/components/ProgressForm.jsx:38-43 | the first selected file becomes the file; an empty selection keeps the earlier one |
| `Form.ProgressForm.HandleSubmit` | src/components/ProgressForm.jsx:45-83 | the record is saved first, and the attachment (only if a file is chosen) is saved under the returned id. When the record write throws: status 'error', not submitting, form, file and store as before. On success: status 'success', not submitting, blank form, no file, and with no file the attachments slot is untouched. While the attachment promise is pending: still submitting, status null, form kept |

## Left out

- JSX rendering, CSS class selection and the contentType colour badge. These are presentation only.
- `src/components/Layout.jsx` and `src/App.jsx` handle routing and markup. They are not part of this model.
- The XLSX workbook, sheet and `writeFile` calls, and the dated file name (src/components/AdminPanel.jsx:56-60). These are a foreign library plus wall-clock formatting. The model stops at the rows handed to the library.
- `toLocaleString()` and `toISOString()` formatting. Timestamps are opaque inputs.
- `FileReader.readAsDataURL` and data-URI encoding. The browser does this, so `data` is an opaque string and there is no encode/decode round trip to prove.
- The DOM anchor creation and click in `downloadFile`. `Storage.DownloadFile` returns the href and name the anchor would get.
- `e.preventDefault()` at the start of `handleSubmit` (src/components/ProgressForm.jsx:46). It only stops the browser's own form submission.
- `window.confirm` and `alert`. Confirmation is a boolean input, and the alert is the `NoData` outcome.
- `console.error` in the `catch` branch of `handleSubmit` (src/components/ProgressForm.jsx:78). It is logging only.
- The uniqueness of `Date.now()` ids. The source does not guarantee it and the model does not claim it.
- `Storage.SaveFile`: does not model a rejection path. The source has none: a failed read never settles, so the model returns `Pending`.
- The reset of the file input element (`document.getElementById('file-upload').value = ''`). It is DOM state.
- The row click that selects a submission (`setSelectedSubmission(submission)` in the markup). It is a single state assignment.
- Cross-tab localStorage sharing and concurrency. Quota limits appear only as whether a write is accepted.
- `JSON.parse` of a corrupted slot is not modelled, nor is JSON dropping properties whose value is undefined. Every access goes through `Get`, which reads a missing property as undefined, so the dropping cannot be observed.
- `Json.JsString`: JavaScript numbers are doubles. The model prints integers in plain decimal, which matches JavaScript for every safe integer (|n| < 2^53). `Date.now()` ids are well inside that range.
- React's batching of state updates and the intermediate renders of `handleSubmit`. The model gives the state once the handler finishes, or where it stays suspended.
