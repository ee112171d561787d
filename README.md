# Registration export, modelled in Dafny

This project models the administrator's "Download XLS" export of an event's
registrations (`pages/admin/ExporttoExcel.js`, the handler `fetchDataAndExport`).
The handler reads the event document and the event's `registeredUsers`
collection. It then builds one flat spreadsheet row per registration and
writes a workbook whose file name comes from the event name and the day's date.

- `whitespace.dfy`, module `WhitespaceRuns`: the rewrite `name.replace(/\s+/g, '_')`.
  It is a recursive function whose contract says the result holds no
  whitespace. Lemmas prove that the rewrite is idempotent, that each maximal
  whitespace run becomes exactly one `_`, and that it distributes over
  concatenations that do not split a run. Further lemmas prove that every
  other character is kept in order.
- `excel_export.dfy`, module `ExcelExport`: registration documents, made of
  optional strings where a missing or empty value is falsy. It also holds the
  event-name fallback, the row mapping, the file name, a pure specification
  `Export` of one run, and the component as a class. The class has the
  `eventId` prop, the `loading` state and a log of the reads and writes it
  performs. Its method `FetchDataAndExport` is proved to leave exactly the
  effects and the outcome that `Export` specifies, and to leave `loading`
  cleared on every path.

The document store is a `Store` value passed in. It holds event documents by
id and each event's registrations in the order the store lists them. The
date stamp (`new Date().toISOString().slice(0, 10)`) is the parameter
`today`. The timestamp renderer (`toDate().toLocaleString()`) is the
parameter `format`. The spreadsheet library's work becomes the
`WorkbookWritten` effect, which records the file name, the sheet name and the
rows.

## Notes on the code's behaviour

- Rows are numbered in the order the store returns the documents. The handler does not sort them by registration time.
- The file name is changed only by the whitespace rewrite. No other character is removed or replaced.
- A missing event document does not stop the export. The file name falls back to `Event`.

## Model

| member | source | states |
|---|---|---|
| WhitespaceRuns.IsWs | pages/admin/ExporttoExcel.js:64 | exactly the characters `\s` matches: ECMAScript WhiteSpace plus LineTerminator; the contract states that space, tab, line feed and carriage return match, and that letters, digits, `_`, `-` and `.` do not |
| WhitespaceRuns.SkipWhitespace | pages/admin/ExporttoExcel.js:64 | the greedy `\s+` match: what it drops from the front is all whitespace, and what is left does not start with whitespace |
| WhitespaceRuns.SkipIsSuffix | pages/admin/ExporttoExcel.js:64 | what the greedy match leaves is a suffix of the input |
| WhitespaceRuns.CollapseWhitespace | pages/admin/ExporttoExcel.js:64 | the rewritten name contains no whitespace, is no longer than the input, and is empty only when the input is |
| WhitespaceRuns.CollapseWsFree | pages/admin/ExporttoExcel.js:64 | a name without whitespace is left unchanged |
| WhitespaceRuns.CollapseIdempotent | pages/admin/ExporttoExcel.js:64 | applying the rewrite twice gives the same result as applying it once |
| WhitespaceRuns.CollapseRun | pages/admin/ExporttoExcel.js:64 | a non-empty whitespace run followed by a non-whitespace character or the end becomes exactly one `_` |
| WhitespaceRuns.CollapseConcat | pages/admin/ExporttoExcel.js:64 | the rewrite of `a + b` is the rewrite of `a` followed by the rewrite of `b` when the join does not split a whitespace run |
| WhitespaceRuns.CollapseSeparators | pages/admin/ExporttoExcel.js:64 | the output has as many `_` as the input plus one per maximal whitespace run |
| WhitespaceRuns.CollapseKeepsVisible | pages/admin/ExporttoExcel.js:64 | characters that are neither whitespace nor `_` survive in their original order, and no other such character appears |
| ExcelExport.Truthy | pages/admin/ExporttoExcel.js:13 | JavaScript truthiness of an optional text value: a missing value and the empty string are the only falsy ones (used at lines 13, 23 and 46-51) |
| ExcelExport.OrEmpty | pages/admin/ExporttoExcel.js:46-50 | the defaulted column is the value when it is truthy, and it is empty exactly when the value is falsy |
| ExcelExport.EventName | pages/admin/ExporttoExcel.js:22-24 | the name is the stored name when the document exists and its name is truthy, otherwise `Event`; it is never empty |
| ExcelExport.BuildRow | pages/admin/ExporttoExcel.js:42-54 | the `map` callback: `SrNo` is the index plus one; each text column is the document's value when truthy and `''` exactly when it is falsy; `RegisteredAt` is the formatted timestamp when present and `''` when missing |
| ExcelExport.BuildRows | pages/admin/ExporttoExcel.js:41-55 | one row per document, and row i is built from document i at index i, so snapshot order is kept |
| ExcelExport.SerialNumbers | pages/admin/ExporttoExcel.js:45 | row i has `SrNo == i + 1`; serial numbers never repeat, and the set of serial numbers is exactly 1..n |
| ExcelExport.TextColumns | pages/admin/ExporttoExcel.js:46-50 | each of Name, PhoneNumber, FlatNo, Wing and Builder is the document's value when truthy and `''` otherwise |
| ExcelExport.RegisteredAtColumn | pages/admin/ExporttoExcel.js:51-53 | RegisteredAt is the formatted timestamp when present; if the formatter never yields `''`, it is `''` exactly when the timestamp is missing |
| ExcelExport.FileName | pages/admin/ExporttoExcel.js:63-64 | the file name is the rewritten event name followed by `'_' + today + '.xlsx'`; the part from the event name has no whitespace; with a whitespace-free date the whole name has none |
| ExcelExport.FileNameStable | pages/admin/ExporttoExcel.js:64 | rewriting the event name before building the file name changes nothing |
| ExcelExport.ReadEvent | pages/admin/ExporttoExcel.js:20-21 | `getDoc`: the event data exists exactly when the store holds a document under the id, and is that document |
| ExcelExport.ReadRegistrations | pages/admin/ExporttoExcel.js:27-32 | `getDocs`: the stored collection of the event in its stored order, or no documents when the store has none for the id |
| ExcelExport.Export | pages/admin/ExporttoExcel.js:12-68 | a falsy `eventId` ends the run before any read; otherwise the event is read first and the registrations second; an empty snapshot ends the run with no workbook; a workbook is written only as the last effect, under the file name built from the event name and the date, with sheet `Registered Users` and exactly the rows built from the snapshot, one per registration |
| ExcelExport.ExportToExcel.constructor | pages/admin/ExporttoExcel.js:6-7 | the component starts with `loading` false and nothing read or written |
| ExcelExport.ExportToExcel.FetchDataAndExport | pages/admin/ExporttoExcel.js:9-76 | the handler performs exactly the effects and reaches exactly the outcome of `Export`, and `loading` is false afterwards on every path |

## Left out

- Failures of the store reads and of the file write, and the `catch` branch that reports them (`pages/admin/ExporttoExcel.js:70-72`). Store reads are total functions here.
- The `alert` messages and `console.error`. They are UI output. The `Outcome` value shows which message a run ends with.
- The workbook's serialisation and the download (`XLSX.utils.json_to_sheet`, `book_new`, `book_append_sheet`, `writeFile`). They are calls into a library, recorded here as the single `WorkbookWritten` effect.
- The clock and locale. The UTC date stamp and the local rendering of a timestamp are parameters.
- Document fields whose stored value is not a string (a number, say). Every text field is modelled as an optional string.
- The rendering of the button, which is disabled while `loading` is true (`pages/admin/ExporttoExcel.js:78-88`).
- The `loading` value seen while the handler awaits a read. The class records only its value after a run.
- `component/Admin.js`, the public registration page and the admin page that lists and adds registered users. These are form handlers around store writes, image generation and uploads, and they are not part of this model.
- RegisteredAtColumn: the "empty exactly when missing" half assumes that the timestamp formatter never returns an empty string, because the locale renderer is not modelled.
