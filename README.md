# UDI bulk editor: validation and table-editing engine in Dafny

This project models the core of a browser-based editor for medical-device
identification (UDI) records. The model covers:

- the rule-based validator, which derives a record's errors, warnings and
  status (`valid`, `warning`, `invalid`) from its data fields;
- the filter engine, which keeps the records that match every active
  column filter;
- the table controller. It holds the column table, the frozen/scrollable
  split, the edit cursor, cell commit and row locking;
- the bulk editor. It sets one field on every unlocked record of the
  visible subset;
- the filter bar (set, clear and clear-all of column filters);
- the whole-table controls (validate all, lock all, unlock all, import gate,
  status counts);
- the upload controller (file-format check, history entries, the history
  capped at ten);
- the GMDN sub-record sheet;
- the rule that highlights a cell as an error or a warning.

There is one module per source file, plus three shared modules:

- `Seqs`: order-preserving selection, the model of `Array.prototype.filter`.
- `JsStrings`: `toLowerCase`, `includes`, `startsWith`, `endsWith` and
  `trim` as JavaScript defines them.
- `UdiTypes`: the record, its columns, and `record[column]` access.

The source's shape is kept:

- Pure code (`validators.ts`, `filterUtils.ts`, the column table, the list
  maps) becomes functions and lemmas.
- Hooks and components whose handlers update state fields step by step
  become classes: `UdiTable`, `BulkEditDialog`, `FileUploader` and
  `GmdnSheetState`. Their methods state the whole new state. In
  `UdiTable`, `BulkEditDialog` and `FileUploader` they also keep the class
  invariant `Inv()`.

JavaScript's dynamic typing matters in one place. A boolean field can end
up holding a string, so boolean fields are modelled as
`Flag = Bool(b) | Str(s)`, with `Truthy` giving `Boolean(value)`.

In three places the code is narrower than the names around it suggest,
and the model follows the code:

- The record validator treats only the empty string as a missing required
  field (`src/lib/validators.ts:44-46`). A whitespace-only value passes.
  Only `validateRequiredField` trims (`src/lib/validators.ts:5`).
- Filtering has no special case for a lock-status column. Every column is
  stringified the same way.
- Committing a cell edit does not re-check the record's lock. Only
  starting an edit does.

## Model

| member | source | states |
|---|---|---|
| UdiTypes.Get | src/types/udi.ts:2-20 | reading a column gives a flag exactly for the four boolean columns and a status exactly for the status column |
| UdiTypes.SetRaw | src/components/UDITable/BulkEditDialog.tsx:46-49 | storing a string: a text or date column then holds the text, a boolean column holds the string itself, every other column and the id, lock and messages are unchanged |
| UdiTypes.SetBool | src/hooks/useUDITable.ts:69-71 | storing a boolean in a boolean column changes that column only |
| JsStrings.Lower | src/lib/filterUtils.ts:15-16 | lower-casing keeps the length and maps each character by ASCII case folding |
| JsStrings.LowerIdempotent | src/lib/filterUtils.ts:15-16 | lower-casing twice is lower-casing once |
| JsStrings.IncludesFacts | src/lib/filterUtils.ts:19-26 | a prefix or suffix is included; an equal string is both; the empty string is prefix, suffix and included |
| JsStrings.TrimStart | src/lib/validators.ts:5 | the result is a suffix of the input; exactly the leading JavaScript whitespace is removed: it is empty exactly when every character is whitespace, and otherwise starts with a non-whitespace character |
| Validators.ValidateRequiredField | src/lib/validators.ts:4-9 | fails, with the required message, exactly when the value is empty or all whitespace |
| Validators.ValidateDate | src/lib/validators.ts:11-25 | the empty string passes; a value not shaped YYYY-MM-DD fails with the format message; otherwise it passes exactly when it is a calendar date |
| Validators.ValidateDeviceIdentifier | src/lib/validators.ts:27-37 | empty fails as required, 1 to 4 characters fails as too short, passes exactly from 5 characters |
| Validators.SameDataAgrees | src/lib/validators.ts:82-87 | two records with the same data fields show the same value in every column but status, and are well typed together |
| Validators.ValidateRecord | src/lib/validators.ts:39-88 | keeps every data field; the errors are exactly the failed checks in check order and the warnings exactly the date-order warning when it applies; status is invalid iff there are errors, warning iff no errors but warnings, valid iff neither; never pending; at most one warning |
| Validators.ValidateRecords | src/lib/validators.ts:90-92 | same length, each record validated in place |
| Validators.ValidateIgnoresDerivedFields | src/lib/validators.ts:39-88 | the result depends only on the data fields, not on old errors, warnings or status |
| Validators.ValidateIdempotent | src/lib/validators.ts:39-88 | validating a validated record changes nothing |
| Validators.ValidateRecordsIdempotent | src/lib/validators.ts:90-92 | validating a validated batch changes nothing |
| Validators.ValidateOverwritesStatus | src/lib/validators.ts:75-87 | a status written before validation has no effect |
| Validators.RequiredErrorsIff | src/lib/validators.ts:44-46 | each required-field message is reported exactly when its field is empty |
| Validators.DateErrorsMessages | src/lib/validators.ts:48-57 | a date field contributes at most one error, and it is a date-format or invalid-date message |
| Validators.IdentifierErrors | src/lib/validators.ts:39-73 | an empty identifier is reported as required and not as short; 1 to 4 characters as short and not as required; 5 or more as neither |
| Validators.DateWarningIff | src/lib/validators.ts:54-66 | the single date-order warning appears exactly when both dates are present, both parse, and production is later; an unparseable production date raises nothing |
| Validators.MessagesDistinct | src/lib/validators.ts:44-72 | the required, identifier-length and date messages are pairwise different |
| Validators.ErrorsInCheckOrder | src/lib/validators.ts:40-73 | at most six errors, reported in check order: required fields, then dates, then identifier length |
| FilterUtils.FieldText | src/lib/filterUtils.ts:15 | `String(value \|\| '')`: text columns give their text, a false flag gives the empty string, a true flag gives "true" |
| FilterUtils.FilterRecords | src/lib/filterUtils.ts:10-32 | no filters give the records unchanged; a record is kept exactly when it matches every filter, as often as it occurs in the input; never longer than the input |
| FilterUtils.FilterIsSubsequence | src/lib/filterUtils.ts:13 | the kept records appear in their original order |
| FilterUtils.FilterCompose | src/lib/filterUtils.ts:13-14 | filtering by two lists joined is filtering by one, then by the other |
| FilterUtils.FilterMonotone | src/lib/filterUtils.ts:13-14 | adding filters only removes records, keeping order |
| FilterUtils.FilterIdempotent | src/lib/filterUtils.ts:10-32 | filtering twice by the same filters is filtering once |
| FilterUtils.MatchIgnoresCase | src/lib/filterUtils.ts:15-16 | a match depends only on the lower-cased field text and filter value |
| FilterUtils.ContainsEmptyKeepsAll | src/lib/filterUtils.ts:19-20 | a `contains ""` filter keeps every record |
| FilterUtils.OtherOperationKeepsAll | src/lib/filterUtils.ts:27-28 | a filter with an unknown operation keeps every record |
| FilterUtils.EqualsManufacturer | src/lib/filterUtils.ts:21-22 | an `equals` filter keeps exactly the records whose field equals the value ignoring case |
| FilterUtils.FalseFlagReadsEmpty | src/lib/filterUtils.ts:15 | a false flag reads as the empty string: `equals ""` matches it and `contains "false"` does not |
| TableState.Columns | src/hooks/useUDITable.ts:25-39 | 13 columns, each at its position in the display order, so with distinct keys; editable iff not status and not view-only; frozen iff identifier or manufacturer; required iff identifier, manufacturer or product; typed boolean or date exactly for the boolean and date keys; labels as listed |
| TableState.ColumnAt | src/hooks/useUDITable.ts:25-39 | the column at place `i` has position `i` in the display order |
| TableState.Spec | src/hooks/useUDITable.ts:25-39 | a column's entry: its key and label; editable iff not status and not view-only; frozen iff identifier or manufacturer; required iff identifier, manufacturer or product; boolean or date type exactly for those keys |
| TableState.FrozenColumns | src/hooks/useUDITable.ts:41 | exactly the frozen columns, in table order |
| TableState.ScrollableColumns | src/hooks/useUDITable.ts:42 | exactly the columns that are not frozen, in table order |
| TableState.FrozenSplit | src/hooks/useUDITable.ts:41-43 | the frozen list is the identifier then the manufacturer, and frozen followed by scrollable gives back the column table |
| TableState.IsColumnFiltered | src/hooks/useUDITable.ts:109-111 | a column is filtered exactly when the number of active filters on it is positive |
| TableState.SeedValue | src/hooks/useUDITable.ts:50-57 | a boolean cell starts as "true" or "false", a text or date cell as its text |
| TableState.Assign | src/hooks/useUDITable.ts:66-78 | a boolean column stores whether the text is "true", any other column stores the text; every other column, the id, the lock and the old messages are unchanged; booleans stay booleans |
| TableState.CommitRecord | src/hooks/useUDITable.ts:64-80 | the committed column holds the coerced value, the other data columns are unchanged, id and lock are kept, and the result is a validated record (validating it again changes nothing), so errors, warnings and status are derived from its data; never pending; well-typed records stay well typed |
| TableState.SeedThenCommit | src/hooks/useUDITable.ts:45-88 | opening a cell and saving it untouched only re-validates the record |
| TableState.CommitRows | src/hooks/useUDITable.ts:64-83 | same length and order; rows with the cursor's id are committed, all others are kept; ids and locks are kept |
| TableState.ToggleRows | src/hooks/useUDITable.ts:97-102 | same length; rows with the id have their lock flipped and nothing else changed; other rows are kept |
| TableState.ToggleTwice | src/hooks/useUDITable.ts:94-106 | toggling the same id twice restores the records |
| TableState.UdiTable.constructor | src/hooks/useUDITable.ts:14-18 | starts with the given records, no cursor and an empty pending value |
| TableState.UdiTable.ColumnFiltered | src/hooks/useUDITable.ts:109-111 | the table's query: some position of its active filter list holds a filter on the column |
| TableState.UdiTable.SyncData | src/hooks/useUDITable.ts:20-23 | the records become the new data |
| TableState.UdiTable.StartEditing | src/hooks/useUDITable.ts:45-58 | no change on a locked record or in view-only mode; otherwise the cursor moves to the cell and the pending value is its seed |
| TableState.UdiTable.SetEditValue | src/hooks/useUDITable.ts:17 | the pending value becomes the argument |
| TableState.UdiTable.HandleSave | src/hooks/useUDITable.ts:60-88 | no change and nothing reported without a cursor or in view-only mode; otherwise the records become the committed rows, the cursor clears and the new records are reported |
| TableState.UdiTable.CancelEditing | src/hooks/useUDITable.ts:90-92 | the cursor clears |
| TableState.UdiTable.ToggleLock | src/hooks/useUDITable.ts:94-106 | no change in view-only mode; otherwise the lock of the matching rows flips, with no re-validation, and the records are reported |
| BulkEditor.AsWrittenRecord | src/components/UDITable/BulkEditDialog.tsx:46-52 | one unlocked record: the raw string in the field, other data columns, id and lock unchanged, and the result is a validated record |
| BulkEditor.BulkEditAsWritten | src/components/UDITable/BulkEditDialog.tsx:41-53 | same length and order; locked records unchanged; unlocked records hold the raw string in the field (also in boolean columns), other data columns unchanged, and each is a validated record (validating it again changes nothing) |
| BulkEditor.BulkEdit | src/components/UDITable/BulkEditDialog.tsx:41-53 | as above, also validated, but a boolean column stores whether the text is "true", and well-typed records stay well typed |
| BulkEditor.BulkEditIsCellSave | src/components/UDITable/BulkEditDialog.tsx:46-52 | each unlocked record ends as a single-cell save of the same text would leave it |
| BulkEditor.AsWrittenAgreesOffBooleans | src/components/UDITable/BulkEditDialog.tsx:46-49 | outside the boolean columns the written update and the coercing update are equal |
| BulkEditor.AsWrittenFalseIsTicked | src/components/UDITable/BulkEditDialog.tsx:46-49 | bulk-setting "false" on a boolean column stores the string "false", which is truthy, and the record is no longer well typed |
| BulkEditor.CoercedFalseIsCleared | src/components/UDITable/BulkEditDialog.tsx:46-49 | with coercion, "false" stores false and the record stays well typed |
| BulkEditor.UnlockedCount | src/components/UDITable/BulkEditDialog.tsx:38 | the number of unlocked records, at most the total |
| BulkEditor.AffectedCounts | src/components/UDITable/BulkEditDialog.tsx:69-72 | (to update, total, locked): updated is the unlocked count, locked is the number of locked records, and the two add up to the total |
| BulkEditor.EditableColumns | src/components/UDITable/BulkEditDialog.tsx:32 | exactly the editable columns, in table order |
| BulkEditor.OfferedTargets | src/components/UDITable/BulkEditDialog.tsx:32 | over the column table the status column is never offered, nothing is offered in view-only mode, otherwise the other twelve columns are offered in order |
| BulkEditor.BulkEditDialog.constructor | src/components/UDITable/BulkEditDialog.tsx:26-28 | closed, no field selected, empty value |
| BulkEditor.BulkEditDialog.SetOpen | src/components/UDITable/BulkEditDialog.tsx:75 | the open flag becomes the argument |
| BulkEditor.BulkEditDialog.SelectField | src/components/UDITable/BulkEditDialog.tsx:109-122 | only an offered column can be chosen; it becomes the selection |
| BulkEditor.BulkEditDialog.SetNewValue | src/components/UDITable/BulkEditDialog.tsx:129-134 | the value becomes the argument |
| BulkEditor.BulkEditDialog.ApplyChanges | src/components/UDITable/BulkEditDialog.tsx:34-66 | nothing happens without a field or with an empty value; otherwise the subset updated as the code writes it (raw text, also in boolean columns) and the unlocked count are reported, and the dialog closes with field and value reset |
| DataTable.ClearColumnFilter | src/components/UDIDataTable.tsx:60-63 | keeps exactly the filters on other columns, in order and each as often as before; the column is no longer filtered and the other columns' filtered state is unchanged |
| DataTable.ApplyFilter | src/components/UDIDataTable.tsx:49-58 | the new filter comes last, preceded by exactly the filters on other columns, in their order and each as often as before |
| DataTable.ClearChangesIffFiltered | src/components/UDIDataTable.tsx:60-63 | clearing a column changes the filter list exactly when the column is filtered |
| DataTable.ClearAllFilters | src/components/UDIDataTable.tsx:79 | no column is filtered and every record is shown |
| DataTable.KeepOnePerColumn | src/components/UDIDataTable.tsx:51 | removing filters keeps at most one filter per column |
| DataTable.ApplyKeepsOnePerColumn | src/components/UDIDataTable.tsx:49-58 | setting a column's filter keeps at most one filter per column |
| DataTable.ApplyThenClear | src/components/UDIDataTable.tsx:49-63 | clearing a column right after setting it equals clearing it |
| DataTable.ApplyTwice | src/components/UDIDataTable.tsx:49-58 | setting the same column twice leaves only the second filter |
| DataTable.ApplyNarrows | src/components/UDIDataTable.tsx:49-58 | the rows shown are the other columns' rows narrowed by the new filter |
| TableControls.CountStatus | src/components/TableControls.tsx:113-115 | at most the total, and positive exactly when some record has the status |
| TableControls.StatusCountsPartition | src/components/TableControls.tsx:113-115 | the four status counts add up to the number of records |
| TableControls.ShownCountsBound | src/components/TableControls.tsx:113-115 | valid, warning and invalid counts sum to at most the total, and to the total when nothing is pending |
| TableControls.ValidatedStatuses | src/components/TableControls.tsx:17-19 | after validate-all a record is invalid exactly when it fails a check, and has a warning status exactly when it passes every check but warns |
| TableControls.NoInvalidAfterValidate | src/components/TableControls.tsx:17-25 | after validate-all no record is invalid exactly when every record passes every check |
| TableControls.NoWarningAfterValidate | src/components/TableControls.tsx:31-43 | when every record passes every check, no record has a warning status exactly when none warns |
| TableControls.ValidateAll | src/components/TableControls.tsx:17-44 | the records are the validated batch with nothing pending; the summary reports invalid records exactly when some record fails a check, with the invalid, warning and valid counts of the validated batch; otherwise warnings, with the warning count, if any; otherwise all valid |
| TableControls.LockAll | src/components/TableControls.tsx:46-54 | same length; every record locked and otherwise unchanged |
| TableControls.UnlockAll | src/components/TableControls.tsx:56-64 | same length; every record unlocked and otherwise unchanged |
| TableControls.LockAllIdempotent | src/components/TableControls.tsx:47 | lock-all twice, or after unlock-all, equals lock-all |
| TableControls.UnlockAllIdempotent | src/components/TableControls.tsx:57 | unlock-all twice, or after lock-all, equals unlock-all |
| TableControls.LockAllBlocksBulkEdit | src/components/TableControls.tsx:47 | after lock-all a bulk edit, as written or corrected, changes nothing and counts nothing as updated |
| TableControls.UnlockAllOpensBulkEdit | src/components/TableControls.tsx:57 | after unlock-all a bulk edit counts every record as updated |
| TableControls.HandleImport | src/components/TableControls.tsx:66-84 | rejected exactly when some record is invalid, reporting the invalid count; otherwise imported with the record count |
| TableControls.ImportAfterValidate | src/components/TableControls.tsx:17-76 | after validate-all, import is rejected exactly when some record fails a check |
| TableControls.ImportIgnoresLocks | src/components/TableControls.tsx:46-76 | locking or unlocking everything does not change the import decision |
| FileUpload.Extension | src/hooks/useFileUpload.ts:66 | the result is a dot-free suffix of the name, preceded by a dot unless it is the whole name |
| FileUpload.AcceptsFile | src/hooks/useFileUpload.ts:66-68 | an accepted name ends with its extension of 3 or 4 characters, which follows a dot unless it is the whole name |
| FileUpload.ExtensionAfterLastDot | src/hooks/useFileUpload.ts:66 | the extension of `base.ext` is `ext` whatever `base` holds |
| FileUpload.ExtensionWithoutDot | src/hooks/useFileUpload.ts:66 | a name without a dot is its own extension |
| FileUpload.AcceptsByLastSegment | src/hooks/useFileUpload.ts:66-68 | a file is accepted exactly when its last segment, lower-cased, is csv, xlsx or xls; a dot-free name is judged whole |
| FileUpload.HistoryEntry | src/hooks/useFileUpload.ts:94-106 | record count is the batch length, invalid and warning counts are the status counts, valid iff no record is invalid |
| FileUpload.PushHistory | src/hooks/useFileUpload.ts:108 | the new entry is first, followed by the previous entries in order, and the length is capped at 10 |
| FileUpload.PushFullHistory | src/hooks/useFileUpload.ts:108 | on a full log the oldest entry is dropped |
| FileUpload.PushKeepsRecent | src/hooks/useFileUpload.ts:108 | each kept entry moves one place down |
| FileUpload.FileUploader.constructor | src/hooks/useFileUpload.ts:16-19 | no file, not loading, no records, empty history |
| FileUpload.FileUploader.Ingest | src/hooks/useFileUpload.ts:88-119 | the validated batch becomes the uploaded records and its entry heads the capped history; loading ends |
| FileUpload.FileUploader.ProcessFile | src/hooks/useFileUpload.ts:81-120 | without an argument the current file is used; with no file at all nothing changes; otherwise one ingest under the file's name |
| FileUpload.FileUploader.HandleFile | src/hooks/useFileUpload.ts:65-79 | a rejected file changes nothing; an accepted one becomes the current file and is ingested, ending not loading |
| FileUpload.FileUploader.LoadDemoData | src/hooks/useFileUpload.ts:122-156 | one ingest under the name "Demo Data.csv" |
| GmdnSheet.DeviceRecords | src/hooks/useGMDNSheet.ts:14-16 | exactly the sub-records of the selected device, in order and each as often as in the list; none when no device is selected |
| GmdnSheet.NewGmdnRecord | src/hooks/useGMDNSheet.ts:21-28 | the device's id, empty code and term, pending, unlocked |
| GmdnSheet.SaveRows | src/hooks/useGMDNSheet.ts:39-49 | same length; rows with the id take code and term and become valid, keeping id, device and lock; other rows are kept |
| GmdnSheet.DeleteRows | src/hooks/useGMDNSheet.ts:61-63 | exactly the rows with the id are removed; the rest keep their order and their number of occurrences |
| GmdnSheet.AddedShowsLast | src/hooks/useGMDNSheet.ts:14-30 | an added sub-record shows last in its device's view |
| GmdnSheet.DeleteUndoesAdd | src/hooks/useGMDNSheet.ts:18-63 | deleting a freshly added sub-record with a fresh id restores the list |
| GmdnSheet.SaveKeepsOtherDevices | src/hooks/useGMDNSheet.ts:39-49 | saving leaves every other device's view unchanged |
| GmdnSheet.GmdnSheetState.constructor | src/hooks/useGMDNSheet.ts:7-11 | empty list, nothing selected, no cursor, empty edit fields |
| GmdnSheet.GmdnSheetState.FilteredGmdnRecords | src/hooks/useGMDNSheet.ts:14-16 | the device view of the sheet's list for the current selection: exactly the selected device's sub-records |
| GmdnSheet.GmdnSheetState.SetSelectedDevice | src/hooks/useGMDNSheet.ts:8 | the selection becomes the argument |
| GmdnSheet.GmdnSheetState.SetEditCode | src/hooks/useGMDNSheet.ts:10 | the code field becomes the argument |
| GmdnSheet.GmdnSheetState.SetEditTerm | src/hooks/useGMDNSheet.ts:11 | the term field becomes the argument |
| GmdnSheet.GmdnSheetState.AddGmdn | src/hooks/useGMDNSheet.ts:18-34 | no change without a selected device; otherwise a blank pending sub-record is appended, the cursor moves to it, edit fields cleared |
| GmdnSheet.GmdnSheetState.SaveGmdn | src/hooks/useGMDNSheet.ts:36-53 | no change without a cursor; otherwise the rows under the cursor are saved and the cursor clears |
| GmdnSheet.GmdnSheetState.EditGmdn | src/hooks/useGMDNSheet.ts:55-59 | the cursor, code and term are seeded from the sub-record |
| GmdnSheet.GmdnSheetState.DeleteGmdn | src/hooks/useGMDNSheet.ts:61-63 | the rows with the id are removed |
| GmdnSheet.GmdnSheetState.CancelEditing | src/hooks/useGMDNSheet.ts:65-67 | only the cursor clears |
| TableContent.CellErrorStatus | src/components/UDITable/TableContent.tsx:44-56 | error iff invalid with errors of which some contains the column text ignoring case; warning iff the same for a warning record and its warnings; valid or pending records and invalid records without errors get none |
| TableContent.CellHighlightFor | src/components/UDITable/TableContent.tsx:44-56 | as above with the column's key or its label searched for |
| TableContent.CorrectedExtendsAsWritten | src/components/UDITable/TableContent.tsx:44-56 | every cell the written rule highlights gets the same highlight from the corrected rule |
| TableContent.ErrorMessageHighlights | src/components/UDITable/TableContent.tsx:45-48 | an error message that mentions a column's label highlights that column |
| TableContent.RequiredFieldsHighlight | src/lib/validators.ts:44-46 | with labels searched for, each missing required field highlights its own cell |
| TableContent.ShortIdentifierHighlights | src/lib/validators.ts:70-72 | with labels searched for, a too-short identifier highlights the identifier cell |
| TableContent.RequiredMessageOmitsKey | src/components/UDITable/TableContent.tsx:46 | the missing-identifier message does not contain the lower-cased key "deviceidentifier" |
| TableContent.AsWrittenMissesIdentifierCell | src/components/UDITable/TableContent.tsx:44-56 | a record missing only its identifier is invalid, yet the written rule leaves the identifier cell plain while the corrected rule marks it |

## Left out

- Browser I/O is not modelled: reading and writing the upload history in `localStorage` (with its JSON parse), the JSON export through a Blob download, toasts, dialogs, tabs, drag-and-drop state and all rendering.
- The timers around ingestion are not modelled. `FileUpload.FileUploader.Ingest` is one synchronous step, so `isLoading` is only seen as false afterwards.
- Generated data, ids and clock readings are inputs, not computed. The mock record batch, the history entry id from `Date.now`, the timestamp from `new Date()` and the GMDN id from `uuidv4` are all parameters.
- JavaScript `Date` parsing is engine-dependent. The model uses the strict Gregorian calendar (days per month, leap years) for `new Date(value)` validity. It compares dates by (year, month, day). A production date that does not parse compares as false, so it raises no warning. A production date not shaped YYYY-MM-DD counts as not parsing, although an engine may parse forms such as `2024/06/01` and so add the date-order warning beside the format error; the record is invalid either way.
- `length` is counted in characters, not UTF-16 code units. The two agree for every identifier without astral-plane characters.
- `toLowerCase` is modelled as ASCII case folding.
- `createColumnFilter` has no body in this model. `DataTable.ApplyFilter` takes the filter it builds as a parameter. The lemmas that need that filter to be on the chosen column say so in their `requires`.
- `getUniqueColumnValues` and the value pickers are not modelled.
- `FilterOption.column` ranges over the 13 table columns. The source allows any record key, including `id` and `isLocked`.
- UdiTypes.SetRaw: writing the status column is a no-op. In the source it stores a string that the validator overwrites at once, which `Validators.ValidateOverwritesStatus` shows makes no difference.
- TableState.UdiTable.SyncData: the effect that copies new data into the table's records is a method the caller invokes. It does not run automatically.
- The `activeSheet` tab state, `viewHistoryItem` (a callback pass-through) and the bulk-update pass-through in `UDIDataTable.tsx:65-68` are not separate members. The updated records are returned to the caller unchanged.
- The superseded duplicate of the extension check in `src/components/FileUploader.tsx` is not modelled.
- `ValidationSummary.tsx` is not modelled. It only computes presentation percentages.

## Findings

| source | as written | input that shows it | evidently intended | confidence | as-written member | corrected member |
|---|---|---|---|---|---|---|
| src/components/UDITable/BulkEditDialog.tsx:46-49 | the typed text is stored in the chosen field as is, also in the four boolean columns | an unlocked record, field `singleUse`, new value "false": the field holds the string "false", which is truthy, so the cell shows as ticked | the coercion a single-cell save applies to the same columns (`editValue === "true"`, src/hooks/useUDITable.ts:69-71) | not executed | BulkEditor.AsWrittenFalseIsTicked | BulkEditor.CoercedFalseIsCleared |
| src/components/UDITable/TableContent.tsx:44-56 | the column key, lower-cased, is searched for in the messages; keys are camelCase, messages use spaced labels | a record with only its device identifier empty: the error "Device Identifier is required" does not contain "deviceidentifier", so the identifier cell is not highlighted | a message belongs to a column when it contains the column's name or its human label | not executed | TableContent.AsWrittenMissesIdentifierCell | TableContent.RequiredFieldsHighlight |

The dialog (`BulkEditor.BulkEditDialog.ApplyChanges`) models the code as
written and hands on `BulkEditor.BulkEditAsWritten`. `BulkEditor.BulkEdit`
is the corrected update, proved to equal a single-cell save on every
unlocked record (`BulkEditor.BulkEditIsCellSave`).
`BulkEditor.AsWrittenAgreesOffBooleans` shows that the two differ only on
boolean columns.
