# Branch online-status dashboard, modelled in Dafny

`script.js` runs a browser dashboard for the CCTV/online status of a chain's
branches. It imports a spreadsheet into a browser database, shows the
branches filtered and paged in a table, shows summary cards and a province
list, lets the user add, edit and delete branches, and exports the data as
CSV. This project models the data logic of that page and proves what it
guarantees.

A branch is a `Branch(id, fields)`: the key the database assigns plus a
map from field name to string. The modules follow the script's parts:

- `Text`: JavaScript's `trim` (the exact ECMAScript whitespace set),
  `toLowerCase` on ASCII letters, `includes`, `join`, `String(id)` and the
  order of the default `sort`, taken on characters (code points) rather
  than UTF-16 code units.
- `Records`: the record type, the field names and the three canonical
  `onlineStatus` values.
- `Importer`: `processData` and `getColumnMapping`, the trimmed header row,
  the column-by-column build of each record, the four alias tables, the
  priority-ordered classification of `onlineStatus`, and the skip rules.
  `ProcessData` is the loop itself. It is proved equal to a function over
  the rows (`ImportedRecords`, `SkippedRows`).
- `Query`: the filter predicate of `applyFilters` and the filtered list.
- `Paging`: `Math.ceil` page counts, `goToPage` clamping, the page slice
  of `updateTable`, and the counters and button states of
  `updatePagination`.
- `Stats`: `updateStats`, with `Math.round` stated exactly in integers,
  and the sorted, duplicate-free province list of `updateProvinceFilter`.
- `Store`: the `branches` table as a class `BranchStore`. Records are
  kept in key order, and keys are never reused (`clear` does not reset
  the generator). The class models add, update (a merge), delete, clear,
  bulk add and the import transaction, plus the rules of `saveBranch`:
  the duplicate-code check through the non-unique `storeCode` index,
  and the list of changed fields an edit logs.
- `Csv`: the text `exportCSV` builds. A reader for that format is also
  given, and proved to recover every field of every branch.
- `Dashboard`: the page state (`allBranches`, `filteredBranches`,
  `currentPage`, `pageSize` and the three filter controls) as a class
  whose methods are the script's event handlers.

The script's behaviour kept exactly, where it departs from the obvious reading:

- The `"SBP"` key of the status table is upper-case. Lookups use the
  lower-cased value, so they never reach it: "sbp" passes through
  unchanged.
- The duplicate check looks only at the first record holding the code.
  Only while codes are unique does it reject exactly the submissions
  whose code another record holds. Import never checks codes, so uniqueness
  is not claimed after an import.
- An edit that sends an empty field the record never had logs a change
  from "(ว่าง)" to "(ว่าง)".
- After a reload, the province filter keeps its value only when that
  province is still listed. The rows, however, were already filtered with
  the old value.
- A sheet holding only its header row passes the empty-file test, although
  the error message asks for at least one data row. The import then
  clears the store and adds nothing.

## Model

| member | source | states |
|---|---|---|
| Text.TrimStart | script.js:775 | The result is a suffix of the input, everything dropped is whitespace, and it does not start with whitespace. |
| Text.TrimEnd | script.js:775 | The result is a prefix of the input, everything dropped is whitespace, and it does not end with whitespace. |
| Text.Trim | script.js:775 | The result is the input with a whitespace prefix and a whitespace suffix cut off; it is empty exactly when the string is all JavaScript whitespace, and otherwise it neither starts nor ends with whitespace. |
| Text.TrimmedIsFixed | script.js:815 | Trimming a string without outer whitespace returns it unchanged. |
| Text.LowerChar | script.js:821 | An ASCII capital becomes its lower-case letter, 32 code points above it; any other character is kept. |
| Text.Lower | script.js:421 | Lower-casing keeps the length, turns each ASCII capital into its lower-case letter (32 code points above), and keeps every other character. |
| Text.LowerIdempotent | script.js:421 | Lower-casing twice is lower-casing once. |
| Text.LowerFixesCaseless | script.js:835 | Text without ASCII capitals, Thai text among it, is unchanged. |
| Text.ContainsAt | script.js:428 | An occurrence at any position makes `includes` (`Text.Contains`, script.js:428, 836-841) true. |
| Text.ContainsOnlyPresentChars | script.js:836 | A string lacking one character of the pattern does not include the pattern. |
| Text.NatToString | script.js:428 | The decimal text of an id is non-empty and made of digits. |
| Text.NatToStringRoundTrip | script.js:428 | The decimal text of a record id reads back to the id. |
| Text.StrLessIrreflexive | script.js:561 | The order of the province sort (`Text.StrLess`, script.js:561) is irreflexive. |
| Text.StrLessTransitive | script.js:561 | The order of the province sort is transitive. |
| Text.StrLessTotal | script.js:561 | Any two different strings are ordered one way or the other. |
| Importer.AliasLookup | script.js:821-830 | The result is the value itself or a canonical value of the table. |
| Importer.AliasLookupIdempotent | script.js:820-831 | With a stable table, looking up an already normalised value changes nothing. |
| Importer.StableByLowerKey | script.js:778-782 | A table whose values all lower-case to their own keys maps its values back to themselves. |
| Importer.AliasTablesStable | script.js:778-799 | Each of the four alias tables (`Importer.RegionMap` 778-782, `StatusMap` 784-790, `AllZoneMap` 791-795, `ShopTypeMap` 796-799) maps its canonical values back to themselves. |
| Importer.StatusSbpPassesThrough | script.js:784-790 | Every spelling of "sbp" passes the status table unchanged, because the "SBP" key is never looked up. |
| Importer.ClassifyOnline | script.js:835-844 | The result is canonical; "ไม่สามารถ" wins; no-CCTV exactly when there is no "ไม่สามารถ" but there is "cctv" or "ไม่ติดกล้อง"; connectable exactly when there is none of "ไม่สามารถ", "cctv" and "ไม่ติดกล้อง", and there is "สามารถ" or the value is "online", "1" or "true". |
| Importer.OnlineStatusOf | script.js:834-847 | The result is canonical, and an empty or missing value is not connectable. |
| Importer.ClassifyCanonicalFixed | script.js:835-844 | Each canonical value classifies to itself, so re-importing exported data keeps the status. |
| Importer.ClassifyExamples | script.js:840-846 | "Online", "1", "true" and "สามารถเชื่อม" are connectable; "" and "offline" are not. |
| Importer.NegativePhraseShadowsPositive | script.js:836-841 | "ไม่สามารถ" contains "สามารถ", so only the order of the tests makes a cannot-connect value not connectable. |
| Importer.RowFieldsPresent | script.js:812-817 | A field is present exactly when some column with a mapped header and an existing cell supplies it. |
| Importer.RowFieldsLastWins | script.js:812-817 | A present field holds the trimmed cell (the header row trimmed by `Importer.TrimAll`, 775) of the last column that supplies it. |
| Importer.RowFieldsKeys | script.js:812-817 | A built record only holds field names the column mapping produces. |
| Importer.NormalizeAlias | script.js:820-831 | Only the one key changes: a non-empty value goes through the table and an empty value stays. |
| Importer.AliasPair | script.js:820-825 | Two alias steps on distinct keys rewrite just those two fields, each through its own table. |
| Importer.AliasSteps | script.js:820-831 | Four alias steps on distinct keys rewrite just those four fields, each through its own table, and set the online field. |
| Importer.NormalizeWith | script.js:820-847 | Region, status, zone and shop type go through their tables; `onlineStatus` is set and added when missing; no other field changes. |
| Importer.AliasStepsIdempotent | script.js:820-831 | With stable tables, running the four alias steps again changes nothing. |
| Importer.NormalizeWithIdempotent | script.js:820-847 | With stable tables, normalising a normalised record changes nothing. |
| Importer.NormalizeRecordIdempotent | script.js:819-847 | Normalising an imported record a second time changes nothing. |
| Importer.ProcessRowWellFormed | script.js:806-853 | A kept row's record has a non-empty store code, a canonical online status, and only mapped field names. |
| Importer.OnlineStatusIsMapped | script.js:859-876 | `onlineStatus` is a target of the column mapping (`Importer.ColumnMapping`, the table of `getColumnMapping`). |
| Importer.RowResultsAt | script.js:805-854 | The outcome at each row position is that row's own outcome. |
| Importer.ImportAccounting | script.js:802-855 | Imported plus skipped equals the number of data rows, and every imported record is well formed. |
| Importer.HeaderOnlyImportsNothing | script.js:719-730 | A sheet of one header row, which the empty-file test lets through, yields no record and no skipped row. |
| Importer.ImportKeepsRepeatedRows | script.js:849-851 | A row given twice yields its record twice: import does not remove duplicates. |
| Importer.ProcessData | script.js:774-856 | The loop returns exactly the row-wise records and skip count, the two add up to `data.length - 1`, and every record is well formed. |
| Importer.ProcessRows | script.js:805-854 | For any column mapping, the loop returns exactly the row-wise records and skip count, which add up to the data rows, and every record is well formed. |
| Importer.ProcessOneRow | script.js:806-853 | One pass of the loop body gives exactly the row's outcome `Importer.ProcessRow` (806-853): skipped when blank (`Importer.IsBlankRow`, 807-809) or without a store code (849-851), else the record normalised by `Importer.NormalizeRecord` (819-847). |
| Importer.BuildRecord | script.js:811-817 | The `forEach` over the headers builds the row-wise record. |
| Query.FilterBranches | script.js:425-437 | A branch is kept exactly when it is in the list and passes all three controls (`Query.Matches`, 426-435: `MatchesSearch` 426-429, `MatchesProvince` 430, `MatchesStatus` 431-433); the result is no longer than the list. |
| Query.FilterKeepsMatching | script.js:425-436 | A list holding only matching branches is its own filtering. |
| Query.FilterAppend | script.js:425 | Filtering preserves order: it distributes over concatenation. |
| Query.FilterIdempotent | script.js:425-437 | Filtering twice with the same controls is filtering once. |
| Query.NoFilterKeepsAll | script.js:426-435 | With every control empty, nothing is filtered out. |
| Query.UnknownStatusMatchesNothing | script.js:433-435 | A status value other than "", "online" and "offline" empties the table. |
| Query.SearchIgnoresCase | script.js:421-428 | The search term's capitalisation does not change the result. |
| Query.StatusPartition | script.js:433-435 | "online" and "offline" split what the other two controls leave, with nothing lost or counted twice. |
| Query.OfflineMeansNotConnectable | script.js:432-433 | A branch that is not exactly connectable (`Records.IsConnectable`, 432), including a no-CCTV one, is shown under "offline" and not under "online". |
| Paging.TotalPages | script.js:534 | The least number of pages of the given size holding all rows; zero exactly when there are no rows. |
| Paging.ClampPage | script.js:535 | A page in range is kept, one below range becomes 1, and one above becomes the last page (or 1 when there are no pages). |
| Paging.ClampPageIdempotent | script.js:535 | Clamping twice is clamping once. |
| Paging.PageSlice | script.js:464-466 | At most one page of rows: the slice from `(page-1)*size` up to `min(page*size, n)`, and nothing past the end. |
| Paging.PagesUpToPrefix | script.js:464-466 | Pages 1 to k laid end to end are the first `k*size` rows. |
| Paging.PagesCoverAll | script.js:464-466 | All pages together are the whole filtered list, with no row lost or repeated. |
| Paging.PagesInRangeAreFilled | script.js:464-466 | Each page in range shows at least one row, and each page before the last is full. |
| Paging.Pagination | script.js:509-524 | Nothing is shown without rows; otherwise the counts, with first/previous disabled exactly on page 1 and next/last exactly on the last page. |
| Paging.PaginationMatchesPage | script.js:513-516 | On a page in range, the row numbers shown name exactly the rows the table shows. |
| Stats.CountConnectable | script.js:549 | The online count, of branches for which `Records.IsConnectable` holds, is at most the total. |
| Stats.CountIsOnlineFilter | script.js:549 | The online card equals the number of rows the "online" filter shows. |
| Stats.RoundedPercent | script.js:551 | 0 without branches; otherwise the percentage rounded half up, characterised by two integer inequalities, and at most 100. |
| Stats.RoundedPercentBounds | script.js:551 | The integer quotient rounds half up and is at most 100. |
| Stats.Summarize | script.js:547-551 | total is the branch count, online + offline = total, and the percentage is the rounded share of online branches. |
| Stats.PercentExtremes | script.js:551 | No online branch shows 0%; all online shows 100%. |
| Stats.PercentMonotone | script.js:551 | More online branches never show a smaller percentage. |
| Stats.InsertSorted | script.js:561 | Inserting keeps the list strictly sorted, and the result holds exactly the old items plus the new one. |
| Stats.ProvinceList | script.js:561 | Strictly sorted (so without duplicates), holding exactly the non-empty provinces of the branches. |
| Stats.ProvinceSelection | script.js:563-570 | The previous choice is kept when it is still listed; otherwise the choice falls back to all provinces (""). |
| Csv.Escape | script.js:911 | Doubling quotes never shortens the text. |
| Csv.RowsTextAppend | script.js:910-912 | Appending a branch appends exactly its quoted line. |
| Csv.BuildCsv | script.js:909-914 | The built text is the byte-order mark of line 914, the unquoted header line, then one quoted line per branch. |
| Csv.BuildCsvWith | script.js:909-914 | For any header line, the built text is the byte-order mark, that header, then one quoted line per branch. |
| Csv.AppendRows | script.js:910-912 | The `forEach` appends one quoted line per branch, in order. |
| Csv.ReadQuotedEscape | script.js:911 | An escaped value followed by its closing quote reads back to the value. |
| Csv.ReadFieldsLine | script.js:911 | A quoted line (`Csv.QuotedLine`: each cell's `Csv.Quote` joined by commas with `Text.Join`, then a newline) reads back to its cells and leaves what follows. |
| Csv.ReadRowsText | script.js:910-912 | The data lines (`Csv.RowsText`, 910-912) read back to the cells of every branch. |
| Csv.ExportRoundTrip | script.js:903-914 | The exported text reads back to exactly the fourteen values of every branch (`Csv.AllCells`: one `Csv.RowCells` per branch, its fields in column order with a missing one as "", 904-907), whatever quotes, commas or newlines they hold. |
| Store.FirstWithCode | script.js:613 | The result is a record of the table holding the code; there is none exactly when no record holds it. |
| Store.FirstWithCodeIsLowest | script.js:613 | The record found has the lowest key among those holding the code. |
| Store.UniqueHolder | script.js:613-617 | While codes are unique, two records holding the same code are the same record. |
| Store.AcceptedHolders | script.js:613-617 | With unique codes, an accepted submission's code is held only by the record being edited. |
| Store.DuplicateIffOtherHolder | script.js:611-617 | With unique codes, a save is refused (`Store.IsDuplicateSubmission`, 613-614, against the edited id `Store.EditingId`, 611) exactly when another record holds the code (both directions). |
| Store.DuplicateCheckSeesFirstOnly | script.js:613-617 | Once two records share a code, editing the first of them passes the check although the second holds the code. |
| Store.UpdateFields | script.js:633 | Keys and order are kept; the record with the key gets the changes merged over its fields, and every other record is unchanged. |
| Store.RemoveId | script.js:674 | Deleting never lengthens the table. |
| Store.RemoveIdMembers | script.js:674 | After deleting, the table holds exactly the old records without that key. |
| Store.RemoveIdIncreasing | script.js:674 | Deleting keeps the table in key order, with keys from the generator. |
| Store.NumberFromFields | script.js:729 | Bulk-added records (`Store.NumberFrom`: consecutive keys from the next free key) keep exactly the given field maps, in order. |
| Store.ImportMayRepeatCodes | script.js:727-730 | Importing two rows with the same code leaves two records holding it. |
| Store.ShownValue | script.js:629 | An empty value is shown as "(ว่าง)"; any other value as itself; what is shown is never empty. |
| Store.ChangeList | script.js:624-631 | Every logged change is for a differing field of the form other than the id, with its label and its shown old and new values. |
| Store.ChangeListComplete | script.js:625-631 | Every differing field of the form gets its log entry. |
| Store.ChangeListExact | script.js:625-631 | A field is logged exactly when the edit changes it (both directions). |
| Store.NoChangesKeepsFields | script.js:625-633 | An empty change log means the update leaves the record's fields as they were. |
| Store.EmptyNewFieldIsLogged | script.js:627-629 | An empty field the record never had is logged as a change from "(ว่าง)" to "(ว่าง)". |
| Store.SaveKeepsCodesUnique | script.js:613-642 | A save the check accepts never makes two records share a code, whether it edits (`Store.IsEdit`, 619) by merging the form without its id, or adds the form under the next key (`Store.SavedRecords`, 618-642). |
| Store.FindId | script.js:584 | A record with that key is found exactly when one exists. |
| Store.DiffFields | script.js:624-631 | The comparison loop builds exactly the change list. |
| Store.BranchStore.constructor | script.js:2-7 | An empty table whose key generator starts at 1. |
| Store.BranchStore.Get | script.js:584 | `get(id)`: the record with that key, when one exists. |
| Store.BranchStore.Add | script.js:642 | The fields are stored under the next key at the end of the table, and the generator advances. |
| Store.BranchStore.Update | script.js:633 | The table is replaced by the merge, in key order, and no key is handed out. |
| Store.BranchStore.Delete | script.js:674 | The table loses the record with that key, in key order. |
| Store.BranchStore.Clear | script.js:698 | The table is empty; the key generator is not reset. |
| Store.BranchStore.BulkAdd | script.js:729 | All items are appended in order under consecutive keys. |
| Store.BranchStore.ReplaceAll | script.js:727-730 | After the import transaction, the table holds exactly the imported records, in order. |
| Store.BranchStore.Save | script.js:607-651 | A form without a store code, or whose code fails the duplicate check, leaves the table unchanged; otherwise the edit or the add is applied, and an edit returns its change list. |
| Dashboard.Dashboard.constructor | script.js:84-97 | The first load: every stored record, none filtered out, page 1, the given page size. |
| Dashboard.Dashboard.RefreshUI | script.js:442-447 | Only the province control can change: it keeps its value when that value is still listed. |
| Dashboard.Dashboard.ApplyFilters | script.js:420-439 | The filtered list becomes exactly the branches passing the controls, and the page goes back to 1. |
| Dashboard.Dashboard.LoadFromDB | script.js:100-104 | The loaded list becomes the stored records in key order, then the filters run. |
| Dashboard.Dashboard.ChangeFilters | script.js:324-326 | The controls take the new values (the province kept only while listed), the filters re-run with them, and the page goes back to 1; the loaded branches and the page size stay. |
| Dashboard.Dashboard.ChangePageSize | script.js:526-531 | The new size is set and the page goes back to 1; nothing else changes. |
| Dashboard.Dashboard.PageCount | script.js:534 | The current page lies between 1 and the page count (or 1 when there are no rows). |
| Dashboard.Dashboard.GoToPage | script.js:533-538 | The page becomes the requested one clamped into range; nothing else changes. |
| Dashboard.Dashboard.GoToFirstPage | script.js:339 | The page becomes 1. |
| Dashboard.Dashboard.GoToLastPage | script.js:342-345 | The page becomes the last one (1 when there are no rows). |
| Dashboard.Dashboard.GoToPreviousPage | script.js:540 | One page back, unless already on page 1. |
| Dashboard.Dashboard.GoToNextPage | script.js:541-544 | One page on, unless already on the last page. |
| Dashboard.Dashboard.PageItems | script.js:463-466 | At most one page of rows, never empty while some branch passes, each a loaded branch that passes the filters. |
| Dashboard.Dashboard.PageCounters | script.js:509-524 | The counters are shown exactly when rows pass, and they name exactly the rows on the page. |
| Dashboard.Dashboard.Statistics | script.js:547-551 | The cards are computed over all loaded branches: the online card is the "online" filter's count, online + offline = total, and the percentage is at most 100. |
| Dashboard.Dashboard.SaveBranch | script.js:607-651 | A refused form changes nothing, neither store nor page nor controls; an accepted one is saved and reloaded, and an edit logs exactly its change list. The page size stays. Unique codes stay unique. |
| Dashboard.Dashboard.DeleteBranch | script.js:672-679 | That record goes, every other stays, and the page reloads on page 1; the page size and the controls stay, save the province dropping out when no longer listed. |
| Dashboard.Dashboard.ClearAllData | script.js:696-703 | The store and the page are empty, and the cards show zero; the page size and the controls stay, save the province dropping out when no longer listed. |
| Dashboard.Dashboard.ImportFile | script.js:711-736 | A file without rows leaves the store, the loaded and filtered branches and the page as they were, and only refreshes the province control; a header-only file clears the store and imports nothing. Otherwise the store holds exactly the records `processData` returns, the counts add up to the data rows, and every record is well formed. The page size always stays. |
| Dashboard.Dashboard.ExportCsv | script.js:898-914 | There is no export without branches; otherwise the CSV text, which reads back to every branch's fourteen values. |

## Left out

- The DOM: the table's HTML, `highlightText`, the modals and their
  open/close functions, `showNotification`, `displayDataSource` and the
  event wiring. Only the state they read or write is modelled.
- `editBranch`'s filling of the form. Its database fetch is `BranchStore.Get`.
  The form then reaches `SaveBranch` as a map of field values, plus the
  key order in which `for...in` visits it.
- index.html is not part of this model. The form's field names, the hidden
  id input and the page-size options are therefore inputs. `ChangePageSize`
  requires a positive size (the list's `parseInt` values).
- `Dashboard.Dashboard.SaveBranch`, `Store.BranchStore.Save` and
  `Store.SavedRecords`: on the add path an `id` entry in the form is
  stored as an ordinary field. The model does not say how the database
  would treat it as a key.
- `parseFile`, FileReader and the XLSX decoder (I/O). The sheet reaches
  `ImportFile` as rows of strings. `parseFile` asks for formatted text with
  an empty default (script.js:755, 759), so numeric cells never reach
  `processData`.
- `exportExcel`, and the Blob, object URL and download link of `exportCSV`
  (I/O).
- `logActivity`, the activity log and its timestamps, the `meta` table and
  `updateDataSource`, and the text of the log lines. The change list itself
  is modelled.
- The `async`/`await` sequencing, the transaction machinery and the
  `catch` branches. Database calls are modelled as always succeeding.
- The debounce timer on the search box (a clock).
- `Text.Lower`: only ASCII letters are lower-cased, not JavaScript's full
  Unicode case mapping. The script's data are Thai and ASCII.
- `Text.StrLess`: compares Dafny characters (code points), not UTF-16
  code units. The two orders agree on the Basic Multilingual Plane.
- JavaScript prototype properties: a header or field named after a
  property of `Object.prototype` (such as "constructor") behaves
  differently in the script.
- `Importer.AliasLookup`: in the script a region, status, zone or shop
  type value that lower-cases to a property of `Object.prototype` (such
  as "constructor" or "toString") finds that inherited property in the
  alias table (script.js:821-830). The model looks up own keys only and
  leaves such a value unchanged.
- `Stats.RoundedPercent`: computed exactly in integers, with halves rounded
  up, rather than with floating point.
- `Importer.NormalizeRecord` classifies `onlineStatus` straight from the
  built record. The script does so after the four alias steps, which never
  touch that field.
- A form without a store code: the script's database query then throws
  before any write. The model returns `MissingStoreCode` and changes
  nothing.
