# Personal finance tracker ledger, in Dafny

A model of the transaction ledger kept by the `PersonalFinanceTracker` class of
`script.js`. The ledger is a list of income and expense transactions plus the
filtered view the page shows. The model covers:

- adding a transaction from the form, with its validation and sign
  normalisation;
- deleting by id, and clearing everything after confirmation;
- the search / type / category filter and the newest-first list view;
- the validity filter applied to the saved copy when the page loads;
- the statistics report, the summary totals and the per-category chart sums;
- CSV export, CSV import and `parseCSVLine`, the quote-aware line splitter
  the import relies on.

Modules, one file each:

| module | file | what it holds |
|---|---|---|
| `Seqs` | seqs.dfy | `Option`, `filter` (`Keep`), subsequences, sums |
| `Text` | text.dfy | the JavaScript string operations used: `trim`, `toLowerCase`, `includes`, `split`, `join`, the two quote replacements |
| `Csv` | csv.dfy | `parseCSVLine`, as a scanner function and as the source's loop |
| `Ledger` | ledger.dfy | the `Transaction` record, form submission, delete-by-id, the filter, the list view order |
| `Statistics` | stats.dfy | `getStatistics`, `updateSummary`, the `updateChart` category sums |
| `CsvFile` | csvfile.dfy | the text `exportToCSV` builds and what `importFromCSV` reads back |
| `ExportImport` | exportimport.dfy | what the two CSV halves do to each other, as written |
| `QuotedCsv` | quotedcsv.dfy | the CSV pair as evidently intended, with its round trip |
| `Snapshot` | snapshot.dfy | the saved copy and the load-time validity filter |
| `Tracker` | tracker.dfy | the `PersonalFinanceTracker` class and its in-place operations |

Amounts are exact reals. Ids, the current time, date parsing and formatting,
amount parsing and formatting, and the answers to `confirm()` are parameters.
The class keeps the source's two fields, `transactions` and
`filteredTransactions`. Its methods update those fields in place, and each
one is stated against the pure functions of the other modules. The `forEach`
that builds `categoryStats`, the chart's `forEach`, the import loop and the
scanning loop of `parseCSVLine` are `while`/`for` loops carrying their
invariants.

## Model

| member | source | states |
|---|---|---|
| Csv.ParseCsvLine | script.js:338-356 | the loop returns `ParseFields(line)`: at least one field, no field holding a quote, and the fields joined with commas give the line with every quote removed |
| Csv.ScanInvariant | script.js:343-353 | after any prefix, the pushed fields plus `current` joined with commas are the prefix without quotes, none holds a quote, `inQuotes` is set exactly when an odd number of quotes was read, and one field was pushed per comma outside quotes |
| Csv.ParseFieldsProperties | script.js:338-356 | at least one field, no quote in any field, join gives back the line without its quotes, and the field count is one more than the number of commas outside quotes |
| Csv.ScanFieldsGrow | script.js:343-353 | a field once pushed is never changed: the fields pushed after any prefix of the line are the first fields pushed after the whole line |
| Csv.UnquotedCommaSplits | script.js:347-349 | a comma with an even number of quotes before it ends a field: the fields of the text before it are the first fields of the line, and more fields follow |
| Csv.QuotedCommaKeepsField | script.js:345-352 | a comma with an odd number of quotes before it pushes no field and is appended to the field being read |
| Csv.QuotedCommaExample | script.js:338-356 | the line `a,"b,c"` reads as the two fields `a` and `b,c` |
| Csv.ParseFieldsWithoutQuotes | script.js:338-356 | a line without quotes is split at every comma, exactly as `split(',')` splits it |
| Text.TrimEmptyIffBlank | script.js:307-308 | a line trims to the empty string exactly when every character is white space, which is when the import skips it |
| Text.JoinSplit | script.js:302-303 | joining the parts of `split(sep)` with `sep` gives back the text, and no part holds the separator |
| Text.SplitJoin | script.js:72-81 | splitting a join of parts that do not hold the separator gives back the parts |
| Text.EscapeQuotesProperties | script.js:76 | doubling quotes keeps the text once quotes are removed, and doubles the number of quotes |
| Text.ContainsAt | script.js:439-440 | `includes` holds exactly when the term occurs at some position |
| Ledger.SignedAmount | script.js:420 | the stored amount keeps the entered magnitude; it is non-positive for an expense and non-negative otherwise, and non-zero when the entry is non-zero |
| Ledger.SubmitForm | script.js:39-44 | the form is rejected exactly when the trimmed description, the amount (0 or NaN), the category or the type is falsy; otherwise the record has the trimmed description, the category, the type, the entered magnitude with the type's sign, the given id and the current time |
| Ledger.SubmitFilledForm | script.js:417-424 | a form without surrounding white space, with a non-zero amount, a category and a type is accepted as entered, with the amount's sign set by the type |
| Ledger.WithoutIdCounts | script.js:631 | after deleting, every record without the id occurs exactly as often as it did in the list, and no record with the id occurs |
| Ledger.WithoutIdMembers | script.js:631 | a record is left after deleting exactly when it was in the list with another id, so no record with the id remains |
| Ledger.WithoutIdInOrder | script.js:631 | the records left after deleting keep their order in the list |
| Ledger.WithoutIdAbsent | script.js:631 | deleting an id no record carries leaves the list as it was |
| Ledger.WithoutIdShrinks | script.js:631 | deleting an id some record carries makes the list shorter |
| Ledger.WithoutIdTwice | script.js:631 | deleting the same id a second time changes nothing |
| Ledger.FilterViewProperties | script.js:433-445 | the filtered list is a subsequence of the list, holds exactly the records matching the lower-cased term and the two selections, each matching record as often as the list holds it, and is the whole list for an empty term with both selections "all" |
| Ledger.SortNewestFirstProperties | script.js:505-507 | the sorted list is newest first and a permutation of the filtered list |
| Ledger.DisplayedProperties | script.js:505-508 | the view shows min(20, n) records, newest first, each no more often than in the filtered list |
| Ledger.DisplayedAreNewest | script.js:505-508 | a filtered record left out of the view is no newer than any record shown |
| Statistics.StatisticsProperties | script.js:263-297 | the report is `null` exactly for an empty list; otherwise balance is income minus expenses, expenses are non-negative, the averages agree with totals and counts, and income plus expense records are at most all records |
| Statistics.ReportAverages | script.js:272-273 | an average is 0 when its count is 0, and otherwise times its count gives its total |
| Statistics.CategoryStatsCharacterised | script.js:275-284 | the `categoryStats` built from a list has one entry per category of the list, with distinct categories, each holding that category's count, its magnitude total and their quotient |
| Statistics.CategorySums | script.js:276-284 | the entry counts add up to the number of records, and the entry totals to the sum of their magnitudes |
| Statistics.CategoryStatsProperties | script.js:275-284 | the per-category entries cover the expenses only; counts add up to the expense count and totals to the sum of the expense magnitudes, which is the expense total when no expense is stored positive |
| Statistics.BalanceIsSumOfAmounts | script.js:286-289 | over income and expense records with expenses stored non-positive, the balance is the sum of all amounts |
| Statistics.SummaryOf | script.js:458-467 | the summary's balance is income minus expenses and its expense total is non-negative; it is all zeros for an empty list and agrees with the statistics report otherwise |
| Statistics.ChartMatchesCategoryStats | script.js:548-554 | the chart's category sums are, in the same order, the categories and totals `getStatistics` would report for the same expenses |
| Statistics.ChartDataProperties | script.js:548-554 | one slice per expense category of the filtered list, holding that category's magnitude total; the slices add up to the sum of the expense magnitudes |
| CsvFile.HeaderLineCells | script.js:71-73 | the header line splits back into the five column names and holds no line break |
| CsvFile.ExportCsvLines | script.js:65-81 | export gives nothing for an empty list; otherwise its lines are the header followed by one row per record in list order (when no cell holds a line break) |
| CsvFile.ImportRowCases | script.js:306-325 | blank lines and lines whose cell count differs from the header's are skipped; a counted line throws exactly when its date is invalid or the header has one column; a counted line with a readable date, non-empty description, category and type and a readable amount is accepted as the record of those cells; an accepted record always carries the line's cells, with description, category and type non-empty and free of quotes |
| CsvFile.CollectAccepted | script.js:322-328 | the records the import appends are exactly those of the accepted lines, at most one per line |
| CsvFile.CollectCounts | script.js:322-328 | each record is appended once for every line accepted with it, so duplicate lines give duplicate records |
| CsvFile.ImportFailsIff | script.js:300-336 | the import fails, appending nothing, exactly when some line after the header throws |
| CsvFile.ImportedRecordsValid | script.js:322-328 | every appended record has a non-empty description, category and type free of quotes, and there are fewer records than lines |
| CsvFile.UnreadableDateAbortsImport | script.js:313-315 | one counted line with an unreadable date makes the whole import fail |
| ExportImport.ExportedRowSplitsDate | script.js:74-80 | an exported row whose date holds a comma reads back as at least six cells |
| ExportImport.ExportThenImportAddsNothing | script.js:74-80 | for a non-empty list whose exported cells hold no line break, whose formatted dates hold a comma, whose date, category, type and amount texts hold no quote, and whose rows start and end without white space (a non-empty amount text), importing the exported file succeeds and adds nothing |
| ExportImport.LunchIsLost | script.js:75 | one lunch dated "Jan 5, 2024" exports to a file whose import adds nothing |
| ExportImport.DescriptionQuotesLost | script.js:345-346 | a quoted description cell without commas reads back as one cell with every quote removed, so a description holding a quote never comes back |
| ExportImport.HeSaidHi | script.js:76 | `He said "hi"` does not read back as itself |
| QuotedCsv.RowRoundTrip | script.js:338-356 | with the corrected reader, reading a written row gives back its cells, whatever they hold |
| QuotedCsv.QuotedRowAccepted | script.js:313-325 | with the corrected pair, the row of a record whose exported date and amount can be read is accepted under the new id, with its description, category and type unchanged and its date and amount as read back from their exported text |
| QuotedCsv.ExportImportRoundTrip | script.js:65-81 | with the corrected pair, importing an exported file gives back one record per exported record, in order, each under the id of its line, with description, category and type unchanged and date and amount as read back from their exported text (the calendar date without time of day, the amount to two decimals) |
| Snapshot.KeepValidProperties | script.js:136-138 | the filter throws exactly when the array holds `null`; otherwise it keeps exactly the valid objects, in order |
| Snapshot.KeepValidCounts | script.js:136-138 | when the filter does not throw, each valid object is kept as often as the array holds it and each invalid one is dropped |
| Snapshot.SaveableValid | script.js:137 | a saved transaction passes the filter exactly when its id, description, category, type and date are truthy, and reads back as itself |
| Snapshot.SaveThenLoad | script.js:123-138 | saving and loading again keeps exactly the transactions that pass the filter, in order |
| Snapshot.SaveThenLoadKeepsLoadable | script.js:123-138 | a list whose records all pass the filter loads back unchanged |
| Snapshot.MissingCategoryDropped | script.js:136-138 | a record without a category is dropped and the good one kept, without failing the load |
| Tracker.PersonalFinanceTracker.constructor | script.js:4-15 | the list starts as the loaded saved copy and the view shows all of it |
| Tracker.PersonalFinanceTracker.UpdateDisplay | script.js:451-452 | the view becomes the whole list; the list is unchanged |
| Tracker.PersonalFinanceTracker.HandleFormSubmit | script.js:413-431 | a rejected form changes nothing; an accepted one appends exactly the submitted record after the existing ones and shows the whole list |
| Tracker.PersonalFinanceTracker.ClearAllTransactions | script.js:49-62 | nothing changes on an empty list or a refused confirmation; otherwise list and view are empty |
| Tracker.PersonalFinanceTracker.DeleteTransaction | script.js:627-634 | nothing changes when no record has the id or the confirmation is refused; otherwise the list loses every record with the id and the view shows it all |
| Tracker.PersonalFinanceTracker.ApplyFilters | script.js:433-445 | the view becomes the filtered list and the list is unchanged |
| Tracker.PersonalFinanceTracker.GetStatistics | script.js:263-297 | the report of the list, `null` exactly when it is empty, with balance income minus expenses and the per-category entries of its expenses |
| Tracker.PersonalFinanceTracker.UpdateSummary | script.js:458-467 | the summary of the list: balance is income minus expenses, and the expense total is non-negative |
| Tracker.PersonalFinanceTracker.ChartData | script.js:548-554 | the loop yields the chart data of the view, which is the projection of the per-category statistics of its expenses |
| Tracker.PersonalFinanceTracker.ImportFromCsv | script.js:300-336 | when a line throws, nothing changes and the error is reported; otherwise the accepted records are appended after the existing ones, their count is reported and the view shows the whole list |
| Tracker.ImportLines | script.js:306-326 | the loop's result is the collected outcome of the lines after the header: `None` once one throws, otherwise the accepted records in file order |
| Tracker.TallyCategories | script.js:276-284 | the loop builds the `categoryStats` of the expenses |
| Tracker.ReadImportLine | script.js:307-325 | one line's outcome; an accepted record has the given id and a non-empty description without quotes |
| Tracker.SalaryAccepted | script.js:417-424 | "March pay", 1000, "Salary", income is accepted as entered |
| Tracker.BillAccepted | script.js:417-424 | "Electricity", 250, "Bills", expense is accepted with amount -250 |
| Tracker.SalaryAndBillStatistics | script.js:263-297 | those two records give income 1000, expenses 250, balance 750, one of each, and one "Bills" entry of total 250 over one expense |

## Left out

- The page: DOM reads and writes, `escapeHtml`, the rendering and animation of the list, notifications, `resetForm`, `resetFilters` and event wiring. The form's fields, the filter boxes and `confirm()` answers are parameters.
- Chart.js construction and canvas drawing; only the category sums the chart is given are modelled.
- `localStorage` and JSON text. The input of loading is what `JSON.parse` produced (nothing saved, unparseable text, a non-array, or an array of items). The call to `saveToLocalStorage` after each change is not modelled; `Snapshot.Save` gives the array it writes.
- Snapshot.Load: an item that passes the filter but whose fields have JSON types the tracker never writes (a string id, a numeric description) is dropped by the typed view; the program would keep it.
- The Blob download, the file name, `FileReader`, drag and drop and keyboard shortcuts.
- Floating point: amounts are exact reals, so rounding, `Infinity` and `-0` are not modelled; `toFixed(2)` is the parameter `formatAmount`, and NaN from `parseFloat` is `None`.
- Clock and locale: `Date.now()`, `Math.random()`, `new Date()`, `toISOString`, `toLocaleDateString` and date comparison are parameters (`id`, `now`, `idAt`, `toIso`, `formatDate`, `timeOf`); the NaN a sort comparator gives for an invalid date is not modelled.
- `toLowerCase` folds ASCII letters only.
- Strings are sequences of Unicode scalar values, where JavaScript counts UTF-16 code units; lone surrogates and the two-unit length of astral characters are not modelled (no operation of the ledger depends on them).
- `categoryStats` and `categoryData` are plain objects in the program; the model treats them as lists of entries in insertion order. Keys that JavaScript orders first (integer-like category names) and category names inherited from `Object.prototype` (such as `toString`) are not modelled.
- Ledger.DisplayedProperties: the sort is modelled as a stable insertion sort, but stability is not stated.
- Tracker.PersonalFinanceTracker.ImportFromCsv: errors the engine could raise besides an invalid date or a one-cell row (for example, too many arguments to `push`) are not modelled.
- The class models the program as written, so its import uses the as-written reader; the corrected CSV pair (`QuotedCsv`) stands beside it.

Where the code does something other than what a reader might expect, the model follows the code:

- An unreadable date makes `toISOString` throw inside the import loop, so the whole import adds nothing, where skipping that one row might be expected.
- Amounts are stored signed (expenses negative), and the export writes the signed amount (`-12.50` for an expense of 12.50), where an unsigned amount column might be expected.
- A negative amount entered in the form is accepted, with its sign set by the type, where only positive amounts might be expected.
- A `null` element in the saved array makes the load throw and start from an empty list, where dropping just that element might be expected.
- Importing an exported file does not give back its records (see Findings).
- The export writes the date without its time of day, so even the corrected CSV pair gives back each record's calendar date rather than its stored timestamp.

`handleFormSubmit` is spliced in the file: it starts at script.js:36-44 and continues at script.js:413-431. The notification text at script.js:45 is a splice artefact. `deleteTransaction` is cut off at script.js:635, and the model ends it with `updateDisplay`.

## Findings

| source | as written | input that shows it | evidently intended | confidence | as-written member | corrected member |
|---|---|---|---|---|---|---|
| script.js:75 | the export writes the en-US date unquoted, so its comma splits every row into six cells against the header's five and the import skips them all | one expense "Lunch", -12.5, "Food", dated 2024-01-05 and formatted "Jan 5, 2024" | importing an exported file gives back its records, with fresh ids and with date and amount as read back from their exported text | high, not executed | ExportImport.LunchIsLost | QuotedCsv.ExportImportRoundTrip |
| script.js:345-346 | `parseCSVLine` drops every quote, so the doubled quote the export writes for a quote in a description reads back as nothing | the description `He said "hi"`, written as `"He said ""hi"""`, reads back as `He said hi` | a doubled quote inside a quoted cell reads back as one quote | high, not executed | ExportImport.HeSaidHi | QuotedCsv.RowRoundTrip |
