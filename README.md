# Google Results Collector: a Dafny model

The Chrome extension "Google Results Collector" has two scripts.

- The content script runs on Google search pages. While collection is on, it reads the result containers on the page and cleans their title, link and snippet. It appends every result whose link is new to a dataset kept in the extension's local storage. The dataset holds the seen queries, the highest page index, the collection start time and a header row followed by the data rows.
- The popup switches collection on and off. It stores the active flag and tells the search tab to start or stop. When collection stops with results stored, it exports the dataset as CSV and then removes it from storage.

The model covers the data-carrying logic of both scripts:

- the text cleaner and the query and page number read from the URL;
- the guarded, deduplicating merge of one page into the stored dataset, including the metadata it updates;
- the CSV rows, the cell encoding and the file name;
- the flags of both scripts: the content script's `isProcessing` and `isCollectionActive`, the popup's `isActive` and `totalResults`;
- the toggle that ties the two scripts together.

Three kinds of state are classes whose methods change fields:

- the storage both scripts share (`Browser.Store`);
- the content script's globals (`ContentScript.Collector`);
- the popup's globals (`Popup.Popup`).

The state-changing methods, including the merge loop, are proved against pure functions of the old state and the inputs. Those functions, and the pure parts (`clean`, the URL readers, the CSV encoding), have properties of their own, proved as lemmas:

- what cleaning does to each whitespace run, and its idempotence;
- append-only growth, link uniqueness and idempotence of the merge;
- decodability of the exported document, with exactly `7 + |results|` rows in the documented layout and the stored rows in storage order.

## Files

| file | contents |
|---|---|
| wrappers.dfy | `Option` |
| text.dfy | `clean`, with the JavaScript `\s` whitespace set written out; its properties |
| page_context.dfy | search query, page number, substring test |
| records.dfy | dataset, rows, candidates, field extraction, the merge as functions |
| merge_properties.dfy | lemmas about the merge |
| csv.dfy | number rendering, cell encoding, and a CSV reader used to state decodability |
| export.dfy | the exported rows, document and file name |
| browser.dfy | the shared store and the popup's command |
| content_script.dfy | the `Collector` class |
| popup.dfy | the `Popup` class |

## Behaviour worth noting

The model follows the code in these places:

- `collectionStarted` is set whenever it is unset (null or empty) before the rows are merged. This happens even when the page adds no row (src/contentScript.js:110-112), which differs from the natural reading that it is set by the first merge that adds a record. With an empty timestamp it can even be set again on a later merge. `Records.MergeMetadata` and `MergeProperties.MergeIdempotent` state when this matters.
- The header row's second cell is the literal `link`, and the duplicate scan covers every row, header included (src/contentScript.js:44, 124). A candidate whose cleaned link is `link` is therefore never stored. `MergeProperties.HeaderTakesPartInDedup` states this.
- When the dataset read fails, `processResults` merges the page into the empty shape and then saves it, which replaces whatever was stored before (src/contentScript.js:53-58, 95, 131). The model keeps this: `ContentScript.Merged` starts from `Records.StoredOrEmpty` with the `dataReadFails` fault, and `ContentScript.StoredAfterMerge` writes the result.
- Rows are joined with `\n`, not with the CRLF of section 2, rule 1 of RFC 4180. Cells use that section's rule-7 quote doubling.

## Model

| member | source | states |
|---|---|---|
| Text.IsWs | src/contentScript.js:17 | the characters JavaScript's `\s` matches and `trim` removes: the ASCII tab, line feed, vertical tab, form feed, carriage return and space, plus the Unicode spaces, line and paragraph separators and the byte-order mark; no contract of its own, `Text.TrimStart`, `Text.TrimEnd` and `TextProperties.CollapseRun` state what happens to these characters |
| Text.TrimStart | src/contentScript.js:17 | the result is a suffix of the input that starts with a non-whitespace character (or is empty), and only whitespace was dropped |
| Text.TrimEnd | src/contentScript.js:17 | the result is a prefix of the input that ends with a non-whitespace character (or is empty), and only whitespace was dropped |
| Text.Trim | src/contentScript.js:17 | the result has no whitespace at either end, and it is empty exactly when the input is all whitespace |
| Text.Collapse | src/contentScript.js:17 | the result is empty exactly when the input is, it starts with whitespace exactly when the input does, and it has no whitespace other than single spaces and no two adjacent whitespace characters |
| Text.ReplaceQuotes | src/contentScript.js:17 | every `"` becomes `'`, and every other character is kept in place |
| Text.Clean | src/contentScript.js:16-18 | the result has no `"`, no leading or trailing whitespace and no two adjacent whitespace characters; a null or empty input gives the empty string |
| TextProperties.CollapseRun | src/contentScript.js:17 | a maximal whitespace run, between text (or the ends of the string) on both sides, becomes exactly one space, and the text on each side is collapsed on its own |
| TextProperties.CleanFixesCleanText | src/contentScript.js:16-18 | a string that is already clean is returned unchanged |
| TextProperties.CleanIdempotent | src/contentScript.js:16-18 | cleaning twice gives the same as cleaning once |
| TextProperties.CollapseFixesSingleSpaced | src/contentScript.js:17 | collapsing a string with no adjacent whitespace changes nothing |
| TextProperties.CleanKeepsText | src/contentScript.js:16-18 | the non-whitespace characters survive cleaning in order, with `"` turned into `'` |
| PageContext.SearchQuery | src/contentScript.js:77-80 | a missing or empty `q` gives `unknown query`; otherwise the cleaned `q`; the result is always clean |
| PageContext.PageNumber | src/contentScript.js:83-87 | a missing `start` gives 1; otherwise `start` lies in `[(r-1)*10, r*10)`, so offsets 0-9 give 1 and 10-19 give 2; the result is at least 1 for a non-negative `start` |
| PageContext.Contains | src/contentScript.js:248 | `String.prototype.includes`; no contract of its own, `PageContext.ContainsAt` characterizes it |
| PageContext.ContainsAt | src/contentScript.js:248 | the substring test holds exactly when the pattern occurs at some index |
| Records.StoredOrEmpty | src/contentScript.js:38-60 | an absent key or a failed read gives the empty dataset (no queries, 0 pages, no start, only the header row); otherwise the stored dataset |
| Records.EmptyDatasetWellFormed | src/contentScript.js:43-44 | the default shape (`Records.EmptyDataset`: no queries, zero pages, no start time, and the `Records.Header` row `title, link, description, page, timestamp` alone) is well formed, and the header's link cell is the literal `link` |
| Records.FieldText | src/contentScript.js:119-121 | a missing or empty value gives the cleaned placeholder, which is the placeholder itself when it is already clean; otherwise the cleaned value; the result is clean |
| Records.Extract | src/contentScript.js:115-121 | each of title, link and description is `no title`, `no link` or `no description` when missing or empty and the cleaned value otherwise; all three are clean |
| Records.ExtractAll | src/contentScript.js:114-121 | one field triple per container, in page order |
| Records.HasLink | src/contentScript.js:124 | true exactly when some row, header included, has the link in its second cell |
| Records.LinkKey | src/contentScript.js:124 | the value `row[1] ===` compares: the second cell when the row has one and it is a string; no contract of its own, `Records.HasLink` is characterized through it |
| Records.Accepts | src/contentScript.js:125 | the push test: the cleaned link is not yet stored and is not `no link`; no contract of its own, `Records.Step` states it as the condition under which a row is added |
| Records.NewRow | src/contentScript.js:126 | the pushed row `[title, link, description, page, timestamp]`; no contract of its own, `Records.Step` and `MergeProperties.MergeRowsAppends` state that every added row is one of these |
| Records.Step | src/contentScript.js:124-127 | the rows grow by at most one row, exactly when the link is new and not `no link`; the new row is `[title, link, description, page, timestamp]`; afterwards every real link is present |
| Records.MergeRows | src/contentScript.js:114-129 | the old rows are a prefix of the result, which has at most one extra row per container; `MergeProperties` states the rest |
| Records.MergeMetadata | src/contentScript.js:104-112 | the query is in the new list, appended only if it was missing, and the list stays duplicate-free; `totalPages` is the larger of its old value and the page; `collectionStarted` is kept when set and becomes the timestamp otherwise |
| Records.Started | src/contentScript.js:110 | JavaScript truthiness of `collectionStarted`: set and not the empty string; no contract of its own, `Records.MergeMetadata` and `Export.StartedText` state what follows from it (also at src/contentScript.js:157) |
| Records.Merge | src/contentScript.js:104-129 | the metadata update, then the row loop over the extracted containers; no contract of its own, `MergeProperties.MergeIdempotent` and `MergeProperties.MergeKeepsWellFormed` state its properties |
| MergeProperties.MergeRowsAppends | src/contentScript.js:114-129 | the old rows are a prefix of the new ones; at most one row is added per candidate; each added row is `[title, link, description, page, timestamp]` of some candidate, with this call's page and timestamp; no added row has link `no link` or a link of an old row |
| MergeProperties.MergeRowsKeepsLinksUnique | src/contentScript.js:123-128 | if no two rows share a link before the merge, none do after it, including rows added by the same call |
| MergeProperties.MergeRowsCovers | src/contentScript.js:123-128 | after the merge, every candidate's link other than `no link` is present in the rows |
| MergeProperties.MergeRowsOfCoveredIsNoop | src/contentScript.js:124-125 | candidates whose links are all present or `no link` add nothing |
| MergeProperties.MergeRowsIdempotent | src/contentScript.js:124-125 | merging the same candidates again, with any page and timestamp, leaves the rows unchanged |
| MergeProperties.MergeIdempotent | src/contentScript.js:104-129 | a second merge of the same page leaves the rows unchanged, and the whole dataset too when the first timestamp is non-empty |
| MergeProperties.MergeKeepsWellFormed | src/contentScript.js:104-129 | a merge keeps the header in place, links unique and queries duplicate-free |
| MergeProperties.HeaderTakesPartInDedup | src/contentScript.js:124 | over a dataset that starts with the header, no added row has the link `link` |
| ContentScript.MergeRowsExtend | src/contentScript.js:114-129 | one more container extends the merge by one step: append if the link is new and real, otherwise keep the rows |
| ContentScript.StoredAfterMergeKeepsWellFormed | src/contentScript.js:131 | a well-formed or absent stored dataset is still well formed or absent after a run, whether or not the write fails |
| ContentScript.ReplayAddsNothing | src/contentScript.js:124-125 | processing the same page a second time adds no row, so it returns 0; with a non-empty first timestamp the stored dataset is left as it was |
| ContentScript.Merged | src/contentScript.js:95-129 | the dataset one unguarded run builds; no contract of its own, `ContentScript.Collector.MergePage` is proved against it |
| ContentScript.StoredAfterMerge | src/contentScript.js:131 | what the dataset key holds after that run; no contract of its own, `ContentScript.StoredAfterMergeKeepsWellFormed` and `ContentScript.ReplayAddsNothing` state its properties |
| ContentScript.StatusAfterCheck | src/contentScript.js:21-35 | the local flag after the status check; no contract of its own, `ContentScript.Collector.CheckCollectionStatus` is proved against it |
| ContentScript.Collector.constructor | src/contentScript.js:7-9 | both flags start false |
| ContentScript.Collector.CheckCollectionStatus | src/contentScript.js:21-35 | the local flag becomes the stored flag, with absent read as false; a failed read leaves it alone and returns false |
| ContentScript.Collector.SaveResults | src/contentScript.js:63-74 | the dataset is stored, or left as it was when the write fails |
| ContentScript.Collector.SetProcessing | src/contentScript.js:92 | the guard flag takes the given value and the active flag is kept |
| ContentScript.Collector.MergeAndSave | src/contentScript.js:94-133 | the store then holds the merged dataset (unchanged if the write fails), and the result is the number of rows the merge added |
| ContentScript.Collector.MergePage | src/contentScript.js:95-129 | the dataset built is exactly the merge of the page (query, page number, timestamp, containers) into the stored or empty dataset, and the count is the number of rows it added |
| ContentScript.Collector.AppendRows | src/contentScript.js:114-129 | the loop's rows are the merge of the candidates into the stored rows, and the count is the number of rows added |
| ContentScript.Collector.ProcessResults | src/contentScript.js:90-140 | while processing or inactive it returns 0 and changes nothing; otherwise the store holds the merged dataset (or is unchanged if the write fails), the result is the number of rows added, `isProcessing` is false again and the active flags are untouched |
| ContentScript.Collector.RunMain | src/contentScript.js:244-261 | off a `/search` page nothing changes; otherwise the flag is refreshed from storage, and the page is processed exactly when the refreshed flag is on and no run is in flight |
| ContentScript.Collector.StartCollection | src/contentScript.js:233-236 | the flag is set, then `main` runs with it |
| ContentScript.Collector.StopCollection | src/contentScript.js:239-241 | the flag is cleared and storage is untouched |
| ContentScript.Collector.OnMessage | src/contentScript.js:221-230 | `start` behaves as `startCollection`, `stop` as `stopCollection` |
| ContentScript.Collector.DownloadCsv | src/contentScript.js:143-184 | no file when there are no data rows; otherwise the file of the stored dataset; storage is untouched |
| ContentScript.Collector.ClearResults | src/contentScript.js:187-198 | the dataset key is removed, or kept when the removal is rejected; the flag is kept |
| Csv.DecimalRoundTrip | src/contentScript.js:158 | the decimal rendering of a natural number reads back as that number |
| Csv.NatToString | src/contentScript.js:158 | the rendering of a natural number is a numeral: decimal digits only, with no leading zero unless it is `0` |
| Csv.NumeralUnique | src/contentScript.js:158 | the rendering of `n` is the only numeral that reads back as `n`, so the rendering is fully determined |
| Csv.IntToString | src/contentScript.js:158-159 | a non-negative integer gives the numeral of its value; a negative one gives `-` followed by the numeral of its absolute value |
| Csv.CellText | src/contentScript.js:168 | `(cell \|\| '').toString()`: an empty string and 0 give the empty string, a string is itself, a positive number gives the numeral of its value and a negative one `-` and the numeral of its absolute value |
| Csv.RowText | src/contentScript.js:168 | `row.map(cell => …)`: one text per cell, each the `Csv.CellText` of the cell at the same position |
| Csv.RowTexts | src/contentScript.js:167-168 | each row becomes the text of its cells, in order |
| Csv.Join | src/contentScript.js:160 | `Array.prototype.join`; no contract of its own |
| Csv.Escape | src/contentScript.js:168 | `replace(/"/g, '""')`; no contract of its own, `Csv.UnquoteQuote` and `Csv.ReadQuotedEscape` state that it can be undone |
| Csv.Quote | src/contentScript.js:168 | a cell in double quotes with inner quotes doubled; no contract of its own, `Csv.UnquoteQuote` states that it can be undone |
| Csv.EncodeRow | src/contentScript.js:168 | cells quoted and joined with `,`; no contract of its own, `Csv.ReadCellsEncodeRow` states that it reads back |
| Csv.EncodeLines | src/contentScript.js:167-169 | rows joined with `\n`; no contract of its own, `Csv.ParseEncodeLines` states that it reads back |
| Csv.ReadQuotedEscape | src/contentScript.js:168 | reading a quoted cell stops at the closing quote and recovers the text before any quote doubling |
| Csv.UnquoteQuote | src/contentScript.js:168 | removing the outer quotes and un-doubling the inner ones recovers the cell text |
| Csv.ReadCellsEncodeRow | src/contentScript.js:168 | a comma-joined row of quoted cells reads back as exactly those cells |
| Csv.ReadLineEncodeRow | src/contentScript.js:167-168 | one encoded line reads back as its cells, leaving the rest of the input |
| Csv.ParseEncodeLines | src/contentScript.js:167-169 | a non-empty list of rows joined with `\n` reads back as exactly those rows |
| Export.CsvDocumentDecodes | src/contentScript.js:152-169 | the exported document reads back as exactly the rows that were built |
| Export.CsvRowsLayout | src/contentScript.js:155-164 | `7 + \|results\|` rows: Collection Info, Generated, Collection Started (or `Unknown`), Total Results, Total Pages, the queries joined by ` \| `, a blank row, then every stored row in storage order |
| Export.CsvRowsHead | src/contentScript.js:155-161 | the seven rows before the stored ones |
| Export.CsvRowsBody | src/contentScript.js:164 | the stored rows follow in storage order |
| Export.CsvTotalsReadBack | src/contentScript.js:158-159 | the Total Results cell is the numeral of `\|results\| - 1` and the Total Pages cell the numeral of `totalPages` |
| Export.PaddedText | src/contentScript.js:155-161 | a metadata row is its name and value followed by three empty cells |
| Export.StartedText | src/contentScript.js:157 | `collectionStarted \|\| 'Unknown'`; no contract of its own |
| Export.CsvRows | src/contentScript.js:152-164 | the metadata rows, the blank row and the stored rows; no contract of its own, `Export.CsvRowsLayout` states its layout |
| Export.Padded | src/contentScript.js:155-161 | a metadata row `[name, value, '', '', '']`; no contract of its own, `Export.PaddedText` states the cell texts it exports as |
| Export.CsvDocument | src/contentScript.js:167-169 | the encoded rows; no contract of its own, `Export.CsvDocumentDecodes` states that it reads back |
| Export.DatePart | src/contentScript.js:175 | the part of the timestamp before the first `T` |
| Export.FileName | src/contentScript.js:175 | `google_results_<date>.csv` with the date part of the timestamp; no contract of its own |
| Export.DownloadOf | public/popup.js:142-165 | nothing with no data rows; otherwise a document that reads back as the exported rows |
| Browser.Store.SetDataset | src/contentScript.js:66 | the dataset key holds the given dataset and the active key is kept |
| Browser.Store.RemoveDataset | public/popup.js:178 | the dataset key is absent and the active key is kept |
| Browser.Store.SetActive | public/popup.js:102 | the active key holds the given flag and the dataset key is kept |
| Popup.MessageFor | public/popup.js:106-112 | a command is sent exactly when the tab's address contains `google.com/search`; it is `start` when collection is now on and `stop` when it is now off |
| Popup.Popup.constructor | public/popup.js:16-17 | off, with no results |
| Popup.Popup.UpdateStatus | public/popup.js:32-63 | the flag is the stored one, with absent read as off |
| Popup.Popup.UpdateStats | public/popup.js:66-95 | the count is the number of stored rows without the header; an absent dataset counts 0 |
| Popup.Popup.Init | public/popup.js:20-24 | both the flag and the count are read from storage; the count is not negative for a well-formed dataset |
| Popup.Popup.OnStorageChanged | public/popup.js:218-222 | a local change to either key refreshes both the flag and the count; anything else changes nothing |
| Popup.Popup.DownloadCsv | public/popup.js:134-186 | with no data rows nothing changes; otherwise the stored dataset's file is produced, the dataset key is removed and the count becomes 0 |
| Popup.Popup.ToggleCollection | public/popup.js:98-131 | the flag is flipped and stored; the tab gets `start` or `stop` per the new flag; an export runs exactly when collection was on and results were counted, and it clears the store when it produced a file |

## Left out

- DOM extraction (`querySelectorAll('div.tF2Cxc')` and the `h3`, `a` and `.VwiC3b` lookups) is outside the model. The page is given as a sequence of containers, each with an optional title, link and description.
- The MutationObservers, timers and URL polling that call `main` are outside the model. `RunMain` is the operation they invoke.
- `chrome.storage`, `localStorage` and JSON are modelled by one `Store` object with an optional dataset and an optional flag. The `localStorage` fallback paths, with their `'true'` string compare, are not modelled.
- In the content script, each storage read and write of `processResults` and `checkCollectionStatus` may fail, as given by `StorageFaults`, and the removal in `clearResults` may fail, as given by its `removeFails` flag. A failed dataset read gives the empty dataset shape; a failed status read returns false and leaves the local flag as it was; a failed write is ignored. The popup's storage calls are taken to succeed, so its `catch` blocks are not modelled.
- A stored value that is not a dataset is not modelled, because the store is typed. The handler in `processResults` at src/contentScript.js:134-136 therefore never runs in the model.
- `Blob`, object URLs, the anchor click, `chrome.downloads.download`, `chrome.tabs.query` and `sendMessage` are foreign calls. The file is returned as content plus file name; the command is returned as the message the popup sends. Delivery and its errors are not modelled.
- `new Date().toISOString()` is a parameter. A run of `processResults` takes one timestamp, and an export takes one `now` for both the Generated cell and the file name.
- PageContext.PageNumber: `start` is taken as an already-parsed integer. `parseInt` on non-numeric text (the NaN path) is not modelled, and an empty `start` is the same as a missing one.
- Csv.IntToString and Csv.CellText: numbers are unbounded integers, so JavaScript number semantics (floating point, the safe-integer range, and the exponent form `toString` uses from 1e21 on) are not modelled; the page number has the same limit.
- Notifications, `innerHTML` and class names, the query list and page count text the popup shows, the empty stub functions and `console` logging are user-interface output and are not modelled.
- Runs interleaving across tabs, and the asynchronous gaps between a read and the write that follows it, are not modelled. Each entry point is modelled as running to completion.
