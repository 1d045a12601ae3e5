# UCMR5 occurrence data: a Dafny model

The repository turns three tab-delimited extracts of the EPA's fifth Unregulated Contaminant
Monitoring Rule into artifacts that can be queried:

- `UCMR5_All.txt` holds one sample result per line.
- `UCMR5_ZIPCodes.txt` holds `pwsid`/ZIP-code pairs.
- `UCMR5_AddtlDataElem.txt` holds additional data elements.

Three read handlers then answer water-system searches over those artifacts.

This project models that pipeline on values: lines, rows, maps and responses. It proves what
each step computes. The modules follow the repository's files:

| module | file | what it models |
|---|---|---|
| `Js` / `Seqs` | — | JavaScript semantics the code relies on and small sequence facts. JS semantics: `undefined` columns, `split`/`join`, `toUpperCase`/`toLowerCase` over Latin-1, `includes`, the character-code string order behind `>`, `parseInt` on digit strings, `x \|\| null`. Sequence facts: `NoDup`, `Flatten`. |
| `Readings` | — | How a reading is shown: `<mrl` when the sign is `<`, otherwise the raw value. |
| `Extracts` | — | Positional column access of a tab-split line, and the ZIP extract's lines. |
| `DataStream` | `scripts/process-data-stream.js` | The streaming aggregator. The samples pass builds `stateData` and `pwsIndex`; the ZIP pass builds `zipIndex` and the `zip_codes` lists; then the per-state counts. |
| `SqliteLoader` | `scripts/convert-to-sqlite.js` | The relational loader: the positional 18-column row, 1000-row batches, the set-like ZIP table, the append-only additional-data table, and the meaning of the `pws_summary` `INSERT … SELECT`. |
| `Sorting` | — | `ORDER BY` on a text column: a stable insertion sort that puts NULLs first. |
| `JsonApiBuilder` | `scripts/build-json-api.js` | The JSON shard builder: per-state shards sorted by name, the contaminant map of each system, the state index, and the ZIP index grouped from the inner join. |
| `Query` | `api/water-quality.js`, `api/water-quality-sqlite.js` | What both read handlers share: query-parameter parsing and defaults, the "at least one filter" check, offset/limit pagination, `has_more`, and the list of detected contaminants. |
| `JsonHandler` | `api/water-quality.js` | The shard-backed handler: branch precedence, ZIP search, state-code lookup, the shard scan, and the summary added to each system. |
| `Zapier` | `api/water-quality-zapier.js` | The Zapier wrapper: the four flattened keys per contaminant, the detected list and summaries, the ZIP count and list, and non-ok passthrough. |
| `SqliteHandler` | `api/water-quality-sqlite.js` | The database-backed handler: the WHERE clause and its placeholders, `LIKE`, the systems page, the per-system contaminant query and its formatting, and the status codes. |

Each loop the source runs becomes a `method` with a `while` loop. Each such method is proved
equal to a specification function, for example `AggregateSamples`, `LoadSamples`,
`BuildShards`, `GroupByZip`, `SearchByZip`, `ScanShards`, `FlattenContaminants`,
`BuildWhereClause`, `FormatReadings` and `GetWaterSystems`. The properties the code promises are
then proved about those functions as lemmas.

Effects are inputs:

- A file is its sequence of lines. A missing ZIP file is `None`.
- A database is its table contents, as row sequences.
- The fetched artifacts of the JSON handler are a `Store`. A missing or invalid document gives
  the handler's 500 answer.
- The upstream answer of the Zapier wrapper is a parameter.
- How a JavaScript number prints is a parameter `num: real -> string`.

Two choices of SQLite's are modelled as its implementation behaves. The SQL standard leaves
both undefined:

- **Bare columns beside one `MAX`.** With one `MAX(result_value)`, the bare columns
  (`result_sign`, `units`, `mrl`) come from the first row holding the maximum. When every value
  is NULL they come from the last row (`MaxFoldIsMax`).
- **Bare columns beside two `MAX`es.** With `MAX(result_value)` and `MAX(collection_date)` in
  the same query, SQLite loads the bare columns on the steps of the last aggregate. So
  `result_sign` comes from the row with the latest date (`LatestFoldIsMax`,
  `GroupResultMeaning`).

The model follows the code as written, including where its two build paths differ:

- The streaming aggregator takes the state from column 22 of a sample line. That column is
  the monitoring-requirement code, which the relational loader stores as
  `monitoring_requirement`; the loader takes the state from column 2.
- The streaming ZIP index keeps entries whose pwsid has no system, with an undefined state.
  The builder's ZIP index drops them through its inner join.
- A name search over stream-built shards fails with 500, because those systems carry `name`,
  not `pws_name`.
- The two handlers fold case differently in a name search. The JSON handler lowers both texts
  with `toLowerCase`, which folds `É` to `é`. The SQLite handler lowers the parameter the same
  way but the name with SQLite's `LOWER`, which folds ASCII letters only. So `École` finds
  `ÉCOLE` in the JSON handler and not in the SQLite handler (`NonAsciiCapitalsDiverge`).

## Model

| member | source | states |
|---|---|---|
| Js.DataLines | scripts/process-data-stream.js:33-38 | The header line is never a record: the data lines are exactly the lines after the first, in order. |
| Js.Split | scripts/process-data-stream.js:40 | `split('\t')` always yields at least one field, and no field contains the separator. |
| Js.JoinSplit | scripts/process-data-stream.js:40 | Joining the fields of a split line with the separator gives the line back. |
| Js.SplitJoin | scripts/process-data-stream.js:117 | Splitting a join of separator-free fields gives exactly those fields: a written line reads back column by column. |
| Js.ToUpperCase | api/water-quality.js:60 | Upper-casing never shortens a text, and lengthens it only at an `ß`. Its result holds no lower-case letter, and a text without lower-case letters comes back unchanged. |
| Js.ToLowerCase | api/water-quality.js:119 | Lower-casing keeps the length, and its result holds no upper-case letter. A character it changes is the upper case of what it became, and a text without capitals comes back unchanged. |
| Js.SharpSUpperCase | api/water-quality.js:60 | `ß` upper-cases to the two letters `SS`. |
| Js.UpperIdempotent | api/water-quality.js:60 | Upper-casing an upper-cased state or pwsid changes nothing. |
| Js.Includes | api/water-quality.js:119 | `includes` holds exactly when the needle occurs at some position of the haystack. |
| Js.LessIrreflexive | scripts/process-data-stream.js:88 | The string order behind `>` never ranks a date above itself. |
| Js.LessTransitive | scripts/process-data-stream.js:88 | The string order behind `>` is transitive, so a running maximum is a maximum. |
| Js.LessTotal | scripts/process-data-stream.js:88 | Any two distinct dates are ordered one way or the other. |
| Js.LessAsymmetric | scripts/process-data-stream.js:88 | Two dates are never each greater than the other. |
| Js.ParseInt | api/water-quality.js:19-20 | `parseInt` gives a number exactly when the text starts with a digit; otherwise it is NaN (`None`). |
| Js.ParseFloat | scripts/convert-to-sqlite.js:134 | A parsed decimal is never negative: the extracts' plain decimals only. |
| Js.ParseFloatIgnoresSuffix | scripts/convert-to-sqlite.js:134 | A whole number followed by text that does not continue it parses to the number's value: trailing text is ignored. |
| Js.ExponentNotRead | scripts/convert-to-sqlite.js:134 | The model reads `1e3` as 1: exponents are not read. |
| Js.RealOrNull | scripts/convert-to-sqlite.js:134-136 | `parseFloat(x) \|\| null` is NULL exactly when parsing failed or gave 0, and the parsed value otherwise. |
| Js.NatOrNull | scripts/convert-to-sqlite.js:132 | `parseInt(x) \|\| null` is NULL exactly when parsing failed or gave 0; a kept region is positive. |
| Readings.Shown | scripts/process-data-stream.js:80-82 | A reading shows as `<mrl` exactly when the sign is `<`, and as its raw value for every other sign. |
| Extracts.ColumnAt | scripts/process-data-stream.js:40-54 | `values[i]` of a tab-joined line is its i-th column, and `undefined` past the last one. |
| Extracts.ZipLines | scripts/process-data-stream.js:111-117 | There is one ZIP pair per non-header line of the ZIP extract. |
| Extracts.ZipLineColumns | scripts/process-data-stream.js:117 | Destructuring `[pwsid, zipcode]` reads back the two columns of a line. |
| DataStream.RecordColumns | scripts/process-data-stream.js:42-54 | Each record field comes from its fixed column: pwsid 0, name 1, region 3, contaminant 4, value 7, sign 8, mrl 9, units 10, date 11, size 21, state 22. |
| DataStream.ShortLineState | scripts/process-data-stream.js:45-58 | A line with at most 22 columns has an undefined state, which keys its system under the state "undefined". |
| DataStream.Records | scripts/process-data-stream.js:33-40 | There is one record per data line, and the header line gives none. |
| DataStream.NewContaminant | scripts/process-data-stream.js:79-84 | A new contaminant entry is detected exactly when the sign is `=`. Its value is `<mrl` exactly when the sign is `<`, and the raw result otherwise. Its unit and MRL are the record's. |
| DataStream.AddSampleRecord | scripts/process-data-stream.js:55-89 | One data line updates the dictionaries as `AddSample` does. |
| DataStream.AggregateSamples | scripts/process-data-stream.js:33-96 | The samples loop leaves `stateData` and `pwsIndex` equal to the fold of `AddSample` over the records. |
| DataStream.SystemRows | scripts/process-data-stream.js:57-74 | The rows aggregated into one (state, pwsid) entry are exactly the records with that state key and pwsid. |
| DataStream.AggregateProjection | scripts/process-data-stream.js:57-90 | A state key exists exactly when some record has it. A (state, pwsid) entry exists exactly when some record has both, and it is the fold of just those rows. |
| DataStream.SystemIdentity | scripts/process-data-stream.js:62-71 | An entry's pwsid, name and state come from its first row, later rows never change them, and it starts with no ZIP codes. |
| DataStream.ContaminantFirstWins | scripts/process-data-stream.js:77-85 | A contaminant key is present exactly when some row names it, and its entry is built from the first such row; later rows leave it unchanged. |
| DataStream.LastTestedIsLatest | scripts/process-data-stream.js:69-90 | `last_tested` is a date of the entry's rows that no row's date exceeds. If the first row has no date, it stays undefined, because `>` against `undefined` is false. |
| DataStream.PwsIndexConsistent | scripts/process-data-stream.js:62-74 | `pwsIndex` has exactly the pwsids seen. Each maps to a state one of its records carries, under which its system exists. Every aggregated system is indexed. |
| DataStream.AddSampleKeeps | scripts/process-data-stream.js:57-74 | A sample never removes a state or a system already aggregated. |
| DataStream.IndexZipCodes | scripts/process-data-stream.js:100-139 | Without a ZIP file nothing changes and the ZIP index is empty. Otherwise the loop's result is the fold of `AddZip` over the ZIP lines. |
| DataStream.RefsFor | scripts/process-data-stream.js:120-126 | A ZIP code's list is non-empty exactly when some ZIP line has that code. |
| DataStream.ZipIndexLists | scripts/process-data-stream.js:111-126 | The ZIP index has a key exactly for each ZIP code read, and its list holds one `{pwsid, state}` per line with that code, in line order. |
| DataStream.ZipIndexKeepsOrphans | scripts/process-data-stream.js:120-126 | Every ZIP line's `{pwsid, pwsIndex[pwsid]}` is listed under its code. An unknown pwsid is kept, with an undefined state. |
| DataStream.RefsForHas | scripts/process-data-stream.js:123-126 | Every line's reference is in its code's list. |
| DataStream.ZipCodesOfSystem | scripts/process-data-stream.js:129-134 | The ZIP pass changes only `zip_codes`, never adds a duplicate, and adds only codes of ZIP lines for that pwsid. |
| DataStream.ZipPassKeepsSystems | scripts/process-data-stream.js:129-134 | The ZIP pass adds no state and no system: `zip_codes` only grows for pwsids already seen. |
| DataStream.BuildStateIndex | scripts/process-data-stream.js:141-148 | `stateIndex` has exactly the states of `stateData`, each with its number of systems. |
| DataStream.ProcessDataStream | scripts/process-data-stream.js:7-166 | The whole script computes the samples fold, then the ZIP fold when the file exists, then the state counts of the result. |
| DataStream.StatePwsids | scripts/process-data-stream.js:62-74 | The systems under a state are exactly the distinct pwsids of the records with that state key. |
| DataStream.StateIndexCountsPwsids | scripts/process-data-stream.js:145-148 | `stateIndex[state]` equals the number of distinct pwsids aggregated under that state, after both passes. |
| DataStream.SystemAfterSamples | scripts/process-data-stream.js:62-85 | An aggregated system's identity comes from its first row, and each contaminant from the first row naming it. |
| DataStream.LastTestedAfterSamples | scripts/process-data-stream.js:69-90 | An aggregated system's `last_tested` is the string maximum of its rows' dates when its first row has a date. |
| DataStream.ZipCodesAfterBothPasses | scripts/process-data-stream.js:111-134 | After both passes a system's `zip_codes` hold no duplicate, and only codes listed for its pwsid. |
| Sorting.InsertBy | scripts/build-json-api.js:45 | Inserting into a sorted list keeps it sorted and adds exactly the new element. |
| Sorting.SortBy | scripts/build-json-api.js:45 | `ORDER BY` gives a sorted permutation of its input, with NULLs first. |
| SqliteLoader.RowColumns | scripts/convert-to-sqlite.js:127-147 | The 18 values come from columns 0,1,2,3,4,7,8,9,10,11,13,14,15,16,17,21,22,23 in that order, with `\|\| null` on region, result value and mrl. |
| SqliteLoader.Rows | scripts/convert-to-sqlite.js:121-147 | There is one row per non-header line. |
| SqliteLoader.AddRow | scripts/convert-to-sqlite.js:149-155 | A row joins the pending batch. A batch that reaches 1000 rows is inserted and emptied. Inserted rows followed by pending ones stay the rows seen so far, in order. |
| SqliteLoader.LoadSamples | scripts/convert-to-sqlite.js:114-164 | Line 0 becomes the headers and is not inserted. Every other row is inserted once, in input order, through non-empty batches of at most 1000, the final partial batch included. `rowCount` is the number of data lines. |
| SqliteLoader.LoadZipCodes | scripts/convert-to-sqlite.js:170-176 | The ZIP table holds each (pwsid, zipcode) pair read exactly once; repeated pairs are ignored. |
| SqliteLoader.AdditionalRowColumns | scripts/convert-to-sqlite.js:186-195 | An additional-data row takes its 7 fields from columns 0 to 6. |
| SqliteLoader.LoadAdditionalData | scripts/convert-to-sqlite.js:183-197 | There is one appended row per non-header line, in order, with no deduplication. |
| SqliteLoader.GroupKeys | scripts/convert-to-sqlite.js:234 | There is one distinct (pwsid, name, state, region, size) key per group present in the rows. |
| SqliteLoader.GroupRows | scripts/convert-to-sqlite.js:233-234 | A group holds exactly the rows with its key. |
| SqliteLoader.MaxText | scripts/convert-to-sqlite.js:231 | `MAX` over text is NULL exactly when every value is, and otherwise a value no other value exceeds. |
| SqliteLoader.SummaryKeys | scripts/convert-to-sqlite.js:213-234 | The insert fails exactly when one pwsid appears under two group keys (the primary key). Otherwise the summary has one row per pwsid, and every pwsid has one. |
| SqliteLoader.SummaryRowBounds | scripts/convert-to-sqlite.js:221-234 | Detected contaminants are those with a `=` row and a value, never more than the group's contaminants. `total_samples` counts distinct sample ids, at most the rows. `last_test_date` is a date of the group that no date exceeds. `zip_codes` are exactly the pwsid's distinct ZIP codes, and empty (`'[]'`) when it has none. |
| SqliteLoader.SampleIdsBound | scripts/convert-to-sqlite.js:232 | There are never more distinct sample ids than rows. |
| SqliteLoader.ZeroDetectionNotCounted | scripts/convert-to-sqlite.js:227-230 | A contaminant whose every data line has a result text that is not a number or parses to 0 (made NULL by the `\|\| null` of line 134) is not counted as detected. |
| SqliteLoader.SharedSampleCountsOnce | scripts/convert-to-sqlite.js:232 | Rows sharing one sample id count as one sample. |
| JsonApiBuilder.RowsOf | scripts/build-json-api.js:58-59 | `WHERE pwsid = ?` keeps exactly the system's rows. |
| JsonApiBuilder.ContaminantsIn | scripts/build-json-api.js:60 | `GROUP BY contaminant` yields each contaminant present exactly once. |
| JsonApiBuilder.GroupOf | scripts/build-json-api.js:60 | A contaminant's group holds exactly its rows, and is non-empty exactly when the contaminant occurs. |
| JsonApiBuilder.MaxFoldIsMax | scripts/build-json-api.js:54-57 | `max_value` is the largest non-NULL value, NULL only when all are. The bare columns come from the first row holding it, or from the last row when all are NULL. |
| JsonApiBuilder.ContaminantQuery | scripts/build-json-api.js:51-61 | There is one result row per distinct contaminant, and each names its group. The model lists the groups in the order of their first rows. |
| JsonApiBuilder.GroupResult | scripts/build-json-api.js:53 | A group's result row names the group's contaminant. |
| JsonApiBuilder.Format | scripts/build-json-api.js:66-70 | `detected` holds exactly when the sign is `=`. The value is `<mrl` exactly when the sign is `<`, and `max_value` otherwise. The unit is kept. |
| JsonApiBuilder.ContaminantMapLastWins | scripts/build-json-api.js:64-71 | A row whose key no later row repeats is what the map holds under that key. |
| JsonApiBuilder.ContaminantMapKeys | scripts/build-json-api.js:64-71 | The map's keys are exactly the result rows' contaminant keys. |
| JsonApiBuilder.ContaminantMapSize | scripts/build-json-api.js:51-71 | With distinct contaminant keys, the map has one key per result row. |
| JsonApiBuilder.FormatContaminants | scripts/build-json-api.js:64-71 | The formatting loop builds exactly the map of formatted rows. |
| JsonApiBuilder.ExactReadingWins | scripts/build-json-api.js:54-69 | If every valued row is `=`, the entry is detected and shows the group's largest value, which some row has. |
| JsonApiBuilder.BelowLimitGroup | scripts/build-json-api.js:55-69 | If every row is `<`, the entry is not detected and shows `<mrl` with some row's mrl. |
| JsonApiBuilder.InState | scripts/build-json-api.js:44 | `WHERE s.state = ?` keeps exactly the summary rows of that state; a NULL state matches nothing. |
| JsonApiBuilder.SystemsOfStateMembers | scripts/build-json-api.js:35-46 | A state's systems are exactly its summary rows, sorted by name. |
| JsonApiBuilder.ShardFor | scripts/build-json-api.js:49-78 | A shard has one entry per system. |
| JsonApiBuilder.ShardForEntries | scripts/build-json-api.js:73-77 | Each entry is its summary row with the contaminant map of that system's query. It keeps pwsid, name, state, ZIP codes, detected count and last test date. `zip_codes` is never NULL after the summary's `COALESCE`, so the `\|\| '[]'` fallback never applies. |
| JsonApiBuilder.BuildShard | scripts/build-json-api.js:49-78 | The per-system loop builds exactly that shard. |
| JsonApiBuilder.StatesIn | scripts/build-json-api.js:26 | `DISTINCT state` yields each state present once. |
| JsonApiBuilder.States | scripts/build-json-api.js:26 | The states are exactly those of the summary, in sorted order. |
| JsonApiBuilder.ShardFoldKeys | scripts/build-json-api.js:31-87 | One shard is written per state key. |
| JsonApiBuilder.ShardFoldLookup | scripts/build-json-api.js:31-87 | A state's shard is the shard of its systems. |
| JsonApiBuilder.BuildShards | scripts/build-json-api.js:31-87 | The state loop builds the shards, and `stateIndex` has the same keys, each with its shard's length. |
| JsonApiBuilder.ShardOfStateCount | scripts/build-json-api.js:35-86 | `stateIndex[state]` equals the state's number of summary rows, and the shard is sorted by name. |
| JsonApiBuilder.ShardEntriesFromSummary | scripts/build-json-api.js:35-77 | Every shard entry describes a summary row of that state. |
| JsonApiBuilder.SummaryRowsInShard | scripts/build-json-api.js:35-77 | Every summary row with a state appears in its state's shard. |
| JsonApiBuilder.ShardForHas | scripts/build-json-api.js:50-77 | Every system of a shard has its entry in the shard. |
| JsonApiBuilder.Matches | scripts/build-json-api.js:101 | A ZIP pair joins exactly the summary rows with its pwsid. |
| JsonApiBuilder.Join | scripts/build-json-api.js:98-101 | The inner join holds exactly the (zipcode, pwsid, state) rows of a ZIP pair and a matching summary row. |
| JsonApiBuilder.ZipData | scripts/build-json-api.js:98-103 | The query's rows are the join's rows, sorted by ZIP code. |
| JsonApiBuilder.GroupByZip | scripts/build-json-api.js:105-110 | The grouping loop builds exactly the grouped index. |
| JsonApiBuilder.EntriesFor | scripts/build-json-api.js:106-109 | A ZIP code's list is non-empty exactly when a joined row has that code. |
| JsonApiBuilder.ZipGroupsLists | scripts/build-json-api.js:105-110 | The index has a key exactly for each joined ZIP code, whose list holds that code's rows in row order. |
| JsonApiBuilder.ZipIndexHasNoOrphans | scripts/build-json-api.js:98-110 | Every listed entry comes from a ZIP pair with a summary row, so pwsids without a summary are dropped. Every joined pair is listed. |
| JsonApiBuilder.EntriesForFrom | scripts/build-json-api.js:109 | Every entry of a ZIP list comes from a joined row with that code. |
| JsonApiBuilder.EntriesForHas | scripts/build-json-api.js:109 | Every joined row is entered in its code's list. |
| JsonApiBuilder.BuildJsonApi | scripts/build-json-api.js:7-121 | The script builds the shards, a state index of their lengths, and the grouped ZIP index of the join. |
| Query.Get | api/water-quality.js:15-18 | `searchParams.get` is null exactly when the name is absent, and otherwise the first value given for it. |
| Query.CountParam | api/water-quality.js:19-20 | `parseInt(get(name) \|\| fallback)` parses the fallback when the parameter is absent or empty, and the parameter otherwise. |
| Query.ParseQueryParams | api/water-quality-sqlite.js:34-45 | The filters are the raw parameters. `limit` defaults to 50 and `offset` to 0 when absent or empty; otherwise they are the parsed parameters, NaN included. |
| Query.Page | api/water-quality.js:127-128 | The page is `results[offset .. offset+limit)` cut at the end, and empty under a NaN bound. |
| Query.PaginationOf | api/water-quality.js:155-160 | Pagination reports the full total and the requested bounds; `has_more` is exactly `offset + limit < total`. |
| Query.HasMoreIffResultsRemain | api/water-quality-sqlite.js:191 | `has_more` holds exactly when results remain after the returned page. |
| Query.PaginationExample | api/water-quality.js:127-159 | 25 results with limit 10 give 5 items and no more at offset 20, and items 10 to 19 with more at offset 10. |
| Query.Names | api/water-quality.js:133 | The entry names are the keys in entry order. |
| Query.DetectedOf | api/water-quality.js:133-139 | The detected list holds exactly the entries with `detected` true, as `{name, value, unit}`. |
| Query.DetectedNamesDistinct | api/water-quality.js:133-139 | Filtering keeps the names distinct. |
| Query.DetectedItemsAsEntries | api/water-quality.js:133-139 | A detected item's name is its entry's key. |
| Query.DetectedCount | api/water-quality.js:144 | `detected_count` is the number of contaminants with `detected` true. |
| Query.DetectedTexts | api/water-quality.js:147 | There is one `name: value unit` text per detected item, in order. |
| Query.ItemNames | api/water-quality.js:146 | There is one name per detected item, in order. |
| JsonHandler.Shard | api/water-quality.js:87-90 | A shard fetch is ok exactly when the shard exists. |
| JsonHandler.Find | api/water-quality.js:47 | `find` gives the first system with the pwsid, or nothing when none has it. |
| JsonHandler.SearchByZip | api/water-quality.js:41-49 | The ZIP loop computes the ZIP search over the index entries. |
| JsonHandler.ZipSearchResults | api/water-quality.js:41-49 | Every result comes from an index entry. Every entry whose shard holds its pwsid yields a result; entries absent from their shard are skipped. |
| JsonHandler.MatchOf | api/water-quality.js:116-121 | A system is kept exactly when its pwsid equals the upper-cased parameter, or its name contains the parameter case-insensitively. A missing name where the name test runs throws. |
| JsonHandler.ScanShards | api/water-quality.js:111-123 | The scan loop computes the scan over the listed states. |
| JsonHandler.ScanOneShard | api/water-quality.js:116-122 | The inner loop computes the scan of one shard. |
| JsonHandler.ScanShardFilters | api/water-quality.js:116-122 | One shard's results are exactly its matching systems, each at most as often as in the shard. |
| JsonHandler.ScanMembership | api/water-quality.js:109-123 | The scan's results are exactly the matching systems of the states searched. |
| JsonHandler.FindCode | api/water-quality.js:84 | The code is the first whose abbreviation matches, or the abbreviation itself when none does. |
| JsonHandler.Enrich | api/water-quality.js:131-151 | Each system is kept, with its detected contaminants, their count, and their names and values joined in that order. |
| JsonHandler.HandleZip | api/water-quality.js:36-50 | The ZIP branch answers as the response function does when a zipcode is given. |
| JsonHandler.HandleScan | api/water-quality.js:102-124 | The scan branch answers as the response function does for a pwsid or name search. |
| JsonHandler.Handle | api/water-quality.js:12-175 | The handler answers as the response function does. |
| JsonHandler.BadRequestIffNoFilter | api/water-quality.js:24-31 | The answer is 400 exactly when none of zipcode, pwsid, pws_name or state is given. |
| JsonHandler.ZipcodeTakesPrecedence | api/water-quality.js:36 | With a ZIP code, the other filters do not change the answer. |
| JsonHandler.ZipSearchReadsOnlyZipIndex | api/water-quality.js:36-50 | A ZIP search reads only the ZIP index and the shards. |
| JsonHandler.ZipResultsReadShards | api/water-quality.js:42-49 | ZIP results depend only on the shards. |
| JsonHandler.ScanIgnoresStateCodes | api/water-quality.js:53-124 | With pws_name or pwsid given, the state codes are not consulted. |
| JsonHandler.ScanStatesReadShards | api/water-quality.js:111-123 | Scan results depend only on the shards. |
| JsonHandler.StateSearchIgnoresIndexes | api/water-quality.js:53-100 | A state-only search reads only the state codes and the shards. |
| JsonHandler.AbbreviationShardServedRaw | api/water-quality.js:63-81 | A 2-letter state with its own shard is served paginated from it, without the summary fields. |
| JsonHandler.SharpSStateServesTwoLetterShard | api/water-quality.js:60-81 | `state=ß` upper-cases to `SS`, and is served from the `SS` shard when there is one. |
| JsonHandler.StateCodeLookup | api/water-quality.js:84-99 | Otherwise the state maps through the codes. A missing shard gives 404 `State … not found`, and a present one the paginated, summarised shard. |
| JsonHandler.AnswersCarrySystems | api/water-quality.js:36-164 | The handler answers only 200, 400, 404 or 500. Every 200 answer carries a list of water systems, raw from an abbreviation shard or with summaries. |
| JsonHandler.FinishPaginates | api/water-quality.js:126-164 | A 200 answer reports the full total and `has_more`, and carries the page of results, each system kept. |
| Zapier.FlatKeyInjective | api/water-quality-zapier.js:39-42 | Two flattened keys are equal only for the same contaminant and the same field. |
| Zapier.FourWrites | api/water-quality-zapier.js:39-42 | The four assignments for a contaminant add exactly its four flattened fields. |
| Zapier.FlatMapKeys | api/water-quality-zapier.js:37-75 | The flattened keys are exactly `contaminant_<name>_<field>` for each contaminant and each of value, detected, unit and mrl. |
| Zapier.FlatMapFields | api/water-quality-zapier.js:37-42 | Each flattened key carries that contaminant's field. |
| Zapier.AllTexts | api/water-quality-zapier.js:54 | There is one `name: value unit` text per contaminant, in entry order. |
| Zapier.WriteFields | api/water-quality-zapier.js:39-42 | The four writes add exactly the contaminant's four flattened fields to the map. |
| Zapier.FlattenEntry | api/water-quality-zapier.js:37-55 | One turn of the `forEach` extends the flat map, the detected list and the text list by that entry alone. |
| Zapier.FlattenContaminants | api/water-quality-zapier.js:37-55 | The `forEach` builds exactly the flat map, the detected list and the list of all texts. |
| Zapier.ZipTexts | api/water-quality-zapier.js:63 | There is one text per ZIP code, in order. |
| Zapier.ZapSystemFields | api/water-quality-zapier.js:57-81 | The flattened system keeps pwsid, name, state and last_tested. `zip_codes_count` is the ZIP list's length and `detected_count` the detected list's. The detected list holds exactly the detected entries. The flat keys are exactly four per contaminant, and with distinct names each key carries that contaminant's field. |
| Zapier.FlattenSystem | api/water-quality-zapier.js:31-82 | The per-system map computes the flattened system. |
| Zapier.SystemsOf | api/water-quality-zapier.js:31 | `water_systems` is present exactly in a search answer. |
| Zapier.ZapSystems | api/water-quality-zapier.js:31-82 | `water_systems.map` flattens every system, one result per system, in order. |
| Zapier.ZapierRespond | api/water-quality-zapier.js:21-88 | A non-ok upstream answer is forwarded with its status. An ok one keeps its pagination and flattens each system, one per input system. |
| Zapier.Handle | api/water-quality-zapier.js:13-89 | The handler answers as the response function does. |
| Zapier.OverJsonHandler | api/water-quality-zapier.js:15-31 | Over the JSON handler, errors pass through unchanged, and a 200 answer keeps its pagination and number of systems. |
| SqliteHandler.FilterIf | api/water-quality-sqlite.js:51-72 | A condition is added exactly when its parameter is given, with the parameter's bound value. |
| SqliteHandler.Filters | api/water-quality-sqlite.js:51-77 | Conditions are added in the order pwsid, zipcode, pws_name, state, one per given parameter with its bound value, and none for city. There is none exactly when no filter is given. |
| SqliteHandler.Texts | api/water-quality-sqlite.js:52-70 | There is one condition text per condition, in order. |
| SqliteHandler.Values | api/water-quality-sqlite.js:53-71 | There is one bound value per condition, in the same order. |
| SqliteHandler.ZipConditionPlaceholder | api/water-quality-sqlite.js:57-60 | The ZIP condition has exactly one `?`. |
| SqliteHandler.ConditionPlaceholder | api/water-quality-sqlite.js:52-70 | Every condition text has exactly one `?`. |
| SqliteHandler.PlaceholdersMatchValues | api/water-quality-sqlite.js:47-82 | The WHERE clause has as many `?` as there are values. |
| SqliteHandler.PushCondition | api/water-quality-sqlite.js:51-72 | A given parameter appends its condition text and its bound value; an absent one appends nothing. |
| SqliteHandler.BuildWhereClause | api/water-quality-sqlite.js:47-83 | `where` is `WHERE` plus the conditions joined by ` AND `, and empty exactly when none was added. Each `?` matches one value. |
| SqliteHandler.LikeAnyRun | api/water-quality-sqlite.js:65-66 | `%` matches every name. |
| SqliteHandler.SqlLower | api/water-quality-sqlite.js:65 | `LOWER()` keeps the length, leaves no ASCII capital, and changes only ASCII capitals. |
| SqliteHandler.LikePrefix | api/water-quality-sqlite.js:65-66 | A plain pattern followed by `%` matches exactly the names that start with it, ignoring ASCII case. |
| SqliteHandler.LikeLeadingPercent | api/water-quality-sqlite.js:65-66 | A leading `%` matches exactly when the rest matches some suffix. |
| SqliteHandler.NameConditionIsSubstringSearch | api/water-quality-sqlite.js:64-67 | For a name parameter without `%` or `_`, the condition holds exactly when the name as SQLite lowers it contains the parameter as JavaScript lowers it. |
| SqliteHandler.NameConditionAgreesWithJsonSearch | api/water-quality-sqlite.js:64-67 | For a name with no capital outside ASCII, the condition holds exactly when the JSON handler's `toLowerCase().includes` test does. |
| SqliteHandler.NonAsciiCapitalsDiverge | api/water-quality-sqlite.js:65-66 | `École` finds `ÉCOLE` in the JSON handler's test but not through SQLite, whose `LOWER` keeps `É`. |
| SqliteHandler.UnderscoreIsWildcard | api/water-quality-sqlite.js:66 | An `_` in the name parameter is a wildcard: `a_c` selects `ABC`, which does not contain it. |
| SqliteHandler.Selecting | api/water-quality-sqlite.js:101-102 | The query selects exactly the summary rows satisfying every condition. |
| SqliteHandler.SystemsPage | api/water-quality-sqlite.js:104-107 | The query fails exactly when a limit or offset is NaN, or is 2^63 - 512 or more, which rounds to a double SQLite cannot take as a 64-bit integer. |
| SqliteHandler.SystemsPageMeaning | api/water-quality-sqlite.js:90-107 | The page holds selected rows sorted by name, as many as `LIMIT`/`OFFSET` leave. From offset 0 with a large enough limit, it holds every match. |
| SqliteHandler.ReadingKeys | api/water-quality-sqlite.js:134 | `GROUP BY contaminant, units, mrl` yields each key present once. |
| SqliteHandler.ReadingGroup | api/water-quality-sqlite.js:134 | A group holds exactly the rows with its key. |
| SqliteHandler.ReadingGroupCounts | api/water-quality-sqlite.js:132-134 | A group holds every row with its key as often as the table does, and no other row. |
| SqliteHandler.LatestFoldIsMax | api/water-quality-sqlite.js:127-131 | `latest_test` is the latest date, and the bare columns come from a row of the group with that date. |
| SqliteHandler.GroupResultMeaning | api/water-quality-sqlite.js:124-131 | A result row carries its key. `test_count` is the group size, and `latest_test` its latest date. The sign is that of a row with that date. `max_value` is the largest value, NULL only when all are. |
| SqliteHandler.GroupResults | api/water-quality-sqlite.js:123-136 | There is one result row per group. |
| SqliteHandler.ContaminantGroups | api/water-quality-sqlite.js:123-137 | The system's result rows are sorted by contaminant, one per group. |
| SqliteHandler.GroupResultsMembers | api/water-quality-sqlite.js:123-136 | A result row is exactly the result of some group. |
| SqliteHandler.ContaminantGroupsMembers | api/water-quality-sqlite.js:123-137 | The system's result rows are exactly the results of its groups. |
| SqliteHandler.ReadingOf | api/water-quality-sqlite.js:150-157 | `detected` holds exactly when the sign is `=`. The value is `<mrl` exactly when the sign is `<`, and `max_value` otherwise. Unit, mrl, test count and latest test are kept. |
| SqliteHandler.ReadingMapKeys | api/water-quality-sqlite.js:148-158 | The map's keys are exactly the result rows' contaminants. |
| SqliteHandler.ReadingMapLastWins | api/water-quality-sqlite.js:149-157 | When two groups share a contaminant, the later one's reading is kept. |
| SqliteHandler.ReadingMapFrom | api/water-quality-sqlite.js:149-157 | Every reading in the map is the formatting of some result row with that key. |
| SqliteHandler.FormatReadings | api/water-quality-sqlite.js:147-158 | The formatting loop builds exactly that map. |
| SqliteHandler.SystemOf | api/water-quality-sqlite.js:160-173 | A system keeps pwsid, name, state, region, size and ZIP codes, reports its summary totals, and carries the readings of its groups. |
| SqliteHandler.SystemsOf | api/water-quality-sqlite.js:122-174 | There is one described system per page row, in order. |
| SqliteHandler.WaterSystemsMeaning | api/water-quality-sqlite.js:85-194 | The query fails exactly on a bound that is NaN or 2^63 - 512 or more. Otherwise every system is a selected row, the systems are sorted by name, and the total counts all matches. `has_more` holds exactly when matches remain after the page. |
| SqliteHandler.DescribeSystem | api/water-quality-sqlite.js:123-173 | The loop body describes one system. |
| SqliteHandler.GetWaterSystems | api/water-quality-sqlite.js:85-194 | The method computes the page, the described systems and the pagination. |
| SqliteHandler.Handle | api/water-quality-sqlite.js:207-236 | The handler answers as the response function does. |
| SqliteHandler.SqlStatus | api/water-quality-sqlite.js:211-236 | The status is 400 exactly when no filter is given, even with a city. It is 500 exactly when a filter is given and a bound is NaN or 2^63 - 512 or more (SQLite's "datatype mismatch"), and 200 otherwise. |
| SqliteHandler.HugeLimitFails | api/water-quality-sqlite.js:104-107 | A filtered request whose limit has twenty digits or more, such as 2^64, is answered with 500. |

## Left out

- **File reading.** Reading files as streams is not modelled: latin1 decoding, CRLF handling and readline. Each input is its sequence of lines.
- **Output rendering.** Writing the output files, console logging and progress output are not modelled.
- **JSON text.** `JSON.stringify` and `JSON.parse` texts are not modelled, including `raw_json`, `contaminants_json`, `zip_codes_json`, `full_record_json` and the `zip_codes` column. A shard or document is its data structure.
- **The `zip_codes` column.** `json_group_array(DISTINCT zipcode)` is modelled as the set of the pwsid's ZIP codes, because SQL leaves the order of its elements unspecified.
- **SQLite plumbing.** Database engine mechanics are not modelled: opening or deleting the database file, `CREATE INDEX`, `VACUUM`, transactions, and the final statistics. Tables are their row sequences.
- **NOT NULL constraints.** These are not enforced: a row with a missing `pws_name`, state or contaminant is loaded with NULL. A ZIP pair with a missing code is kept.
- **SQL tie order.** `ORDER BY` is a stable sort. SQL leaves the order among equal keys unspecified, and the model fixes it to input order.
- **Groups sharing a contaminant.** When two `(contaminant, units, mrl)` groups share a contaminant, the SQLite handler's map keeps the later group under the model's tie order. SQLite's own order among them is unspecified.
- **Bare columns beside `MAX`.** The SQL standard leaves these undefined. They are modelled as SQLite's implementation chooses them, described above.
- **Remote database loading.** Fetching the SQLite database, the `locateFile` option of sql.js, gzip decompression and the cached connection are not modelled. The database is a parameter.
- **HTTP plumbing.** `fetch` of the JSON artifacts, the `OPTIONS` answer and the CORS headers are not modelled. The JSON handler takes the fetched documents as a `Store`, and a missing or unparsable document gives the 500 answer.
- **Error messages.** The 500 answers of the JSON handler and the Zapier wrapper carry no message text: JavaScript's exception messages are not modelled. The SQLite handler's message for a NaN bound is SQLite's "datatype mismatch".
- **URL decoding.** Percent-decoding of the URL is not modelled. Query parameters are decoded name/value pairs.
- **Number parsing and printing.** `parseFloat` reads the longest prefix of the form digits, optionally followed by `.` and digits, as JavaScript does, and gives NaN only when there is no such prefix. Exponents, signs, leading white space and `Infinity` are not read: the model gives 1 for `1e3`, where JavaScript gives 1000 (`ExponentNotRead`). How a number prints (`<${mrl}`, `${value}`) is the parameter `num`.
- **`parseInt`.** It is modelled on leading decimal digits only, with no sign, whitespace, or other radix.
- SqliteHandler.SystemsPage / SqliteHandler.SqlStatus / Query.ParseQueryParams / Query.PaginationOf: `parseInt` gives a double, so in the source a limit or offset beyond 2^53 is rounded. `ParseQueryParams`, which both handlers share, keeps the exact integer. The model states only where rounding decides the outcome: in the SQLite handler, a bound of 2^63 - 512 or more rounds to 2^63 or more and fails like NaN. Elsewhere the pages of both handlers and the `limit` and `offset` that `PaginationOf` echoes are exact, where the source's are rounded.
- **JavaScript object keys.** Objects are maps keyed by the coerced key text. The builder's shards, the shard documents the JSON handler reads, and the Zapier wrapper's objects keep their entries in insertion order. The builder's contaminant maps (`ContaminantMap`, a shard entry's `contaminants`) are unordered maps. In the source their key order is the order of the `GROUP BY contaminant` rows, and the Zapier wrapper's `all_contaminants_summary` follows it. The model lists a system's groups in the order of their first rows. The streaming aggregator's dictionaries are not ordered: `stateData`, each state's systems and `pwsIndex` are maps, and `BuildStateIndex` visits the states in no fixed order.
- **System order of a stream-built shard.** The source writes each state's systems in the order their pwsids were first seen. The model does not produce that order, and that order decides the order of scan results and pages over such a shard.
- **Prototype keys.** JavaScript's rule that integer-like keys come first, and inherited prototype keys, are not modelled.
- **The `null` key.** A NULL contaminant or state keys its entry under the text `null`. A real contaminant or state named `null` would share that key, and the lemmas about such keys exclude that case.
- **City search.** The `city` parameter only logs a warning in the source; the model parses it and it adds no condition.
- **Unescaped `LIKE` wildcards.** The name parameter is wrapped in `%…%` without escaping, so `%` and `_` in it act as wildcards (`UnderscoreIsWildcard`). 
- **Name search over stream-built shards.** These shards carry `name`, not `pws_name`, so a name scan over them reaches `undefined.toLowerCase()` and fails with 500. The model shows this through `MatchOf` returning `None`; only the builder's shards carry `pws_name`.
- Js.ToUpperCase / Js.ToLowerCase: case mapping covers Latin-1 (U+0000 to U+00FF), the range the latin1-decoded extracts hold. Upper-casing also produces `Μ` (U+039C) and `Ÿ` (U+0178) from `µ` and `ÿ`, but lower-casing leaves those two unchanged, whereas JavaScript lower-cases them to `μ` and `ÿ`. Other characters are left unchanged, whereas JavaScript maps all of Unicode, so a Greek or Cyrillic query parameter is not case-mapped in the model.
- JsonHandler.MatchOf: the name test folds case only as far as `Js.ToLowerCase` does. Latin-1 capitals are folded; capitals beyond U+00FF are not.
- **Zapier summary fields.** `SystemsOf` reads the JSON handler's added summary and `raw_json` fields as part of the system and does not flatten them again.
- Zapier.ZapSystemFields: does not restate the three joined texts `zip_codes_list`, `detected_summary` and `all_contaminants_summary`. `ZapSystemOf` builds them with `Join` over `ZipTexts`, `DetectedTexts` and `AllTexts`, whose rows state the per-item texts; how numbers print is a parameter.
- **The `download-data.js`, `upload-to-vercel-blob.js` and `water-blob.js` scripts.** They are network and file plumbing, and are not part of this model.
