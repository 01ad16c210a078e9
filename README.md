# Document preprocessing and KIC tools, modelled in Dafny

This project models two parts of the genon repository.

The **document preprocessor** (`basic_preprocessor_actual.py`) turns a file into chunk records. It renders text and HWP files to PDF under a path derived from the file name. It picks a loader from the lower-cased extension. It keeps the non-empty chunks, corrects their page numbers (0-based to 1-based, images excepted) and counts chunks per page. It collects the images saved from each page of the rendered PDF. It composes one metadata record per chunk: text statistics, page span from the bounding boxes found, position on the page and in the document, and the shared `chunk_bboxes` entry. Finally it attaches to each record the images of its first page.

The **KIC tools** are seven small nodes of an agent workflow:
- the chart tool (`tool_get_iframe_tag.py`): request validation, the type-switch buttons, dataset decoration and dual-axis scales;
- the bulk loader (`bulk_insert_file.js`): text cleaning, first-object extraction, quote normalisation and the per-sheet CREATE/INSERT loop;
- the MySQL and Postgres query tools (`execute_query.js`, `execute_query_supabase.js`): query checks, rows to columns, the 6000-code-unit cap and error classification;
- the schema tool (`get_DB_Schema.js`): table-name resolution, the per-table column listing and the fixed insurance schema;
- the route normaliser (`normalize.js`);
- the SQL feedback node (`update_SQL_Feedback.js`).

Several things are inputs to the model rather than modelled code:
- JSON parsing and serialising (`Json.Codec`);
- the database drivers, the PDF renderer and text search, image saving and uploading;
- request cancellation and the clock.

Each stateful operation is a method proved against a specification function. The properties the code promises are lemmas about those functions. The document processor is a class whose `pageChunkCounts` field is the per-page histogram, kept as a multiset. Helper modules:
- `Wrappers`: Option and Result;
- `Text`: replacement, case mapping, whitespace classes, trim, join and de-duplication;
- `Json`: ordered objects with `Get`/`Set` and assignment loops.

## Model

| member | source | states |
|---|---|---|
| PdfPath.GetPdfPath | basic_preprocessor_actual.py:43-46 | the loop result equals rewriting each convertible extension in list order |
| PdfPath.RewriteAllAbsent | basic_preprocessor_actual.py:43-46 | a path containing none of the extensions is returned unchanged |
| PdfPath.PdfPathUnchanged | basic_preprocessor_actual.py:43-46 | a file path with no convertible extension in it is its own PDF path |
| PdfPath.RewriteAllSplit | basic_preprocessor_actual.py:44-45 | the rewrite distributes over a split before a dot, since every extension starts with its only dot |
| PdfPath.ConvertedExtension | basic_preprocessor_actual.py:30-46 | a name ending in `.hwp`, `.txt`, `.json`, `.md` or `.pdf` ends in `.pdf` after the rewrite, stem rewritten alone |
| PdfPath.ExtensionRewrites | basic_preprocessor_actual.py:30-46 | each convertible extension, and `.pdf` itself, becomes exactly `.pdf` |
| PdfPath.PdfFixed | basic_preprocessor_actual.py:44-45 | `.pdf` is a fixed point of every remaining rewrite step |
| PdfPath.TextFileExample | basic_preprocessor_actual.py:33-46 | `a/x.txt` is rendered to `a/x.pdf` |
| Loaders.GetLoader | basic_preprocessor_actual.py:158-173 | the lower-cased `splitext` extension selects its loader from the table when listed, and the generic loader exactly when not |
| Loaders.Extension | basic_preprocessor_actual.py:159 | the extension is empty or a dot-led suffix of the path without `/` or further dots |
| Loaders.LoaderTableAgrees | basic_preprocessor_actual.py:158-173 | each of the twelve listed extensions selects its own loader |
| Loaders.GenericIffUnlisted | basic_preprocessor_actual.py:158-173 | the generic loader is chosen if and only if the extension is not in the table |
| Loaders.LoaderByExtensionOnly | basic_preprocessor_actual.py:158-159 | two paths with the same lower-cased extension get the same loader |
| Loaders.ExtensionOfNamedFile | basic_preprocessor_actual.py:159 | `dir/name.ext` has extension `.ext` for any directory, dot-free name and dot-led extension |
| Loaders.UpperCasePdfLoader | basic_preprocessor_actual.py:159-161 | `report.PDF` is read as a PDF in any directory |
| Loaders.UpperCaseTextLoader | basic_preprocessor_actual.py:159-169 | `notes.TXT` goes through the text renderer |
| Loaders.DotFileIsGeneric | basic_preprocessor_actual.py:159-173 | a dot file and a name without a dot have no extension and get the generic loader |
| TextStats.Words | basic_preprocessor_actual.py:327 | `split()` yields non-empty words without whitespace |
| TextStats.WordsSplit | basic_preprocessor_actual.py:327 | splitting at a whitespace character concatenates the word lists of both sides |
| TextStats.SingleWord | basic_preprocessor_actual.py:327 | a non-empty string without whitespace is one word |
| TextStats.BlankHasNoWords | basic_preprocessor_actual.py:327 | a whitespace-only string has no words |
| TextStats.Lines | basic_preprocessor_actual.py:328 | `splitlines()` yields lines without terminators, and none exactly when the text is empty |
| TextStats.LinesAfterNewline | basic_preprocessor_actual.py:328 | a line ended by `\n` is one line followed by the lines of the rest |
| TextStats.CrLfIsOneBreak | basic_preprocessor_actual.py:328 | `\r\n` ends one line, not two |
| TextStats.TrailingNewline | basic_preprocessor_actual.py:328 | a final terminator adds no empty line |
| ChunkMeta.KeepNonEmpty | basic_preprocessor_actual.py:195 | no longer than the input, and every kept chunk has content |
| ChunkMeta.KeptExactlyNonEmpty | basic_preprocessor_actual.py:195 | a chunk is kept if and only if it is an input chunk with content |
| ChunkMeta.KeepAllNonEmpty | basic_preprocessor_actual.py:195 | when no chunk is empty nothing is dropped |
| ChunkMeta.CorrectAll | basic_preprocessor_actual.py:199-214 | one corrected chunk per kept chunk, in order |
| ChunkMeta.ImagePageCorrection | basic_preprocessor_actual.py:205-208 | for image sources every integer page ends at least 1, positive pages and non-integers are kept, and the correction is idempotent |
| ChunkMeta.OtherPageCorrection | basic_preprocessor_actual.py:209-212 | elsewhere a page `n >= 0` becomes `n + 1`, others pass through, and a missing page (taken as 1) ends on page 2 |
| ChunkMeta.NoSourceIsNotImage | basic_preprocessor_actual.py:202-203 | a chunk without a source is not an image chunk |
| ChunkMeta.HistogramCounts | basic_preprocessor_actual.py:215 | the histogram's entry for a page is the number of chunks on it, and its size is the number of chunks |
| ChunkMeta.SeqMin | basic_preprocessor_actual.py:321 | the result is an element and a lower bound of every element |
| ChunkMeta.SeqMax | basic_preprocessor_actual.py:274 | the result is an element and an upper bound of every element |
| ChunkMeta.TaggedPages | basic_preprocessor_actual.py:319 | exactly the non-None box pages are collected |
| ChunkMeta.RecordsUpTo | basic_preprocessor_actual.py:286-336 | record `k` of the loop is chunk `k`'s record, in chunk order |
| ChunkMeta.PageSpanOrdered | basic_preprocessor_actual.py:294-322 | `i_page <= e_page`; without tagged boxes both are the chunk's page, otherwise they are the least and greatest tagged box page |
| ChunkMeta.UnsearchedPageSpan | basic_preprocessor_actual.py:297-299 | without a PDF, or on a page outside it, the span is the chunk's page and no boxes are found |
| ChunkMeta.IndexOnPageRun | basic_preprocessor_actual.py:290-292 | `i_chunk_on_page` counts the run of chunks just before on the same page, stopping at a page change |
| ChunkMeta.IndexBelowPageCount | basic_preprocessor_actual.py:331-332 | the position on the page is below the histogram count of that page |
| ChunkMeta.StickyBoxesLast | basic_preprocessor_actual.py:315-316 | `chunk_bboxes` is that of the last chunk so far whose page was searched, and absent if there is none |
| ChunkMeta.ComposeFields | basic_preprocessor_actual.py:324-335 | every record has its chunk's text and statistics, its index, the chunk count, the maximum page, an ordered span and no media yet |
| ChunkMeta.FreshPageCounts | basic_preprocessor_actual.py:332 | with a fresh histogram `n_chunk_of_page` is the number of chunks on the page, and `i_chunk_on_page` is below it |
| ChunkMeta.SavedNames | basic_preprocessor_actual.py:229-255 | the names listed are exactly those of the saved images |
| ChunkMeta.SavedNamesAppend | basic_preprocessor_actual.py:248-250 | a failed save only drops that image: names of a concatenation concatenate |
| ChunkMeta.AsImages | basic_preprocessor_actual.py:255 | one `{name, type: image}` entry per saved name, in order |
| ChunkMeta.AsUploads | basic_preprocessor_actual.py:254 | one `/tmp/<name>` upload per saved name, in order |
| ChunkMeta.PageImagesStep | basic_preprocessor_actual.py:227-255 | page `n + 1` adds its key exactly when it saved an image, and it was not a key before |
| ChunkMeta.WithMedia | basic_preprocessor_actual.py:354-358 | each record gets its `i_page` list from the map, or the empty list |
| ChunkMeta.MediaOfPage | basic_preprocessor_actual.py:354-358 | map keys are 1-based pages of the PDF; a page's media are its saved images; a missing page or PDF gives none |
| ChunkMeta.RecordMedia | basic_preprocessor_actual.py:354-358 | after the merge a record carries the images saved on its `i_page` and is otherwise unchanged |
| ChunkMeta.UploadsArePageImages | basic_preprocessor_actual.py:254-258 | uploads grow in page order, and each is an image saved on one of those pages, under `/tmp/` |
| Preprocessor.DocumentProcessor.constructor | basic_preprocessor_actual.py:154-155 | the histogram starts empty |
| Preprocessor.DocumentProcessor.SplitDocuments | basic_preprocessor_actual.py:182-216 | fails with the empty-document error iff nothing has content, leaving the histogram; otherwise it returns the corrected chunks and adds each page once |
| Preprocessor.DocumentProcessor.CorrectAndCount | basic_preprocessor_actual.py:199-215 | returns the corrected chunks and adds their pages to the histogram |
| Preprocessor.DocumentProcessor.ExtractPageImages | basic_preprocessor_actual.py:219-260 | the page map and uploads are those of the rendered PDF, empty without one |
| Preprocessor.DocumentProcessor.ExtractPage | basic_preprocessor_actual.py:227-255 | one page step extends the map and uploads to one more page |
| Preprocessor.DocumentProcessor.SavePageImages | basic_preprocessor_actual.py:229-255 | the page's key is added only if it saved an image, and its saved images are appended to the uploads |
| Preprocessor.DocumentProcessor.SaveImage | basic_preprocessor_actual.py:230-255 | one image step keeps the map and uploads equal to those of the saved images so far |
| Preprocessor.DocumentProcessor.Compose | basic_preprocessor_actual.py:263-338 | the records are those of the specification, read from the PDF at the derived path |
| Preprocessor.DocumentProcessor.RecordLoop | basic_preprocessor_actual.py:278-336 | the loop yields exactly the specified record of every chunk |
| Preprocessor.DocumentProcessor.NextPosition | basic_preprocessor_actual.py:290-292 | the counter equals the specified index on the page and the loop state moves on by one |
| Preprocessor.DocumentProcessor.NextRecord | basic_preprocessor_actual.py:287-335 | builds chunk `k`'s specified record and the shared boxes after it |
| Preprocessor.DocumentProcessor.SearchPage | basic_preprocessor_actual.py:294-322 | returns the specified page span and the boxes found |
| Preprocessor.DocumentProcessor.Run | basic_preprocessor_actual.py:341-360 | each cancellation point, or an empty document, stops with the results so far; otherwise the records with media attached |
| Preprocessor.AttachMedia | basic_preprocessor_actual.py:354-358 | the array afterwards holds each record with its page's media set |
| ChartTool.ValidateDict | KIC/tool_get_iframe_tag.py:401-424 | a dictionary passes iff it is well formed (type, required fields, lengths, non-empty datasets), and it is returned unchanged |
| ChartTool.ValidateInputKinds | KIC/tool_get_iframe_tag.py:391-399 | other input types and unparsable strings are rejected; a parsed object is validated like a dictionary |
| ChartTool.NonObjectRejected | KIC/tool_get_iframe_tag.py:402-405 | parsed JSON that is not an object is always rejected, as missing chart type or unexpected error |
| ChartTool.ValidWellFormed | KIC/tool_get_iframe_tag.py:389-424 | whatever passes validation is well formed |
| ChartTool.ButtonGroup | KIC/tool_get_iframe_tag.py:324-328 | the loop builds the specified button group |
| ChartTool.ActiveIff | KIC/tool_get_iframe_tag.py:326 | a button is active iff it is the current type |
| ChartTool.ButtonGroupShape | KIC/tool_get_iframe_tag.py:320-328 | the group holds the bar, line and pie buttons in that order inside its div |
| ChartTool.OneActive | KIC/tool_get_iframe_tag.py:325-326 | at most one button is active, and one is exactly when the current type is basic |
| ChartTool.ButtonLabels | KIC/tool_get_iframe_tag.py:327 | labels are capitalised: Bar, Line, Pie |
| ChartTool.DecoratedUpTo | KIC/tool_get_iframe_tag.py:212-222 | there is one decorated dataset per input dataset |
| ChartTool.DecoratedUpToAt | KIC/tool_get_iframe_tag.py:213-222 | element `i` is dataset `i` decorated with index `i` |
| ChartTool.DecorateDatasets | KIC/tool_get_iframe_tag.py:272-280 | the loop yields the specified decorated list, for mixed and dual-axis charts alike |
| ChartTool.ColorFields | KIC/tool_get_iframe_tag.py:215-216 | both colours are set, other keys are kept, no key is lost |
| ChartTool.LineStyleFields | KIC/tool_get_iframe_tag.py:217-219 | line datasets get no fill and tension 0.2; others are unchanged |
| ChartTool.AxisDefaultFields | KIC/tool_get_iframe_tag.py:220-221 | mixed charts default `yAxisID` to `y` and keep an existing one; dual-axis charts leave it |
| ChartTool.DecoratedColors | KIC/tool_get_iframe_tag.py:215-216 | the colours are palette entry `idx mod 5` |
| ChartTool.DecoratedLineStyle | KIC/tool_get_iframe_tag.py:217-219 | fill and tension are set for lines and left as given otherwise |
| ChartTool.DecoratedAxis | KIC/tool_get_iframe_tag.py:220-221 | the axis id after decoration, for mixed and dual-axis charts |
| ChartTool.DecoratedKeepsRest | KIC/tool_get_iframe_tag.py:213-222 | every key outside the five style keys keeps its value, and no key is lost |
| ChartTool.DecoratedStable | KIC/tool_get_iframe_tag.py:220-221 | an explicit `yAxisID` survives decoration |
| ChartTool.AxisEntries | KIC/tool_get_iframe_tag.py:283-290 | one scale entry per requested axis |
| ChartTool.BuildYAxes | KIC/tool_get_iframe_tag.py:282-290 | the loop builds the specified scale object |
| ChartTool.AxisSides | KIC/tool_get_iframe_tag.py:286-289 | `y1` is on the left with grid lines; every other id is on the right without them |
| ChartTool.YAxesLastWins | KIC/tool_get_iframe_tag.py:282-290 | scale keys are distinct, unrequested ids are absent, and a repeated id keeps its last configuration |
| ChartTool.ChartMatchesType | KIC/tool_get_iframe_tag.py:260-340 | the built chart matches the chart type, with defaults for title and y label; only mixed and dual-axis building can fail; a dual-axis chart whose `y_axes` is an empty list, dict or string is built with no scales |
| ChartTool.GenerateChart | KIC/tool_get_iframe_tag.py:389-430 | the tool's result is the specified chart or error |
| BulkInsert.StripDocTags | KIC/bulk_insert_file.js:15 | removing the doc tags never lengthens the text |
| BulkInsert.DocTagLength | KIC/bulk_insert_file.js:15 | a match runs past the `<doc`/`</doc` opening and ends at a `>` |
| BulkInsert.StripPlainPrefix | KIC/bulk_insert_file.js:15 | text without `<` is kept verbatim |
| BulkInsert.OpeningTagLength | KIC/bulk_insert_file.js:15 | an opening tag with attributes is matched up to its first `>` |
| BulkInsert.ClosingTagRemoved | KIC/bulk_insert_file.js:15 | `</doc>` is removed |
| BulkInsert.StripWrapped | KIC/bulk_insert_file.js:15 | `<doc …>payload</doc>` becomes the bare payload |
| BulkInsert.CharIndex | KIC/bulk_insert_file.js:50 | the first index of the character, or -1 iff it does not occur |
| BulkInsert.FirstCloseBelow | KIC/bulk_insert_file.js:24-33 | the result is the first index below `n` where the brace count returns to zero, or -1 if there is none |
| BulkInsert.FirstClose | KIC/bulk_insert_file.js:24-33 | the result is the first index where the brace count returns to zero, or -1 if there is none |
| BulkInsert.FirstCloseUnique | KIC/bulk_insert_file.js:24-33 | any index with those properties is the result |
| BulkInsert.FirstJsonEnd | KIC/bulk_insert_file.js:21-33 | the brace-counting loop stops at that index |
| BulkInsert.ExtractFirstObject | KIC/bulk_insert_file.js:20-39 | the result is a prefix of the input |
| BulkInsert.ExtractFromPair | KIC/bulk_insert_file.js:20-39 | `{x}  {y}` becomes `{x}` |
| BulkInsert.ExtractWithoutBoundary | KIC/bulk_insert_file.js:20 | without `}` then `{` across whitespace, the text is kept |
| BulkInsert.BacktickQuoted | KIC/bulk_insert_file.js:50 | the quoted-run pass keeps the length |
| BulkInsert.Backticked | KIC/bulk_insert_file.js:50 | every apostrophe becomes a backtick, nothing else changes |
| BulkInsert.BacktickOnlyApostrophes | KIC/bulk_insert_file.js:50 | the quoted-run pass changes only apostrophes, into backticks |
| BulkInsert.BacktickRun | KIC/bulk_insert_file.js:50 | a quoted run holding an apostrophe keeps its quotes, gets backticks, and the scan resumes after it |
| BulkInsert.ReplaceFirstKeepsAbsent | KIC/bulk_insert_file.js:52 | replacing with text lacking a character brings none in |
| BulkInsert.NoApostropheLeft | KIC/bulk_insert_file.js:49-52 | no apostrophe survives the three passes |
| BulkInsert.NormalizedQuotes | KIC/bulk_insert_file.js:49-52 | no apostrophe survives, and only the first `"null"` becomes `null` |
| BulkInsert.Definitions | KIC/bulk_insert_file.js:89 | one "`name` type" definition per column |
| BulkInsert.ColumnNames | KIC/bulk_insert_file.js:88 | one backquoted name per column |
| BulkInsert.BuildClauses | KIC/bulk_insert_file.js:84-97 | the loop output is the definitions and the names joined by ", " |
| BulkInsert.ClausesExample | KIC/bulk_insert_file.js:84-97 | two columns give "`id` INT, `name` TEXT" and "`id`, `name`"; none give "" |
| BulkInsert.RowValues | KIC/bulk_insert_file.js:105 | an object gives its values in key order, an array its items, a string one single-character string per character, a number or boolean nothing; only null fails |
| BulkInsert.SheetDtypes | KIC/bulk_insert_file.js:81 | column types are read only from an object with `data_types` |
| BulkInsert.SheetRows | KIC/bulk_insert_file.js:80-105 | one value row per entry of a `data_rows` array |
| BulkInsert.SheetNames | KIC/bulk_insert_file.js:79-82 | one name per sheet, in order |
| BulkInsert.StepsUpToStops | KIC/bulk_insert_file.js:78-112 | nothing more is sent after the first error |
| BulkInsert.ProcessSheet | KIC/bulk_insert_file.js:79-111 | one sheet sends the specified statements and reports the specified error |
| BulkInsert.Prefix | KIC/bulk_insert_file.js:125 | `substring(0, n)` is a prefix of length `min(n, len)` |
| BulkInsert.ProcessSheets | KIC/bulk_insert_file.js:76-112 | the loop's log and error are the specified ones; with no error the names are all the sheet names |
| BulkInsert.Prepare | KIC/bulk_insert_file.js:15-39 | the text parsed is tag-stripped, trimmed and cut after the first object |
| BulkInsert.BulkInsertFile | KIC/bulk_insert_file.js:4-127 | the result, a throw of the catch block included, and the statements are the specified ones |
| BulkInsert.SheetStepConsistent | KIC/bulk_insert_file.js:99-111 | a sheet's log is consistent with how it ends, and it never reports non-iterable data |
| BulkInsert.StepsUpToConsistent | KIC/bulk_insert_file.js:78-112 | the whole loop's log is consistent with how it ends |
| BulkInsert.SheetsUpToConsistent | KIC/bulk_insert_file.js:78-112 | the same for the tool's sheet step |
| BulkInsert.SkippedUnlessYes | KIC/bulk_insert_file.js:4-7 | the tool skips iff `file_check` is not "YES", and then sends nothing |
| BulkInsert.StepsUpToErrors | KIC/bulk_insert_file.js:78-112 | the loop fails only on a malformed sheet or a database error |
| BulkInsert.LoadSheetsOutcome | KIC/bulk_insert_file.js:69-117 | after connect and reset, a success sent only successful statements and a failure is a consistent error record |
| BulkInsert.FailWith | KIC/bulk_insert_file.js:119-126 | the catch block throws exactly for a database message that mentions `position` without a digit, and otherwise reports the error, the text's length in UTF-16 code units and its first 200 characters |
| BulkInsert.PositionWithoutDigitThrows | KIC/bulk_insert_file.js:121 | a duplicate `position` column message makes the catch block throw |
| BulkInsert.PositionWithDigitRecorded | KIC/bulk_insert_file.js:121-126 | a message giving a position by number yields the record |
| BulkInsert.FailureRecord | KIC/bulk_insert_file.js:119-126 | recorded failures report the cleaned text's length in UTF-16 code units and its first 200 characters; the tool throws instead exactly for a database message with `position` and no digit; parse and missing-data errors touch no database |
| BulkInsert.SetNames | KIC/bulk_insert_file.js:115 | every sheet name is listed and only those; a name listed twice is an object or an array |
| BulkInsert.PrimitiveNamesDedup | KIC/bulk_insert_file.js:115 | without object or array names, each name is listed once, in first-seen order |
| BulkInsert.ReferenceNamesKept | KIC/bulk_insert_file.js:115 | when every name is an object or array, each sheet keeps its own entry, equal names included |
| BulkInsert.StringNamesMerged | KIC/bulk_insert_file.js:115 | two sheets with the same string name give one table name |
| BulkInsert.InsertedOutcome | KIC/bulk_insert_file.js:114-117 | success means everything sent succeeded; the tables are the sheet names as a `Set` keeps them, repeated only for object or array names |
| BulkInsert.FailedOutcome | KIC/bulk_insert_file.js:119-126 | a failure, recorded or thrown, stopped at its first failing statement, whose message it carries |
| ExecuteQuery.CleanQuery | KIC/execute_query.js:8-15 | succeeds iff the query is a string not blank after trimming; each failure gives its message |
| ExecuteQuery.BlankTrimsToEmpty | KIC/execute_query.js:12 | whitespace trims to the empty string |
| ExecuteQuery.BlankQueryRejected | KIC/execute_query.js:12-15 | a whitespace-only query is rejected as empty |
| ExecuteQuery.Column | KIC/execute_query.js:43 | one cell per row, in row order |
| ExecuteQuery.ColumnEntries | KIC/execute_query.js:42-44 | one assignment per field, in order |
| ExecuteQuery.ColumnOriented | KIC/execute_query.js:40-45 | the loop builds the specified column object |
| ExecuteQuery.ColumnsShape | KIC/execute_query.js:40-45 | keys are distinct; each field maps to its values in row order; no rows gives `{}` |
| ExecuteQuery.Decimal | KIC/execute_query.js:55 | decimal digits, non-empty and comma-free |
| ExecuteQuery.Grouped | KIC/execute_query.js:55 | the grouped number is non-empty and does not start with a comma |
| ExecuteQuery.GroupedDigits | KIC/execute_query.js:55 | removing the commas gives the decimal digits back |
| ExecuteQuery.GroupedExample | KIC/execute_query.js:55 | 6001 is shown as "6,001" |
| ExecuteQuery.ClassifyCodes | KIC/execute_query.js:70-82 | the six codes have their own types; other codes are their own type; no code is `UNKNOWN_ERROR` |
| ExecuteQuery.KnownTypesDistinct | KIC/execute_query.js:70-77 | the six types are distinct |
| ExecuteQuery.ExecuteQuery | KIC/execute_query.js:6-96 | the tool's result is the specified outcome |
| ExecuteQuery.RejectedBeforeConnecting | KIC/execute_query.js:8-21 | a bad query or missing settings fail as `UNKNOWN_ERROR` whatever the database does |
| ExecuteQuery.FailureQuery | KIC/execute_query.js:84-96 | a failure names the trimmed query, or `$SQL_QUERY` itself if there is none, and carries the message, code, errno and SQL state of the error raised at the step that failed |
| ExecuteQuery.SizeCap | KIC/execute_query.js:47-58 | rows are returned iff the columns' JSON text is at most 6000 UTF-16 code units long; otherwise only the message quoting that length |
| ExecuteQuery.SuccessFromRows | KIC/execute_query.js:12-65 | the tool succeeds iff the checks pass, it connects and the query runs; the answer comes from those rows |
| ExecuteQuerySupabase.ColumnOriented | KIC/execute_query_supabase.js:39-44 | the loop builds the specified column object |
| ExecuteQuerySupabase.ColumnsShape | KIC/execute_query_supabase.js:39-44 | without `fields` or rows there are no columns; otherwise one array per distinct field |
| ExecuteQuerySupabase.ClassifyCodes | KIC/execute_query_supabase.js:71-83 | the six SQLSTATE codes have their own types; others are their own type; no code is `UNKNOWN_ERROR` |
| ExecuteQuerySupabase.ExecuteQuerySupabase | KIC/execute_query_supabase.js:6-95 | the tool's result is the specified outcome |
| ExecuteQuerySupabase.RejectedBeforeConnecting | KIC/execute_query_supabase.js:8-15 | a bad query fails with `$SQL_QUERY` named, whatever the database does |
| ExecuteQuerySupabase.Outcomes | KIC/execute_query_supabase.js:47-95 | success iff the query runs; rows, columns and `rowCount` exactly when the columns' JSON text is at most 6000 UTF-16 code units long, and otherwise the message quoting that length; failures name the query and carry the message and code of the error raised, with its mapped type |
| DbSchema.TableNamesSource | KIC/get_DB_Schema.js:9-25 | names come from the upload's "OK" when it is an object, else from `$rdb_table` (quote-fixed and parsed when a string) |
| DbSchema.ColInfoNameType | KIC/get_DB_Schema.js:55-58 | every column entry has its name and type |
| DbSchema.ColInfoKeyFlags | KIC/get_DB_Schema.js:59-60 | no column is flagged both primary and unique |
| DbSchema.KeyFlagsPrimary | KIC/get_DB_Schema.js:59 | a `PRI` column is primary and not unique |
| DbSchema.KeyFlagsUnique | KIC/get_DB_Schema.js:60 | a `UNI` column is unique and not primary |
| DbSchema.KeyFlagsNone | KIC/get_DB_Schema.js:59-60 | any other column has neither flag |
| DbSchema.ColInfoSamples | KIC/get_DB_Schema.js:62-72 | samples appear iff the count is 1..25 and the sample query worked, and then they are its values |
| DbSchema.ColumnInfos | KIC/get_DB_Schema.js:53-74 | one entry per column row, in ordinal order |
| DbSchema.CollectColumns | KIC/get_DB_Schema.js:53-74 | the inner loop builds those entries |
| DbSchema.SchemaUpToShape | KIC/get_DB_Schema.js:42-80 | when it succeeds there is one entry per table, in request order, with that table's columns |
| DbSchema.SchemaUpToFailure | KIC/get_DB_Schema.js:42-51 | a failure is the error of the first table whose column query fails |
| DbSchema.SchemaUpToSucceeds | KIC/get_DB_Schema.js:42-80 | success means every column query succeeded |
| DbSchema.CollectTables | KIC/get_DB_Schema.js:40-80 | the outer loop gives the specified list or error |
| DbSchema.SchemaUpToStops | KIC/get_DB_Schema.js:42-80 | later tables do not change a failure |
| DbSchema.StaticSchema | KIC/get_DB_Schema.js:97-360 | one object per documented table |
| DbSchema.StaticTablesShape | KIC/get_DB_Schema.js:97-360 | the four tables, in order, with 19, 6, 9 and 12 columns |
| DbSchema.ResultJson | KIC/get_DB_Schema.js:83-92 | only a throw produces no object |
| DbSchema.GetDbSchema | KIC/get_DB_Schema.js:4-362 | the tool's result is the specified one |
| DbSchema.StaticUnlessYes | KIC/get_DB_Schema.js:95-361 | the fixed four-table schema is returned iff `file_check` is not "YES", for any database |
| DbSchema.TablesOutcome | KIC/get_DB_Schema.js:36-83 | schemas come only from a non-empty array of names, one entry per name in order |
| DbSchema.NonEmptyRequired | KIC/get_DB_Schema.js:36-38 | a missing, non-array or empty list fails with the fixed message and echoes the names |
| DbSchema.QueryFailureOutcome | KIC/get_DB_Schema.js:85-92 | a schema error after the checks is the first failing table's query error |
| DbSchema.AbortedOnlyOnBadFallback | KIC/get_DB_Schema.js:13-24 | the tool throws iff the `$rdb_table` fallback is a string whose quote-fixed text fails to parse |
| RouteLabel.FirstStringSpec | KIC/normalize.js:6-9 | finds a string-valued candidate iff there is one, and it is the earliest |
| RouteLabel.WithoutQuotes | KIC/normalize.js:30 | no quote character remains |
| RouteLabel.RouteChars | KIC/normalize.js:33 | only A-Z, `_` and `-` remain |
| RouteLabel.Route | KIC/normalize.js:35-43 | DA and CANNOT_DA map to themselves; everything else is GENERAL |
| RouteLabel.NormalizeRoute | KIC/normalize.js:16-45 | the output is one of the three routes |
| RouteLabel.RouteCharsQuotes | KIC/normalize.js:30-33 | removing quotes first changes nothing |
| RouteLabel.RouteCharsKeep | KIC/normalize.js:33 | route characters are kept whole |
| RouteLabel.NormIsRouteCharsOfUpper | KIC/normalize.js:27-33 | normalising keeps exactly the route characters of the upper-cased label |
| RouteLabel.RouteCharsAround | KIC/normalize.js:27-28 | surrounding whitespace contributes nothing |
| RouteLabel.NormCharacters | KIC/normalize.js:33 | normal forms hold only route characters |
| RouteLabel.NormFixed | KIC/normalize.js:27-33 | a label of route characters is its own normal form |
| RouteLabel.NormalizeIdempotent | KIC/normalize.js:16-45 | normalising an output gives it back |
| RouteLabel.RawLabelString | KIC/normalize.js:19-21 | JSON text of a string gives that string |
| RouteLabel.RawLabelObject | KIC/normalize.js:5-11 | an object gives its first string candidate, or else its JSON text |
| RouteLabel.NormalizeByRaw | KIC/normalize.js:16-33 | the route depends only on the route characters of the upper-cased label |
| RouteLabel.NormalizeText | KIC/normalize.js:22-23 | non-JSON text is routed by its own letters |
| RouteLabel.NormalizeString | KIC/normalize.js:19-21 | a JSON string is routed by its letters |
| RouteLabel.NormalizeNull | KIC/normalize.js:13 | `null` is GENERAL |
| RouteLabel.NormalizeObject | KIC/normalize.js:5-12 | an object is routed by its first string candidate, or else by its JSON text |
| RouteLabel.QuotedDaExample | KIC/normalize.js:16-45 | `"da"` with spaces around it routes to DA |
| RouteLabel.DigitDaExample | KIC/normalize.js:16-45 | `d1a` routes to DA |
| SqlFeedback.UpdateSqlFeedback | KIC/update_SQL_Feedback.js:1-19 | the output is the specified JSON text, or none when the node throws |
| SqlFeedback.EmptyHistoryCases | KIC/update_SQL_Feedback.js:3-7 | absent, empty, unparsable or non-array history counts as `[]`; otherwise it is the parsed array |
| SqlFeedback.UpdatedShape | KIC/update_SQL_Feedback.js:9-15 | all entries but the last are kept; the length is max(1, n); an empty history becomes `[{sql_feedback}]` |
| SqlFeedback.UpdatedLast | KIC/update_SQL_Feedback.js:10-11 | a last object gets the key and keeps the rest; a last `null` throws; other values are left |
| SqlFeedback.UpdatedTwice | KIC/update_SQL_Feedback.js:11 | feeding back twice leaves only the second feedback |
| SqlFeedback.SetTwice | KIC/update_SQL_Feedback.js:11 | assigning a key twice equals assigning it once |
| Json.Get | KIC/tool_get_iframe_tag.py:217 | lookup fails iff the key is absent |
| Json.Set | KIC/tool_get_iframe_tag.py:215 | the key holds the new value and every other key is unchanged |
| Json.SetKeys | KIC/tool_get_iframe_tag.py:215 | an existing key keeps its place, a new one is appended, and keys stay distinct |
| Json.SetUnique | KIC/tool_get_iframe_tag.py:215 | assignment keeps the keys distinct |
| Json.AssignAllUnique | KIC/execute_query.js:42-44 | an assignment loop never stores a key twice |
| Json.AssignAllAbsent | KIC/execute_query.js:42-44 | keys never assigned are absent |
| Json.AssignAllLastWins | KIC/tool_get_iframe_tag.py:283-290 | a key holds the value of its last assignment |
| Json.AssignAllAgreeing | KIC/execute_query.js:42-44 | if values depend only on keys, each key holds its value |
| Text.ReplaceAllAbsent | basic_preprocessor_actual.py:45 | replacing a missing pattern changes nothing |
| Text.ReplaceAllLength | basic_preprocessor_actual.py:45 | an equal-length replacement keeps the length |
| Text.ReplaceAllSplit | basic_preprocessor_actual.py:45 | replacement splits at a pattern's unique first character |
| Text.IndexOf | KIC/bulk_insert_file.js:52 | the first occurrence, or -1 iff there is none |
| Text.ReplaceFirstAt | KIC/bulk_insert_file.js:52 | only the first occurrence is replaced; the rest is verbatim |
| Text.Lower | basic_preprocessor_actual.py:159 | character-wise ASCII lower case |
| Text.Upper | KIC/normalize.js:29 | character-wise ASCII upper case |
| Text.SingleToDouble | KIC/bulk_insert_file.js:51 | each `'` becomes `"`, and none is left |
| Text.Trim | KIC/execute_query.js:12 | no whitespace at either end |
| Text.TrimSplit | KIC/execute_query.js:12 | the input is the trimmed text with only whitespace around it |
| Text.JoinSnoc | KIC/bulk_insert_file.js:90-96 | one more item adds exactly one separator |
| Text.Dedup | KIC/bulk_insert_file.js:115 | the same elements, each once, in first-occurrence order |
| Text.DedupOfDistinct | KIC/bulk_insert_file.js:115 | a list without repetitions is kept as it is |
| Text.Utf16Length | KIC/execute_query.js:51 | JavaScript's `length` counts between one and two code units per character, and exactly one per character iff none lies outside the Basic Multilingual Plane |
| Text.Utf16LengthAppend | KIC/execute_query.js:51 | the code-unit length of a concatenation is the sum of the lengths |
| Text.EmojiCountsTwice | KIC/execute_query_supabase.js:50 | a single emoji character has length 2 |

## Left out

- Loading, splitting, PDF rendering, text search with box merging, image conversion, saving and upload are not modelled. They are inputs: the loader, the splitter, the rendered-PDF observation and upload list. `chunk_size` and `chunk_overlap` go to the splitter and are not modelled.
- `get_korean_font`, `get_html_content`, `HwpLoader` and `TextLoader.load` do file I/O and rendering. Only the PDF path they write to is modelled.
- Preprocessor.DocumentProcessor.Compose: a non-integer page makes the model return an error. Python fails only where such a page meets arithmetic or a comparison, so a page value Python would tolerate is not modelled.
- `reg_date`: the clock is a parameter, and the timestamp format is not modelled.
- Box coordinates: normalisation by page size and the merge tolerances belong to the search input, and floating point is not modelled.
- `json.dumps` of `chunk_bboxes` and `media_files`: the records hold the values, not their JSON text.
- Text.Lower: ASCII-only case mapping. A non-ASCII extension that Python lower-cases differently is not modelled.
- Text.Upper: ASCII-only case mapping. Non-ASCII letters never survive the route-character filter, except those whose upper case is ASCII (such as `ı`), which is not modelled.
- ChartTool.GenerateChart: the HTML template, saving the file, the upload and the iframe text are not modelled. The result stops at the parts each chart type is built from.
- ChartTool.GenerateChart: the exception text after the dash in the parse, generation and unexpected-error messages is not modelled.
- ChartTool.ChartMatchesType: a y axis whose `id` is a number, boolean or `null` makes the model report a generation error. The source builds the dual-axis chart for such an id: the key is stringified by `json.dumps`, and the axis goes on the right without grid lines. Otherwise the source fails exactly where the model does: on a list or object `id` (unhashable), a missing `id` or `label`, a list element that is not an object, or a `y_axes` that is a non-empty dict or string (its elements are strings) or is not iterable. The model cannot tell Python's integer and float keys apart, nor merge `1` with `True` as a dict does, so it rejects these ids.
- BulkInsert.BulkInsertFile: `String()` of a non-string upload is not modelled; the upload is taken as text.
- BulkInsert.SheetDtypes: a `data_types` that is not a list of string pairs makes the sheet malformed. JavaScript would instead build SQL text from `undefined` entries.
- BulkInsert.RowValues: `Object.values` puts integer-like keys first in JavaScript. Here values follow insertion order. A string row is split by characters, not UTF-16 code units: a character outside the Basic Multilingual Plane gives one value, not two lone surrogates, which a Dafny string cannot hold.
- BulkInsert.SheetName: an absent `sheet_name` is `None`, standing for `undefined`; the table name the driver makes of it is not modelled.
- BulkInsert.Prefix: JavaScript's `substring` counts UTF-16 code units. The model counts characters.
- BulkInsert.FailWith: only database errors carry their message text. Parse errors, a missing `data` and malformed sheets are error kinds, not `err.message` text. So the catch block's own throw, on a message that mentions `position` without a digit, is modelled for database messages only. Other console output cannot change the result and is not modelled.
- `connection.end()` and the console logging in every tool are not modelled. Logging never changes a result except in the bulk loader's catch block, which `BulkInsert.FailWith` models.
- ExecuteQuery.ExecuteQuery: the failure timestamp, `Number($rdb_port)` and the `dbConfig` connection options are not modelled.
- ExecuteQuery.KnownError: keys inherited by `errorMap`, such as `constructor`, are not modelled.
- ExecuteQuery.Cell: an absent cell is `undefined` in the rows. The model shows it as the `null` JSON gives it.
- ExecuteQuery.Grouped: models the en-US `toLocaleString` grouping only.
- ExecuteQuery.ColumnOriented: a JavaScript object lists integer-like keys first, in ascending order, so a column named like `2023` comes first in the tool's `columns` object. Here the columns follow the order of `fields`.
- ExecuteQuerySupabase.ColumnOriented: the same integer-like key order of the `columns` object is not modelled; the columns follow the order of `fields`.
- ExecuteQuery.ExecuteQuery: an `undefined` `$SQL_QUERY` is not modelled; the query is a JSON value. In the source such a query drops the `query` key from the failure record's JSON text.
- ExecuteQuerySupabase.ExecuteQuerySupabase: the same holds for an `undefined` `$SQL_QUERY`, which the model cannot represent.
- ExecuteQuery.ColumnsOf: duplicate field names collapse into one key, as JavaScript assignment does. Duplicate keys in JSON text are not modelled.
- DbSchema.SchemaSpec: the text of the thrown message for the fallback parse failure is not modelled (it is `Aborted`).
- DbSchema.SchemaSpec: the SQL text of the three queries, `Number($rdb_port)` and closing the connection are not modelled.
- RouteLabel.NormalizeRoute: `$type` is taken to be a string; `String()` of other types is not modelled.
- RouteLabel.ExtractString: a number or boolean is shown by its JSON text, taken to be what `String()` gives.
- SqlFeedback.WithFeedback: an `undefined` `$SQL_FEEDBACK` is not modelled. Its key would vanish from the JSON text.
- SqlFeedback.WithFeedback: setting a property on an array or primitive leaves the JSON text unchanged and is modelled as no change.
- `get_DB_Schema_supabase.js` and `PubChem_search_compounds.py` are not part of this model.
