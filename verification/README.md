# InsightGenie core in Dafny

InsightGenie is a sales-analytics web application for small retailers. A
Flask backend keeps one SQLite `sales` table per shop, identified by the
owner's phone number. It answers questions through a two-step LLM pipeline:
a planner reply becomes a SQL query, and an answer reply becomes insight
text plus a chart description. It also extracts sales tables from
photographed receipts or PDFs, and serves three dashboard feeds. A React
client shows the inventory table, the dashboard and an OCR upload card.

This project models the deterministic decisions of that system as pure
Dafny functions over immutable datatypes, and proves what they promise.
The modelled parts are:

- **The query planner** (`Columns`, `Sql`, `ChartQuery`, `SpecificQuery`,
  `TimeWindow`). It covers:
  - column resolution against the table schema, ignoring case;
  - the `total_sales` alias;
  - the SELECT / WHERE / GROUP BY / ORDER BY / LIMIT assembly of both query
    builders, with the rendered text's `?` placeholders counted against the
    bound parameters;
  - the `time_period` keywords and their date windows, over a proleptic
    Gregorian calendar (`Calendar`).
- **The LLM reply handling** (`AnswerParse`): the greedy `{...}` block, the
  planner's stop messages, the answer's defaults and the speech language.
- **The chart-data route** (`ChartRoute`, `RowSort`): which returned column
  the route sorts by, the pandas sort (NULLs last), and the limit.
- **The OCR pipeline**:
  - `OcrMerge`: the merge of the model's per-image and per-page replies into
    one CSV text;
  - `OcrUpload`: the normalisation of that CSV into the table's five
    columns.
- **Request validation** (`Validation`) in `register`, `login` and
  `add_sale`.
- **The dashboard feeds** (`DashboardData`): the summary defaults, the
  seven-month trend and the inventory pie.
- **The client rules** (`Js`, `UploadData`, `DashboardView`, `OcrCard`):
  - JavaScript truthiness, `ToNumber`, `/` and `<=` on doubles (NaN and the
    infinities included), and the JSON bridge to the backend's values;
  - the inventory table's rows, edits, removals, stock badge and add form;
  - the dashboard's fetch sequence, screens, palette and average order
    value;
  - the OCR card's guards and error-message precedence.

Everything that touches the outside world is a parameter. This covers:

- the schema that `PRAGMA table_info` returns, and whether the database
  file exists;
- query results;
- the LLM's reply texts and `json.loads`;
- `pd.to_datetime` validity and `pd.to_numeric`;
- today's date;
- `JSON.parse`, `String(number)`, `parseInt`, `parseFloat` and
  `Intl.NumberFormat`;
- the outcome of each `fetch`.

Python's `dict.get` on decoded JSON is `Json.PyGet` (a missing key reads
`None`), and `get(k, d)` is `Json.PyGetOr`. Any exception that a route or
function catches becomes that function's failure value.

Two places need a note on the natural reading of the code:

- Row ids `item-sale_date-index` look collision-prone when names contain
  dashes. They never collide: the text after the last dash is the row's
  index (`UploadData.TableRowIdsUnique`).
- The add-item form treats quantity sold as optional and sends 0 when it is
  blank. The `add_sale` route then refuses that body as missing data
  (`UploadData.BlankQuantitySoldRefused`).

## Model

| member | source | states |
|---|---|---|
| Columns.FirstMatch | backend/insight_module.py:138-142 | the index of the first schema column equal to the name ignoring case; none before it matches; `None` exactly when no column matches |
| Columns.ResolveColumn | backend/insight_module.py:117-155 | a column resolves iff the database exists, the request is a non-empty string and some column equals it ignoring case; the result is the first such column, in the schema's own casing |
| Columns.ResolvedColumnNonEmpty | backend/insight_module.py:123-124 | a resolved column has the request's length, so an empty request never resolves to anything |
| Columns.ResolveColumnCaseInsensitive | backend/insight_module.py:140-141 | two requests equal ignoring case resolve to the same column |
| ChartQuery.ChartYAxis | backend/insight_module.py:478-485 | the y column is `total_sales` for the alias (`total_sales`, or `price` summed) without a schema lookup, and the resolved schema column otherwise; a truthy non-string request raises |
| ChartQuery.YExpression | backend/insight_module.py:499-509 | the single y expression always produces the y column's name; it is the sales product exactly for `total_sales`, and a bare column exactly for an aggregation other than sum, count and average |
| ChartQuery.PlanChart | backend/insight_module.py:456-491 | a chart query is planned iff the database exists, the parameters are a dict with a string aggregation, and both axes resolve; x is the resolved x column and y is the y-axis result |
| ChartQuery.SalesAliasSkipsSchema | backend/insight_module.py:481-482 | a requested `total_sales`, in any case, plans the sales product even when the schema has no such column |
| ChartQuery.ChartSqlShape | backend/insight_module.py:494-517 | the closing `.strip()` never changes the chart SQL: for every plan the text starts with `SELECT`, lists x and then the one y expression, groups by x, and ends `ORDER BY` y `DESC LIMIT 10` |
| SpecificQuery.AggregateItems | backend/insight_module.py:199-204 | sum, count and average each add one aggregate of the y column; any other keyword adds nothing |
| SpecificQuery.SelectBranch | backend/insight_module.py:187-213 | the four SELECT branches in order: alias (grouped by x only when x resolved, effective y `total_sales`), aggregate (needs a keyword and both axes), plain (both axes), else `*` with no effective y; every selected name is x or y |
| SpecificQuery.EffectiveYIsSelected | backend/insight_module.py:187-213 | for a known aggregation keyword, the effective y is the result column of the last SELECT entry |
| SpecificQuery.UnknownAggregationDropsY | backend/insight_module.py:197-206 | an unknown aggregation keyword with both axes selects x alone, grouped by x, while the effective y is still y |
| SpecificQuery.OrderClause | backend/insight_module.py:271-276 | there is an ORDER BY iff `sort_by` resolved; it uses the effective y when `sort_by` equals y ignoring case, and `sort_by` otherwise |
| SpecificQuery.LimitClause | backend/insight_module.py:278-279 | LIMIT appears only for a given limit that `int()` converts to a value of at least 0; no limit gives none; a limit `int()` rejects raises |
| SpecificQuery.WhereParts | backend/insight_module.py:265-269 | the time condition comes first, with its parameters; the filter adds one condition and one parameter iff its column resolved and its value is not None; parameters match placeholders |
| SpecificQuery.PlanSpecificQuery | backend/insight_module.py:156-300 | a query is built iff the database exists, the parameters are a dict, aggregation and sort order are strings, the time period does not raise and the limit converts; SELECT and GROUP BY are the SELECT branch of the resolved axes and the lower-cased aggregation; WHERE and its parameters are the time filter followed by the resolved column filter; the parameter count matches the placeholders; the direction is the upper-cased sort order |
| SpecificQuery.ThisMonthQueryWindow | backend/insight_module.py:218-223 | a `this_month` request binds the window as written first: the first of the month, then the day before today's date one month on |
| SpecificQuery.RenderPlaceholders | backend/insight_module.py:269-281 | the rendered text holds one `?` per placeholder its conditions bind, provided no pasted name holds a `?` |
| SpecificQuery.PlannedTextPlaceholders | backend/insight_module.py:265-285 | the SQL text sent to SQLite carries exactly as many `?` as bound parameters, for schemas whose column names hold no `?` |
| Sql.WherePlaceholders | backend/insight_module.py:265-269 | the WHERE text holds exactly as many `?` as its conditions bind: 2 for BETWEEN, 1 for the year and for the filter |
| TimeWindow.ThisMonthAsWrittenOverruns | backend/insight_module.py:221-223 | the `this_month` window as written equals the calendar month only on the 1st; on any other day it ends in the next month |
| TimeWindow.ThisMonthAsWrittenExample | backend/insight_module.py:223 | on 15 January 2025 the `this_month` window as written ends on 14 February |
| TimeWindow.ThisMonthContents | backend/insight_module.py:221-223 | the corrected `this_month` window holds exactly the days of today's month |
| TimeWindow.LastMonthContents | backend/insight_module.py:224-228 | `last_month` holds exactly the days of the previous calendar month |
| TimeWindow.QuarterWindowContents | backend/insight_module.py:232-235 | the window for quarter q runs from month (q-1)*3+1 through the last day of month q*3 of that year |
| TimeWindow.ThisQuarterContents | backend/insight_module.py:229-237 | `this_quarter` holds exactly the days of today's quarter |
| TimeWindow.LastQuarterContents | backend/insight_module.py:238-247 | `last_quarter` holds exactly the days of the quarter before today's |
| TimeWindow.RangeFilter | backend/insight_module.py:251-259 | a bad `a to b` range is ignored and never raises |
| TimeWindow.TimePeriodFilter | backend/insight_module.py:218-263 | a falsy period adds nothing; a condition carries exactly its own number of parameters; only non-string values can raise; a date keyword binds its own window between its first and last day |
| TimeWindow.ThisMonthAsWritten | backend/insight_module.py:221-223 | the `this_month` window as written starts on the first of today's month |
| TimeWindow.KeywordWindow | backend/insight_module.py:221-247 | `this_month` (as written), `last_month`, `this_quarter` and `last_quarter` each name their window, and no other string names one |
| TimeWindow.IntendedKeywordFilter | backend/insight_module.py:221-263 | the intended keyword table differs from the one as written only for `this_month` |
| TimeWindow.YearKeywords | backend/insight_module.py:248-263 | `ytd` filters on today's year as text, and `all_time` adds nothing |
| TimeWindow.TimePeriodRecognised | backend/insight_module.py:221-263 | a string period yields a condition iff it is one of the five keywords or a range whose two dates parse; `all_time`, unknown words and bad ranges add nothing |
| AnswerParse.JsonBlock | backend/insight_module.py:374-376 | a block exists iff some `{` precedes some `}`; it starts with `{` and ends with `}` |
| AnswerParse.JsonBlockOfWrapped | backend/insight_module.py:374-376 | with no `{` before it and no `}` after it, the block is exactly the braces and what lies between them |
| AnswerParse.NoBraceNoBlock | backend/insight_module.py:374-382 | a reply without `{` has no block |
| AnswerParse.ParseAnswer | backend/insight_module.py:371-382 | without a block the whole stripped reply is the answer and the chart is `{"type": "none"}`; a block that parses to an object supplies `insight` and `chart` or their defaults; any other block fails |
| AnswerParse.AnswerDefaults | backend/insight_module.py:378-379 | a parsed `{}` gives "No insight provided." and `{"type": "none"}` |
| AnswerParse.SpeechLanguage | backend/insight_module.py:386 | speech is Nepali iff the lower-cased question mentions the language by either name, and English otherwise |
| AnswerParse.Prefix | backend/insight_module.py:351 | Python's `s[:n]`: the first n characters, or all of them when fewer |
| AnswerParse.PlanFromReply | backend/insight_module.py:308-352 | a missing database stops first, then a reply with no block; a block `json.loads` rejects stops with the first 200 characters of the stripped reply; a parsed non-object raises; a parsed object fetches with its `data_parameters` when they are truthy (missing means `{}`) and otherwise proceeds without data |
| AnswerParse.MissingParametersMeansNoParams | backend/insight_module.py:334-339 | a planner object without `data_parameters` proceeds without data |
| AnswerParse.WrappedPlanFetches | backend/insight_module.py:326-339 | a reply wrapping an object whose `data_parameters` is truthy fetches with exactly those parameters |
| AnswerParse.SpecificDataStatus | backend/insight_module.py:336-347 | records are handed on iff a fetch returned at least one row; no parameters gives `no_params` |
| ChartRoute.MatchColumn | backend/app.py:337-339 | a returned column equal to the name ignoring case, when there is one |
| ChartRoute.SortColumn | backend/app.py:334-349 | the sort column, when there is one, is always a returned column |
| ChartRoute.SortByWins | backend/app.py:334-340 | a `sort_by` matching a returned column picks the first such column |
| ChartRoute.PriceSumSortsByTotal | backend/app.py:334-349 | without a `sort_by`, or with a string `sort_by` that matches no returned column, a `price` y-axis with aggregation exactly `"sum"` sorts by `total_sales` whenever that column came back |
| ChartRoute.OverrideNeedsExactSum | backend/app.py:334-349 | under the same condition, any other aggregation spelling keeps the y-axis match |
| ChartRoute.Ascending | backend/app.py:351 | ascending iff `sort_order` is exactly `"asc"` |
| ChartRoute.LimitRows | backend/app.py:359-365 | the result is always a prefix of the rows; a limit `int()` accepts that is at least 0 keeps that many; anything else keeps all; a list or dict limit raises |
| ChartRoute.LimitKeepsPrefix | backend/app.py:359-363 | a whole limit n keeps exactly the first n rows, or all when fewer |
| ChartRoute.LimitIgnored | backend/app.py:359-365 | a negative limit, or a string that is not an integer, leaves the rows unchanged |
| ChartRoute.ChartData | backend/app.py:318-367 | a missing phone gives 400 before any fetch; an empty frame gives 500 "No data available for charts."; the records returned are drawn from the fetched rows |
| ChartRoute.ChartDataOrder | backend/app.py:351-357 | records come back ordered by the sort column (NULLs last) when one resolves and the column can be ordered, and in the fetched order otherwise |
| RowSort.SortRows | backend/app.py:354-355 | the sort returns exactly the same rows |
| RowSort.SortRowsSorted | backend/app.py:354-355 | when every key of the column is a number or every key is a string, the output is ordered by key in the requested direction, NULLs last, and is a permutation of the input |
| OcrUpload.SourceIndex | backend/app.py:387-396 | the first header whose lower-cased, renamed form is the wanted column; `None` when no header maps to it; the upload uses it only when no second header maps to the same column |
| OcrUpload.DuplicatedMeansTwo | backend/app.py:387-396 | a column is repeated iff two different headers map to it |
| OcrUpload.CanonicalRenames | backend/app.py:387-394 | a header feeds `item` iff it is `item` or `product_name` ignoring case, and feeds `sale_date` iff it is `sale_date` or `date` |
| OcrUpload.CanonicalIgnoresCase | backend/app.py:387 | header case never matters |
| OcrUpload.ItemString | backend/app.py:407 | an added column reads "None" and an empty cell reads "nan" |
| OcrUpload.NumberOf | backend/app.py:408-410 | an absent or empty number cell reads 0 |
| OcrUpload.DateOf | backend/app.py:413 | a kept date is the parsed date written `YYYY-MM-DD` |
| OcrUpload.CleanRow | backend/app.py:398-417 | a row is kept iff its sale date parses; the kept row carries the item as text, the price, and the two quantities truncated to integers |
| OcrUpload.CleanRows | backend/app.py:405-418 | the cleaned rows are cleaned input rows, no more than there were |
| OcrUpload.CleanRowsAllKept | backend/app.py:416-418 | when every date parses, every row is kept, in order |
| OcrUpload.CleanRowsNoneKept | backend/app.py:416-422 | when no date parses, no row is kept |
| OcrUpload.CleanRowsCons | backend/app.py:405-418 | a first row is kept in front of the rest's records exactly when its date parses |
| OcrUpload.CleanRowsAppend | backend/app.py:405-418 | cleaning distributes over concatenation of the rows, so the kept records keep the input order |
| OcrUpload.CleanRowsSingle | backend/app.py:398-418 | a single row gives its cleaned record when its date parses and nothing otherwise |
| OcrUpload.CleanRowsEmpty | backend/app.py:416-421 | no record survives iff no row's date parses |
| OcrUpload.ItemNeverMissing | backend/app.py:407-417 | the item never decides whether a row is kept: blank and absent items are kept as "nan" and "None" |
| OcrUpload.UploadOcrData | backend/app.py:369-451 | a missing phone and then missing CSV give 400; two headers mapping to the price, a quantity or the date give 500; otherwise no surviving row gives 400 iff no date parses; with surviving rows the upload is stored iff `item` is not repeated, and gives 500 otherwise; a stored upload reports its own record count |
| OcrUpload.RepeatedColumnFails | backend/app.py:387-408 | two headers naming the same numeric or date column make the upload fail with 500, whatever the rows hold |
| Validation.FirstMissing | backend/app.py:147 | the first falsy field in the listed order, and none exactly when all are truthy |
| Validation.Register | backend/app.py:133-148 | registration proceeds iff phone, username, password, business type and address are all truthy; otherwise 400 "Missing required fields" |
| Validation.RegisterIgnoresOptional | backend/app.py:140-147 | business name, website and GST number never decide the outcome |
| Validation.Login | backend/app.py:186-210 | a falsy body gives 400 "Invalid JSON payload"; a truthy non-object gives 500; otherwise login proceeds iff phone and password are truthy; login never crashes |
| Validation.EmptyLoginBody | backend/app.py:189-191 | `{}` is refused as an invalid payload, not as missing fields |
| Validation.AddSale | backend/app.py:213-225 | a sale proceeds iff all six fields are truthy; otherwise 400 "Missing sale data" |
| Validation.ZeroQuantityRefused | backend/app.py:224-225 | a sale of zero units is refused as missing data |
| OcrMerge.ImageReplies | backend/ocr_module.py:67-79 | at most one reply per image, each from one of the images |
| OcrMerge.ImageRepliesAppend | backend/ocr_module.py:67-79 | the image replies distribute over concatenation, so they keep the upload order |
| OcrMerge.ImageRepliesSingle | backend/ocr_module.py:68-76 | one image gives its reply exactly when it has a name and opens |
| OcrMerge.PageReplies | backend/ocr_module.py:115-126 | at most one reply per page |
| OcrMerge.PageRepliesAppend | backend/ocr_module.py:115-126 | the page replies distribute over concatenation, so they keep the page order |
| OcrMerge.PageRepliesSingle | backend/ocr_module.py:117-125 | one page gives its reply exactly when it renders |
| OcrMerge.Replies | backend/ocr_module.py:63-126 | without an opened, named PDF only the images reach the model; with one, the image replies come first and the page replies follow |
| OcrMerge.SkippedImageContributesNothing | backend/ocr_module.py:68-76 | an image with an empty name, or one that does not open, leaves the replies as if it were absent |
| OcrMerge.CleanLines | backend/ocr_module.py:83 | the kept lines are trimmed and non-blank, no more than there were |
| OcrMerge.CleanLinesAppend | backend/ocr_module.py:83 | line cleaning distributes over concatenation, so kept lines keep their order |
| OcrMerge.CleanLinesSingle | backend/ocr_module.py:83 | one line is kept, stripped, exactly when it is not blank |
| OcrMerge.ReplyLines | backend/ocr_module.py:80-83 | every line of a reply is non-blank and holds no line break |
| OcrMerge.FirstHeader | backend/ocr_module.py:93-95 | a header exists iff some reply has at least two lines; it is the first line of the first such reply |
| OcrMerge.FoldComputes | backend/ocr_module.py:86-101 | the loop keeps its header, or else takes the first one offered, and appends the data lines of every reply with at least two lines, in order |
| OcrMerge.LaterHeaderDiscarded | backend/ocr_module.py:96-101 | a later reply's first line is dropped whatever it says, and all its data lines are added |
| OcrMerge.Finish | backend/ocr_module.py:157-165 | CSV is produced iff there is a header and at least one row; it is the header and the rows joined by newlines |
| OcrMerge.Extract | backend/ocr_module.py:57-176 | extraction fails iff the model fails on some reply; the CSV is the first header plus every data line, images before pages |
| OcrMerge.CsvLinesRoundTrip | backend/ocr_module.py:162-165 | splitting the CSV into lines gives back the header and the rows: the header appears once and there is no trailing newline |
| DashboardData.OrZero | backend/dashboard_data_module.py:34 | NULL reads as zero and any value is kept |
| DashboardData.OrZeroInt | backend/dashboard_data_module.py:40 | NULL reads as zero and any count is kept |
| DashboardData.Summary | backend/dashboard_data_module.py:12-80 | with no database, every figure is zero and the top seller is "N/A"; a SQLite error gives `{}`; otherwise exactly the six keys, each figure its query's value with NULL read as zero, customer growth 0, and the top item or "N/A" |
| DashboardData.EmptyTableSummary | backend/dashboard_data_module.py:32-60 | an empty sales table gives the same summary as a missing database |
| DashboardData.TrendKeysAsWritten | backend/dashboard_data_module.py:114-118 | seven keys as written, the last being today's month |
| DashboardData.TrendKeysAsWrittenRepeat | backend/dashboard_data_module.py:115-117 | on the 31st of a month, the last two keys as written are the same month |
| DashboardData.TrendKeysAsWrittenExample | backend/dashboard_data_module.py:115-117 | on 31 March 2025 the last two keys as written are both "2025-03" |
| DashboardData.TrendKeys | backend/dashboard_data_module.py:114-118 | the corrected keys are always seven |
| DashboardData.AddDaysWithinMonth | backend/dashboard_data_module.py:116 | stepping back fewer days than the day of the month stays in the month |
| DashboardData.TrendKeysConsecutive | backend/dashboard_data_module.py:114-118 | corrected key i names the month 6-i months before today's |
| DashboardData.TrendKeysDistinct | backend/dashboard_data_module.py:114-118 | the corrected keys never repeat |
| DashboardData.TrendKeysWellFormed | backend/dashboard_data_module.py:117 | every corrected key has a month from 1 to 12 |
| DashboardData.TrendKeysAsWrittenWellFormed | backend/dashboard_data_module.py:114-118 | every key as written has a month from 1 to 12 |
| DashboardData.TrendPoints | backend/dashboard_data_module.py:121-138 | one point per key, in key order, named after its month; a month missing from the query reads 0, and a present one reads its sum |
| DashboardData.SalesTrend | backend/dashboard_data_module.py:85-147 | no database or a SQLite error gives []; otherwise exactly seven points |
| DashboardData.SalesTrendPoint | backend/dashboard_data_module.py:114-138 | point i is named after the month of the date 30*(6-i) days before today, with that month's sum or 0, and a target 10% above it |
| DashboardData.SalesTrendRepeatsMonth | backend/dashboard_data_module.py:114-138 | on the 31st of a month the last two points are the same month with the same sum |
| DashboardData.SalesTrendIntended | backend/dashboard_data_module.py:85-147 | the intended trend: no database or a SQLite error gives []; otherwise seven points |
| DashboardData.SalesTrendIntendedPoint | backend/dashboard_data_module.py:114-138 | intended point i is named after the month 6-i months before today's, with that month's sum or 0 |
| DashboardData.Slice | backend/dashboard_data_module.py:175 | a slice has exactly the keys `name` and `value`, carrying the item and its stock |
| DashboardData.Inventory | backend/dashboard_data_module.py:152-184 | no database or a SQLite error gives []; otherwise at most five slices, in the query's order |
| DashboardData.InventoryRenamed | backend/dashboard_data_module.py:175 | no slice keeps the source columns `item` and `total_stock` |
| Js.Or | client/src/components/OCRUploadCard.jsx:57 | `a \|\| b`: a when truthy, otherwise b |
| Js.Get | client/src/pages/Dashboard.jsx:315 | a missing property reads `undefined` |
| Js.Prop | client/src/components/OCRUploadCard.jsx:67 | reading a property throws exactly on `null` and `undefined` |
| Js.ToText | client/src/components/OCRUploadCard.jsx:61 | a string is its own text, and `null` and `undefined` print as their names |
| Js.ToNumber | client/src/pages/Dashboard.jsx:315 | a number is itself, `null` is 0 and `undefined` is NaN |
| Js.Divide | client/src/pages/Dashboard.jsx:315 | finite division by a non-zero number is exact; NaN propagates; 0/0 is NaN |
| Js.Double | client/src/pages/UploadData.jsx:473 | doubling a finite number doubles it; NaN and infinities stay |
| Js.FromJson | client/src/pages/Dashboard.jsx:42 | arrays keep their length and objects keep their keys |
| Js.ToJson | client/src/pages/UploadData.jsx:114 | only `undefined` has no JSON form |
| Js.JsonRoundTrip | client/src/pages/Dashboard.jsx:42 | a backend value read by the client and sent back arrives unchanged |
| Js.TruthyFromJson | client/src/pages/Dashboard.jsx:126 | truthiness agrees across the bridge, except that empty arrays and objects are true in JavaScript |
| UploadData.TableRow | client/src/pages/UploadData.jsx:59-67 | a row has exactly the seven table keys, copies date, name, stock and sales from the record, and has reorder level 5 |
| UploadData.TableRows | client/src/pages/UploadData.jsx:56-67 | the mapping succeeds iff the body is an array without `null` records; rows correspond one to one and in order |
| UploadData.AfterLastDash | client/src/pages/UploadData.jsx:60 | the text after the last dash holds no dash |
| UploadData.AfterLastDashOf | client/src/pages/UploadData.jsx:60 | a text ending in a dash and a dash-free part yields that part |
| UploadData.NoDashInNumber | client/src/pages/UploadData.jsx:60 | an index written in decimal holds no dash |
| UploadData.TableRowIdsUnique | client/src/pages/UploadData.jsx:60 | two different rows never share an id, whatever dashes names or dates hold |
| UploadData.FetchRecentSales | client/src/pages/UploadData.jsx:34-75 | a missing phone sets its message and sends nothing; the table is replaced iff the fetch succeeds and maps; any failure keeps the old table with one message; loading always ends false |
| UploadData.InputChange | client/src/pages/UploadData.jsx:83-89 | the table keeps its length |
| UploadData.InputChangeOnlyField | client/src/pages/UploadData.jsx:83-89 | only the named field of rows with the id changes, to the value typed; every other field and row is unchanged |
| UploadData.InputChangeIdempotent | client/src/pages/UploadData.jsx:86 | typing the same value twice is the same as typing it once |
| UploadData.Without | client/src/pages/UploadData.jsx:175 | the rows kept are exactly those without the id |
| UploadData.RemoveItem | client/src/pages/UploadData.jsx:144-178 | exactly the rows without the id remain; an unknown id leaves the table unchanged |
| UploadData.WithoutNothing | client/src/pages/UploadData.jsx:150-154 | filtering out an id no row carries changes nothing |
| UploadData.RemoveItemKeepsOrder | client/src/pages/UploadData.jsx:175 | removal distributes over concatenation, so the order of what remains is kept |
| UploadData.RemoveItemSingle | client/src/pages/UploadData.jsx:175 | a single row is dropped exactly when it carries the id |
| UploadData.RowClassMatchesBadge | client/src/pages/UploadData.jsx:406 | a row has class `low-stock` iff its badge reads Low Stock |
| UploadData.StockStatusLevels | client/src/pages/UploadData.jsx:471-476 | with numeric cells: Low iff stock is at most the reorder level, Medium iff it is above that but at most twice it, In Stock otherwise |
| UploadData.StockStatusAgrees | client/src/pages/UploadData.jsx:471-476 | unless both cells hold text, the badge as written is the intended one |
| UploadData.LoadedRowStatus | client/src/pages/UploadData.jsx:66 | a freshly loaded row shows the intended badge |
| UploadData.EditedRowStatus | client/src/pages/UploadData.jsx:436-476 | editing stock to "10" and the reorder level to "5" shows Low Stock as written, against Medium Stock as intended |
| UploadData.AddNewItem | client/src/pages/UploadData.jsx:97-108 | nothing is sent unless name, price, stock and date are all filled; the request carries the six sale fields, with quantity sold 0 when it does not parse |
| UploadData.BlankQuantitySoldRefused | client/src/pages/UploadData.jsx:106 | a blank quantity sold is sent as 0, which `add_sale` refuses as missing data |
| DashboardView.FetchDashboard | client/src/pages/Dashboard.jsx:26-70 | a missing phone sends nothing; the feeds are fetched in order and the first failure stops the rest and clears the data; data is set iff all three succeed; loading always ends false |
| DashboardView.FailureClearsData | client/src/pages/Dashboard.jsx:41-66 | a failed summary sends one request and leaves no data |
| DashboardView.ScreenOf | client/src/pages/Dashboard.jsx:106-284 | the spinner iff loading, then the error iff it is non-empty, then the no-data screen iff the test holds, then the render crash iff `totalOrders.toLocaleString()` or `inventory.map` throws |
| DashboardView.ScreenAsWritten | client/src/pages/Dashboard.jsx:106-126 | with no error showing, the no-data screen as written appears iff some feed is falsy; the render crashes iff the feeds pass that test but `summary.totalOrders` is `undefined` or `null` or the inventory is not an array |
| DashboardView.ScreenShown | client/src/pages/Dashboard.jsx:126 | with no error showing, the intended no-data screen appears iff some feed is empty; the full dashboard only over three non-empty feeds it can render |
| DashboardView.NoDataAgrees | client/src/pages/Dashboard.jsx:126 | the two guards differ only on empty arrays and objects |
| DashboardView.NoDatabaseDashboard | client/src/pages/Dashboard.jsx:126 | without a database the page as written shows the full dashboard over empty feeds; the corrected guard shows the no-data screen |
| DashboardView.DatabaseErrorDashboard | client/src/pages/Dashboard.jsx:126-203 | when SQLite raises, the summary `{}` passes the guard as written and the render throws; the intended guard shows the no-data screen |
| DashboardView.SliceColor | client/src/pages/Dashboard.jsx:286 | every slice gets a palette colour |
| DashboardView.SliceColorCycles | client/src/pages/Dashboard.jsx:286 | the palette repeats every eight slices |
| DashboardView.ColorsDistinct | client/src/pages/Dashboard.jsx:23 | the eight palette colours are distinct |
| DashboardView.SliceColorsDistinct | client/src/pages/Dashboard.jsx:285-287 | any eight consecutive slices have distinct colours |
| DashboardView.InventoryPieDistinct | client/src/pages/Dashboard.jsx:285-287 | no two slices of the inventory pie share a colour |
| DashboardView.AverageOrder | client/src/pages/Dashboard.jsx:315 | with falsy orders, the average is the sales total itself |
| DashboardView.AverageOfBackendSummary | client/src/pages/Dashboard.jsx:315 | for a backend summary, the average is sales per order, or the sales total when there are no orders |
| DashboardView.AverageOfEmptySummary | client/src/pages/Dashboard.jsx:315 | an empty summary object gives NaN, a value the page never reaches because its render throws first |
| DashboardView.FormatCurrency | client/src/pages/Dashboard.jsx:96-104 | anything that is not a number reads "₹0"; numbers are formatted |
| DashboardView.AverageCardFormatted | client/src/pages/Dashboard.jsx:98 | the average card's value is always formatted, never replaced by "₹0" |
| OcrCard.Shown | client/src/components/OCRUploadCard.jsx:78 | a non-empty message is shown, and the fallback otherwise |
| OcrCard.ServerError | client/src/components/OCRUploadCard.jsx:52-61 | the JSON `error` comes first, then `message`, then "Server error: status text"; a body that is not JSON shows its text, or that default when empty |
| OcrCard.ErrorFieldWins | client/src/components/OCRUploadCard.jsx:57 | a non-empty `error` string wins over everything else |
| OcrCard.EmptyBodyShowsStatus | client/src/components/OCRUploadCard.jsx:54-59 | an empty non-JSON body shows the status line |
| OcrCard.Submit | client/src/components/OCRUploadCard.jsx:18-82 | nothing is sent without files; both busy flags end false; the error is cleared iff the reply is OK JSON with status "success" and truthy CSV, which is then stored; otherwise the CSV stays cleared |
| OcrCard.MissingCsvMessage | client/src/components/OCRUploadCard.jsx:67-72 | a JSON reply without CSV and without `error` shows the fixed no-CSV message |
| OcrCard.UploadToDb | client/src/components/OCRUploadCard.jsx:99-149 | missing CSV is refused first, then a missing phone, with nothing sent; the request carries the phone and the CSV; the card closes iff the reply is OK with status "success"; otherwise an error is shown |
| OcrCard.UploadRefusalShown | client/src/components/OCRUploadCard.jsx:124-134 | the upload route's 400 messages reach the card word for word |
| OcrCard.UploadRequestReadBack | client/src/components/OCRUploadCard.jsx:118-121 | the upload route reads back exactly the phone and the CSV the card sent |

## Left out

- SQL execution (SQLite, `read_sql_query`, `to_sql`, the master-database sync) is not modelled. The schema, query results and "did SQLite raise" are inputs. The query is modelled as built.
- The trend query's `sale_date >= start_date` filter and its monthly grouping are part of the SQL; the grouped sums are an input.
- The Gemini calls, gTTS audio, base64 encoding, and PIL/PyMuPDF rasterisation are foreign services. Reply texts and whether a file opens are inputs. The API-error branches of the insight pipeline are not modelled.
- `pd.to_datetime`, `pd.to_numeric`, `read_csv`, `json.loads`, `JSON.parse`, `parseInt`, `parseFloat`, `Intl.NumberFormat` and JavaScript's numeric-string grammar are parameters.
- Floating-point rounding is not modelled: numbers are reals. This affects price-times-quantity sums, the `1.1` target (exact 11/10 here), `int()` truncation of whole floats, and the NaN/infinity arithmetic beyond `/`, `*2` and `<=`.
- Signed zero is not modelled.
- Unicode case folding is ASCII-only. Python compares strings by code point while JavaScript compares by UTF-16 code unit, so the two differ outside the Basic Multilingual Plane.
- Clocks and time zones are not modelled. Today's date is a parameter.
- Password hashing, the duplicate-user check and the auth/vendor blueprints are database wrappers and are not modelled.
- `recent_sales_module.py` is a single SQL query and is not modelled.
- The `upload_icr_csv` and `insights` routes are thin wrappers and are not modelled.
- These client parts are not modelled: the upload-progress timer, FileReader previews, Blob downloads, alerts, navigation, and pure UI/routing files.
- `Insights.jsx` and `Suggestions.jsx` only fetch and display one field, and are not modelled.
- UploadData.AddNewItem: the `newId` it computes is never used, so it is not modelled.
- UploadData.FetchRecentSales: the backend's `{"message": ...}` answer for an empty table is not an array, so the mapping throws. This lands in the failure branch, as the model states.
- OcrMerge.Extract: exceptions other than a failed model reply (the catch-all 500) are not modelled.
- OcrMerge.ImageReplies: its own contract only bounds the replies and traces each to an image. Which images contribute, and in what order, is stated by ImageRepliesAppend and ImageRepliesSingle, which together determine the result.
- OcrMerge.PageReplies: its own contract is a length bound. PageRepliesAppend and PageRepliesSingle determine the result.
- OcrMerge.CleanLines: its own contract says the kept lines are trimmed and non-blank. CleanLinesAppend and CleanLinesSingle determine which lines are kept, and in what order.
- OcrUpload.CleanRows: its own contract bounds the records and traces each to an input row. CleanRowsAppend, CleanRowsSingle and CleanRowsEmpty determine which rows are kept, and in what order.
- OcrUpload.UploadOcrData: a repeated `item` column fails because the master-table sync binds a pair of values as one parameter; rows already written to the user's own table before that are not modelled.
- DashboardView.ScreenOf: a sales-trend feed that is not an array is handed to the chart library, whose behaviour is not modelled.
- ChartRoute.SortColumn: it states only that the chosen column was returned. The lemmas SortByWins, PriceSumSortsByTotal and OverrideNeedsExactSum state which column it is.
- DashboardView.AverageOrder: its contract covers only the falsy-orders case. AverageOfBackendSummary and AverageOfEmptySummary state the rest for the summaries the backend sends.

## Findings

| source | as written | input that shows it | evidently intended | confidence | as-written member | corrected member |
|---|---|---|---|---|---|---|
| backend/insight_module.py:221-223 | `this_month` ends at today + 1 month - 1 day | today 2025-01-15: the window is 2025-01-01 to 2025-02-14 | the whole current calendar month | high, not executed | TimeWindow.ThisMonthAsWritten | TimeWindow.ThisMonth |
| backend/dashboard_data_module.py:114-118 | trend months are today minus multiples of 30 days | today 2025-03-31: the last two keys are both "2025-03", and February is missing | the current month and the six before it | high, not executed | DashboardData.TrendKeysAsWritten | DashboardData.TrendKeys |
| client/src/pages/UploadData.jsx:471-476 | the badge compares the stock and reorder cells with `<=`, which compares text once both are edited | stock edited to "10" and reorder level to "5" shows Low Stock | a numeric comparison, giving Medium Stock | high, not executed | UploadData.StockStatusAsWritten | UploadData.StockStatus |
| client/src/pages/Dashboard.jsx:126 | the no-data guard tests only falsiness, and JavaScript arrays are truthy | no database: the feeds are a zero summary, `[]` and `[]`, and the full dashboard is shown | empty feeds show the no-data screen | medium, not executed | DashboardView.ScreenAsWritten | DashboardView.ScreenShown |
| client/src/pages/Dashboard.jsx:126-203 | a `{}` summary is truthy, passes the guard, and `summary.totalOrders.toLocaleString()` throws | SQLite raises: the summary is `{}`, the other feeds `[]` | the no-data screen | medium, not executed | DashboardView.ScreenAsWritten | DashboardView.ScreenShown |

The witnesses are `TimeWindow.ThisMonthAsWrittenOverruns` and
`ThisMonthAsWrittenExample`, `DashboardData.TrendKeysAsWrittenRepeat`,
`TrendKeysAsWrittenExample` and `SalesTrendRepeatsMonth`,
`UploadData.EditedRowStatus`, and `DashboardView.NoDatabaseDashboard` and
`DatabaseErrorDashboard`. The operations themselves follow the code as
written, and each corrected definition sits beside them:

- `TimeWindow.KeywordFilter` binds `ThisMonthAsWritten`, so
  `SpecificQuery.PlanSpecificQuery` does too (`ThisMonthQueryWindow`).
  `IntendedKeywordFilter` binds `ThisMonth`.
- `DashboardData.SalesTrend` uses `TrendKeysAsWritten`, and
  `SalesTrendIntended` uses `TrendKeys`.
- The proved intended properties are `ThisMonthContents`,
  `TrendKeysConsecutive`, `TrendKeysDistinct`, `SalesTrendIntendedPoint`,
  `StockStatusLevels` and `NoDataAgrees`.
