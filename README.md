# Nutrition diary: a Dafny model of its entry store, import and reports

The application is a small Flask site for a food diary. Most of `app.py` is glue to the
web framework, the database layer and the charting libraries. This project models the
rules inside that glue:

- the upload-name check (`allowed_file`);
- the CSV import: a header check, a loop that turns each row into an entry or skips it,
  and one commit at the end;
- the diary's entry store: add one entry, delete one by id (404 when the id is absent),
  list all entries with the newest date first;
- the dashboard and reports aggregations: per-date sums, the "latest 7 dates, then
  reversed" window, the stacked-bar offsets, the top-5 foods, and the global totals and
  average together with their empty-store defaults.

Modules, one per component:

- `Seqs` (seqs.dfy) holds sequence helpers: Python's `[::-1]` as `Reverse`, and sums of reals.
- `Models` (models.dfy) holds the `FoodEntry` record (the columns of `FoodEntry` in
  models.py:13-22) and `Date` with its chronological order. It also holds `ToEntry`, the
  conversion of a form or CSV row into an entry. The diary form and the import build
  entries the same way.
- `Upload` (upload.dfy) is `allowed_file`.
- `Aggregation` (aggregation.dfy) holds SUM, AVG, `or 0`, and GROUP BY date in both orders.
- `Series` (series.dfy) holds the seven-date window, the five aligned lists and the bar
  offsets.
- `Ranking` (ranking.dfy) holds the food-popularity query.
- `Views` (views.dfy) gives the data the `dashboard` and `reports` routes pass to their
  charts.
- `Store` (store.dfy) has the class `EntryStore`. It holds the committed rows and a source
  of fresh ids. The diary routes are methods on it.
- `Import` (import.dfy) has the header check, the row loop `ImportRows` and the whole
  route `ImportData`.

Measures are exact `real`s. Dates are (year, month, day) triples ordered as Python orders
dates. `strptime` and `float()` are parameters of type `string -> Option<...>`, and `None`
stands for the exception they raise. Reading the uploaded file is likewise an input: an
`Option<Table>`, where `None` means `read_csv` raised.

Three behaviours of the code that one might expect to be otherwise:

- For ties in the top-foods query, the code leaves the order to the SQL engine. It does
  not promise first-occurrence order. So the property is stated as the relation
  `IsTopFoods`, which fixes no order among equal counts. The concrete `TopFoods` lists
  tied names in first-seen order; `Ranking.SortByCountStable` proves the sort stable, and
  `Ranking.FirstSeenOrder` proves that its input is in first-seen order.
- The import does not commit each row by itself. The loop adds every converted row to
  the session, and one `commit` follows the loop (app.py:225-231). The model collects the
  pending entries and adds them with one `AddAll`.
- A malformed diary form is not reported as a validation message. A missing field is a
  400 error and a value that does not parse is an unhandled exception. Either way nothing
  is written, and the model returns `Invalid`.

## Model

| member | source | states |
|---|---|---|
| `Models.ToEntry` | app.py:216-224 | a row or form converts exactly when all six fields are present, the date parses and the four numbers parse; the entry then holds those parsed values and the food name unchanged, and is owned by user 1 |
| `Upload.Extension` | app.py:246 | the text after the last dot contains no dot, and the name is everything before it, then '.', then that text (`rsplit('.', 1)[1]`) |
| `Upload.AllowedFile` | app.py:245-246 | `allowed_file`; its meaning is stated by `Upload.AllowedFileIff` and the two example lemmas |
| `Upload.AllowedFileIff` | app.py:245-246 | a name is accepted exactly when it ends in '.' followed by three characters that lower-case to "csv" |
| `Upload.AcceptedExamples` | app.py:245-246 | `a.CSV` and `.csv` are accepted |
| `Upload.RejectedExamples` | app.py:245-246 | `csv`, `a.` and `a.csv.txt` are rejected |
| `Aggregation.Sum` | app.py:139-141 | SQL `SUM` over all entries; `Aggregation.Total` and `Aggregation.GroupSumsPartition` state what it adds up to |
| `Aggregation.SumOn` | app.py:74-79 | SQL `SUM` within one date group; `Aggregation.GroupByDate` states that each row holds these sums, and `Aggregation.GroupSumsPartition` that they add up to `Sum` |
| `Aggregation.Average` | app.py:71 | AVG is NULL exactly for no entries; otherwise the average times the count is the sum |
| `Aggregation.DisplayedAverage` | app.py:131 | the shown average is 0 for an empty store and sum / count otherwise |
| `Aggregation.SumOfValues` | app.py:139-141 | the recursive `Sum` of a measure equals the sum of the column of that measure, one value per entry |
| `Aggregation.SqlSum` | app.py:139 | SUM is NULL exactly when there are no rows; otherwise it is the sum of the column's values, one per entry |
| `Aggregation.Total` | app.py:139-141 | `SUM(...) or 0` equals the sum of the measure, which is 0 for an empty store |
| `Aggregation.SortedDates` | app.py:80 | the distinct dates of the entries, strictly ascending, and no other dates |
| `Aggregation.GroupByDate` | app.py:74-80 | grouped rows are strictly ordered by date in the requested direction; each date of the entries has a row and each row's date is one of them; each row holds its date's four sums |
| `Aggregation.GroupCount` | app.py:74-80 | there is one grouped row per distinct date |
| `Aggregation.GroupSumsPartition` | app.py:154-157 | in either order, the per-date sums of a measure add up to that measure's global sum |
| `Series.LastWeek` | app.py:74-80 | the descending, seven-row grouped query; `Series.LastWeekReversed` states which groups it returns |
| `Series.WeekSeriesOf` | app.py:83-87 | the five reversed dashboard lists; `Series.WeekSeriesShape` states their length, order and alignment |
| `Series.LastWeekReversed` | app.py:80-87 | the seven most recent groups, reversed, are the last min(7, #dates) groups of the chronological list |
| `Series.WeekSeriesShape` | app.py:83-87 | the five dashboard lists have length min(7, #dates); dates strictly ascend and are dates of the entries; every date left out is older than every date shown; index i of each list is the sum for the date at index i |
| `Series.ZipAdd` | app.py:104 | the zip-sum has the shorter length, and element i is a[i] + b[i] |
| `Series.BarBottomsOf` | app.py:102-104 | the stacked bars' bottoms; `Series.ZipAdd` and `Series.BarBottomsPerDate` state what they are for each date |
| `Series.BarBottomsPerDate` | app.py:102-104 | for each shown date, the carbs bar starts at that date's protein and the fat bar at that date's protein plus carbs |
| `Series.BarBottomsExample` | app.py:102-104 | protein 10, carbs 20, fat 5 give offsets 10 and 30 |
| `Ranking.OccurrencesPositive` | app.py:117 | a name has a positive count exactly when some entry carries it |
| `Ranking.FirstSeenNames` | app.py:118 | the GROUP BY food_name keys: each name of the entries once, and no other |
| `Ranking.FirstSeenOrder` | app.py:118 | the GROUP BY keys come in order of first appearance: before any entry with a later key, some entry carries each earlier key |
| `Ranking.SortByCount` | app.py:118 | ORDER BY count DESC gives a permutation of the same rows (equal multisets), with counts non-increasing; distinct names stay distinct |
| `Ranking.InsertByCountStable` | app.py:118 | inserting a row puts it after every row of the same count, so the rows of each count keep their order |
| `Ranking.SortByCountStable` | app.py:118 | the sort is stable: for each count, the rows with that count appear in the same order as in the input |
| `Ranking.TopFoodsRanked` | app.py:115-121 | the ranking has min(5, #names) rows with distinct names of the entries; each count is that name's number of entries; counts do not increase; no unlisted name has a higher count than a listed one |
| `Ranking.TopFoods` | app.py:115-121 | the top-five query; `Ranking.TopFoodsRanked` states that it is a top-five ranking |
| `Views.DashboardOf` | app.py:67-134 | the values the dashboard shows; `Views.DashboardAverage`, `Views.DashboardRanking`, `Views.EmptyDashboard` and `Series.WeekSeriesShape` state them |
| `Views.DashboardAverage` | app.py:70-71 | the dashboard shows the entry count, and an average that is 0 for no entries and sum / count otherwise |
| `Views.DashboardRanking` | app.py:115-121 | the dashboard's food pie is a top-five ranking |
| `Views.EmptyDashboard` | app.py:129-134 | an empty store shows count 0, average 0, empty dates, calorie, protein, carbs and fat lists, empty bar offsets and an empty ranking |
| `Views.ReportsSeries` | app.py:154-174 | the reports series keep every date, strictly ascending and uncapped, each with its calorie sum; the daily sums add up to the calorie total; the histogram gets each entry's calories |
| `Views.ReportsOf` | app.py:136-183 | the values the reports page shows; `Views.ReportsSeries` and `Views.ReportsTotals` state them |
| `Views.ReportsTotals` | app.py:139-145 | the pie's protein, carbs and fat totals are the global sums (0 for an empty store) and equal the sums of the per-date groups |
| `Store.IndexOfId` | app.py:61 | the lookup finds a row with the id, or reports -1 exactly when no row has it |
| `Store.SortNewestFirst` | app.py:56 | the listing is a permutation of the rows in which no entry is older than a later one |
| `Store.RemoveAt` | app.py:62 | removing the row found for an id keeps ids unique and removes exactly the rows with that id |
| `Store.EntryStore.Add` | app.py:50-51 | one entry is appended under an id no row had |
| `Store.EntryStore.AddAll` | app.py:225-231 | the commit appends the pending entries in order; the old rows are untouched |
| `Store.EntryStore.Delete` | app.py:59-63 | an absent id gives NotFound and no change; otherwise exactly the row with that id is removed, and the others keep their order |
| `Store.EntryStore.Listing` | app.py:55-57 | the diary listing holds each stored row once, newest date first |
| `Store.EntryStore.DiaryPost` | app.py:32-53 | a valid form adds exactly one entry, holding the parsed values and owned by user 1, under a fresh id; an invalid form changes nothing |
| `Import.HasRequiredColumns` | app.py:207-208 | every required column name occurs among the columns; `Import.HeaderCheckOnNames` and `Import.ImportRows` state its use |
| `Import.Converted` | app.py:213-229 | the entries the import loop builds, in file order; `Import.ConvertedAppend`, `Import.FailingRowSkipped`, `Import.ConvertedCount` and `Import.ConvertedOwner` state what it holds |
| `Import.HeaderCheckOnNames` | app.py:207-208 | the header check depends only on which required names occur, not on order or extra columns |
| `Import.ConvertedAppend` | app.py:214-229 | the entries of concatenated rows are the concatenated entries, so file order is kept |
| `Import.FailingRowSkipped` | app.py:227-229 | a row that fails to convert adds nothing and does not stop the rows after it |
| `Import.ConvertedCount` | app.py:213-226 | the number of imported entries equals the number of rows that convert, so it is at most the row count |
| `Import.ConvertedOwner` | app.py:223 | every imported entry is owned by user 1 |
| `Import.GoodAndBadRow` | app.py:214-229 | an Apple row and a bad-date row import exactly the Apple entry |
| `Import.ImportRows` | app.py:207-229 | a missing required column aborts before any row; otherwise the loop's pending entries are the converted rows in file order, and the counter is their number |
| `Import.ImportData` | app.py:198-241 | a wrong file type, an unreadable file or a missing column leaves the store unchanged; otherwise the store gains exactly the converted rows, and the reported count is their number |

## Left out

- Flask routing, templates, `flash` and `redirect`: these are presentation.
- The `'file' not in request.files` and empty-filename checks, `secure_filename` and `file.save`: these are HTTP and file-system I/O. `AllowedFile("")` is false, so an empty name is still refused, but under the file-type outcome rather than its own message.
- The `print` of the exception for a row that fails to convert (app.py:228): this is console output. The model keeps only the effect that matters: the row is skipped.
- `pd.read_csv`: it is a foreign call, so its result is an input to `ImportData`. How pandas types the cells, and how NaN cells pass through `float()`, are not modelled.
- The internals of `datetime.strptime` and `float()`: these are foreign code and are parameters of the model.
- All matplotlib and seaborn drawing, the 15-bin histogram and its density curve, and `get_plot_url` (PNG and base64 encoding): these are rendering by libraries.
- `strftime('%Y-%m-%d')` of the chart labels: the series keep `Date` values.
- `round(avg, 2)` and all floating-point rounding of sums and averages: measures are exact reals.
- SQLite transactions and commit failures (app.py:51, 63, 231, 235-237): these are storage failures.
- `Store.EntryStore.Add`: promises only that the new id is fresh. It does not model how SQLite picks a rowid, which can reuse a deleted maximum id.
- `Store.EntryStore.DiaryPost`: does not tell the 400 error of a missing form field from the 500 error raised by a value that does not parse. Both are `Invalid`.
- `Ranking.TopFoodsRanked`: says nothing about the order of foods with equal counts. The SQL engine decides that order.
- Database uniqueness of `User.username` and `User.email` (models.py:5-11): no code exercises it.
