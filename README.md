# Agricultural production export core, modelled in Dafny

This project models the computational core of a small agricultural-production tracker. The
tracker stores production records (product name, quantity, sale and cost price, planting and
harvest dates, lifecycle status) in an Oracle table. Three exporters and two query builders
work on those records. The model covers:

- **Per-record metrics** (`calculate_metrics`): profit, ROI %, production efficiency,
  revenue per unit, cost per unit and the growth period in days. Every ratio has its own
  `> 0` guard. The growth period uses a strict `YYYY-MM-DD` parser and a proleptic
  Gregorian day count. It is floored like Python's `timedelta.days`, and it is 0 when a date
  is missing or does not parse.
- **Date rendering** (`format_date_for_csv`): NULL becomes "", text is left alone, and a
  `datetime` is written as `YYYY-MM-DD`.
- **The product summary** (`export_summary_csv`). The grouping loop is a method over a
  `map` keyed by the exact product name; it keeps sums, status counters and the sum and count
  of positive growth periods. Then there is a finalisation pass and a writing pass in the
  table's insertion order. Each pass is proved against a reference function over the record
  sequence.
- **The monthly analysis** (`export_monthly_analysis`). Records are bucketed by the
  `YYYY-MM` key of their harvest date, and undated or unparsable records are skipped. The
  buckets are finalised and emitted in ascending key order. The loops are methods proved
  against reference functions.
- **The three exporters' outcomes**: an empty store gives no file (`False`); otherwise each
  exporter gives the rows of its file.
- **The SQL builders of `db.py`**. The update builder keeps only whitelisted keyword
  arguments, parses date text and numbers its placeholders in step with the bound values. It
  then adds `updated_at` and the `WHERE id` placeholder. The search builder appends optional
  name and status filters.

Modules follow the program's structure:

- `Wrappers`: `Option` and `Result`.
- `Digits`: fixed-width and plain decimal rendering.
- `Strings`: code-point order, sorted keys, `join`, character counts.
- `Calendar`: dates, day numbers, strict parse and format, month keys.
- `Rounding`: round half to even on exact reals.
- `Metrics`: the record and `calculate_metrics`.
- `Tallies`: reference sums and counts over record sequences.
- `ProductSummary`, `MonthlyAnalysis`, `Export`.
- `SqlBuilders`.

Decimal columns are exact `real`s. `round(x, n)` is modelled as exact round-half-to-even
at `n` places. `datetime.now()` is passed in as a parameter. Record status is an independent
value: it is never derived from the dates.

## Model

| member | source | states |
|---|---|---|
| Metrics.GuardedRatiosAreZero | src/python/export_csv.py:37-65 | a non-positive cost zeroes profit, ROI, efficiency and cost per unit; a non-positive sale price zeroes profit, ROI and revenue per unit; a non-positive quantity zeroes both per-unit values |
| Metrics.ProfitAndReturn | src/python/export_csv.py:37-41 | with both prices positive, profit is sale − cost and ROI is profit / cost × 100, each within rounding to 2 places; the sign of profit follows the order of the prices |
| Metrics.EfficiencyReconstructsQuantity | src/python/export_csv.py:47-49 | with a positive cost, efficiency × cost gives back the quantity to within the 4-place rounding |
| Metrics.RevenuePerUnitReconstructsSale | src/python/export_csv.py:54-56 | with positive quantity and sale price, revenue per unit × quantity gives back the sale price to within rounding |
| Metrics.CostPerUnitReconstructsCost | src/python/export_csv.py:61-63 | with positive quantity and cost, cost per unit × quantity gives back the cost to within rounding |
| Metrics.GrowthPeriodCases | src/python/export_csv.py:68-85 | the growth period is 0 when either date is absent or does not parse, and otherwise is the whole-day difference of the two values |
| Metrics.TextAndParsedDatesAgree | src/python/export_csv.py:70-80 | dates given as `YYYY-MM-DD` text and the same days given as midnight `datetime`s yield the same growth period, namely the difference of the day numbers |
| Metrics.GrowthPositiveWhenHarvestLater | src/python/export_csv.py:80 | at equal times of day, the growth period is positive exactly when the harvest day is after the planting day |
| Metrics.FormatDateForCsvRoundTrip | src/python/export_csv.py:23-29 | NULL renders as "", text is unchanged, and a rendered `datetime` parses back to its calendar day |
| Metrics.SameDateTime | src/python/export_csv.py:23-29 | rendering a midnight date column keeps both its truthiness and the `datetime` it stands for |
| Metrics.CsvDatesKeepMetrics | src/python/export_csv.py:146-152 | computing the metrics after rendering the dates changes nothing when planting and harvest carry no time of day |
| Metrics.WorkedExample | src/python/export_csv.py:32-87 | quantity 100, cost 50, sale 80, planted 2024-01-01 and harvested 2024-03-01 give profit 30, ROI 60, efficiency 2, 0.8 and 0.5 per unit, and 60 days |
| Metrics.WorkedRatios | src/python/export_csv.py:37-65 | the ratio columns of that example |
| Metrics.UnpricedExample | src/python/export_csv.py:42-85 | a record without prices or dates gets all-zero metrics |
| Calendar.YearStep | src/python/export_csv.py:80 | the days before year y+1 are the days before y plus the length of y under the Gregorian leap rule |
| Calendar.DayWithinYear | src/python/export_csv.py:80 | a date's day number falls within its own year's range |
| Calendar.DayNumberOrder | src/python/export_csv.py:80 | day numbers are ordered exactly as calendar dates, and are equal only for the same date |
| Calendar.LeapFebruaryExample | src/python/export_csv.py:80 | 2024-01-01 to 2024-03-01 is 60 days (leap February), and the same span in 2023 is 59 |
| Calendar.WholeDaysIsFloor | src/python/export_csv.py:80 | the whole-day difference is the floor of the elapsed seconds over 86400, as `timedelta.days` is |
| Calendar.WholeDaysSign | src/python/export_csv.py:80 | at equal times of day the difference is positive exactly for a later day and 0 exactly for the same day |
| Calendar.FormatShape | src/python/export_csv.py:29 | a rendered date is 10 characters: a 4-digit year, '-', a 2-digit month, '-', a 2-digit day |
| Calendar.ParseFormat | src/python/export_csv.py:71-76 | parsing a rendered date gives back the date |
| Calendar.FormatParse | src/python/export_csv.py:71-76 | the strict parser accepts only the canonical rendering of the date it returns |
| Calendar.FormatExamples | src/python/export_csv.py:29 | concrete renderings of 2024-01-01 and 2024-03-01 |
| Calendar.MonthKeyIsPrefix | src/python/export_csv.py:311-312 | the `%Y-%m` key is the first 7 characters of the rendered date |
| Calendar.MonthKeyInjective | src/python/export_csv.py:312 | two dates share a month key exactly when they share year and month |
| Calendar.MonthKeyChronological | src/python/export_csv.py:376 | string order of month keys is chronological order of the months |
| Digits.Padded | src/python/export_csv.py:29 | a zero-padded field has exactly its width and only digits |
| Digits.PaddedValue | src/python/export_csv.py:29 | a zero-padded field reads back as the number it renders |
| Digits.ValuePadded | src/python/export_csv.py:71 | a digit string is the zero-padded rendering of its own value |
| Digits.PaddedLess | src/python/export_csv.py:376 | fixed-width fields compare as strings exactly as their numbers compare |
| Digits.Decimal | src/python/db.py:219 | `str(n)` is a non-empty digit string without a leading zero |
| Digits.DecimalValue | src/python/db.py:219 | `str(n)` reads back as n |
| Digits.DecimalInjective | src/python/db.py:219 | different numbers get different placeholder digits |
| Strings.LessTransitive | src/python/export_csv.py:376 | string order is transitive |
| Strings.LessTotal | src/python/export_csv.py:376 | two different strings are ordered one way or the other |
| Strings.LessAsymmetric | src/python/export_csv.py:376 | string order is asymmetric |
| Strings.SortedKeys | src/python/export_csv.py:376 | `sorted(keys)` is strictly ascending and holds exactly the given keys |
| Strings.CountCharJoin | src/python/db.py:242 | joining with a separator free of c counts each part's c and nothing more |
| Rounding.RoundClose | src/python/export_csv.py:40-41 | rounding to n places moves a value by at most half a unit in the n-th place |
| Rounding.RoundExact | src/python/export_csv.py:40 | a value already exact at n places is unchanged |
| Rounding.RoundMonotone | src/python/export_csv.py:41 | rounding preserves order |
| Rounding.RoundSign | src/python/export_csv.py:40 | rounding preserves the sign |
| Metrics.StatusOf | src/python/export_csv.py:213-219 | each status text stands for exactly one status: the three compared texts give their statuses and any other text stays unrecognised, and the text reads back unchanged |
| Metrics.StatusRoundTrip | src/python/export_csv.py:213-219 | reading back a status's text gives that status, so an unrecognised status never carries one of the three compared texts |
| Tallies.WithNameExactly | src/python/export_csv.py:190-193 | a product's records are exactly the input records with that exact name |
| Tallies.StatusCountsBounded | src/python/export_csv.py:212-219 | planted + harvested + sold counts are at most the record count, with equality exactly when no status is unrecognised |
| Tallies.PositiveGrowthBounds | src/python/export_csv.py:221-225 | at most one positive period is counted per record; the sum is at least the count; the sum is 0 exactly when the count is |
| ProductSummary.GroupByProduct | src/python/export_csv.py:188-225 | after the grouping loop the table's keys are the product names in first-met order, and each entry holds exactly the sums and counts over that product's records |
| ProductSummary.GroupStep | src/python/export_csv.py:190-225 | one turn of the loop, opening a new entry when needed, keeps names and entries in step with the records read |
| ProductSummary.ExpectedAfter | src/python/export_csv.py:207-225 | one more record changes only its own product's entry, by exactly the loop body's increments |
| ProductSummary.NotYetNamed | src/python/export_csv.py:193-205 | a product not met before has the all-zero entry the loop creates |
| ProductSummary.NamesExactly | src/python/export_csv.py:188-193 | the table's names are distinct and are exactly the names occurring in the records |
| ProductSummary.FinalizeEach | src/python/export_csv.py:227-242 | the finalisation pass turns each entry into its row and keeps the key set |
| ProductSummary.EmitInOrder | src/python/export_csv.py:263-267 | rows come out in the table's insertion order, one per product |
| ProductSummary.Summarise | src/python/export_csv.py:188-267 | the whole summary equals the reference rows |
| ProductSummary.SummaryRowTotals | src/python/export_csv.py:190-235 | each row's totals are the sums over its product's records, which exist; its planted, harvested and sold counts are the numbers of those records with that status, together at most the record count; profit is revenue − cost |
| ProductSummary.SummaryRowReturn | src/python/export_csv.py:237-242 | total ROI is 0 when total cost is not positive, and otherwise profit / cost × 100 within rounding |
| ProductSummary.SummaryRowAverageGrowth | src/python/export_csv.py:221-232 | the average growth is 0 with no positive period, and otherwise at least 1 and within 0.05 of the mean of the positive periods |
| ProductSummary.TomateExample | src/python/export_csv.py:188-242 | two "Tomate" records (cost 50 and 30, sale 80 and 45) give one row with cost 80, revenue 125 and profit 45 |
| MonthlyAnalysis.GroupByMonth | src/python/export_csv.py:300-333 | after the bucketing loop the table's keys are the harvest months in first-met order, each bucket holding the sums and count over that month's records |
| MonthlyAnalysis.ExpectedMonthSkipped | src/python/export_csv.py:303-316 | a record without a usable harvest date changes no bucket and adds no key |
| MonthlyAnalysis.ExpectedMonthAdded | src/python/export_csv.py:320-333 | a dated record changes only its month's bucket, by the loop body's increments, and lists the month if new |
| MonthlyAnalysis.MonthNotYetSeen | src/python/export_csv.py:320-327 | a month not met before has the all-zero bucket the loop creates |
| MonthlyAnalysis.InMonthExactly | src/python/export_csv.py:302-333 | a bucket holds exactly the input records whose harvest month is its key |
| MonthlyAnalysis.MonthKeysExactly | src/python/export_csv.py:320-327 | the keys are distinct and are exactly the harvest months occurring in the records |
| MonthlyAnalysis.DatedExactly | src/python/export_csv.py:303-318 | the dated records are exactly the input records with a usable harvest date |
| MonthlyAnalysis.FinalizeEach | src/python/export_csv.py:336-355 | the finalisation pass turns each bucket into its row and keeps the key set |
| MonthlyAnalysis.EmitInOrder | src/python/export_csv.py:376-377 | rows come out in the order of the given keys |
| MonthlyAnalysis.MonthlyAnalysisRows | src/python/export_csv.py:300-377 | the whole analysis equals the reference rows |
| MonthlyAnalysis.MonthlyRowsOrderAndCover | src/python/export_csv.py:376 | rows are in strictly ascending key order, and there is a row for a month exactly when some record was harvested in it |
| MonthlyAnalysis.MonthlyRowsEmpty | src/python/export_csv.py:302-318 | there are no rows exactly when no record has a usable harvest date |
| MonthlyAnalysis.MonthlyRowsChronological | src/python/export_csv.py:376 | an earlier row's month is chronologically before a later row's |
| MonthlyAnalysis.MonthlyRowTotals | src/python/export_csv.py:329-337 | each row's count is its bucket's size, at least 1, its totals are the bucket's sums, and profit is revenue − cost |
| MonthlyAnalysis.MonthlyRowAverage | src/python/export_csv.py:350-355 | the count is never 0 (so the zero branch is dead) and the average quantity is within 0.005 of total / count |
| MonthlyAnalysis.MonthlyRowRatios | src/python/export_csv.py:339-348 | ROI and efficiency are 0 without a positive cost, otherwise within rounding of profit / cost × 100 and quantity / cost |
| MonthlyAnalysis.FinalizedRatios | src/python/export_csv.py:339-348 | the same guarded ratios for any finalised bucket |
| MonthlyAnalysis.FinalizedAverage | src/python/export_csv.py:350-353 | the average of a non-empty finalised bucket is within 0.005 of total / count |
| MonthlyAnalysis.BucketsPartitionDated | src/python/export_csv.py:302-333 | over distinct keys covering every harvest month, the bucket sizes add up to the number of dated records |
| MonthlyAnalysis.ProductionCountsAddUp | src/python/export_csv.py:302-333 | the production counts of all rows add up to the number of records with a usable harvest date |
| Export.ExportRecords | src/python/export_csv.py:100-161 | nothing for an empty store; otherwise one row per record, in order, with the dates rendered and then the metrics computed |
| Export.ExportSummary | src/python/export_csv.py:176-242 | nothing for an empty store, otherwise the product summary rows |
| Export.ExportMonthly | src/python/export_csv.py:288-355 | nothing for an empty store, otherwise the monthly rows, possibly none |
| Export.EnrichRecordColumns | src/python/export_csv.py:146-149 | the full export keeps the record's columns; each of the four date columns is "" for NULL, the text unchanged for text, and for a `datetime` a text that reads back as its day |
| Export.EnrichRecordMetrics | src/python/export_csv.py:146-153 | for midnight planting and harvest values, the exported metrics are those of the stored record |
| Export.RenderedGrowthPeriod | src/python/export_csv.py:146-152 | with `datetime` dates, the summary's growth period is the floored time difference, while the full export's is the difference of calendar days |
| Export.RenderingDropsTimeOfDay | src/python/export_csv.py:146-152 | planting at noon and harvesting at midnight the next day counts 0 days in the summary and 1 in the full export |
| SqlBuilders.BuildUpdate | src/python/db.py:204-244 | the update builder's result is the reference outcome: the statement over the accepted fields, or the first failure |
| SqlBuilders.WhitelistedExactly | src/python/db.py:204-218 | only keyword arguments named in the seven-field whitelist are kept |
| SqlBuilders.AcceptedCharacterised | src/python/db.py:217-227 | the loop succeeds exactly when every whitelisted date text parses, and then binds exactly the whitelisted arguments, in order, with converted values |
| SqlBuilders.AcceptedErrorNamesDate | src/python/db.py:222-225 | a failure names a whitelisted date field whose text does not parse |
| SqlBuilders.AcceptedErrorSticks | src/python/db.py:225 | once a date fails to parse the rest of the arguments change nothing (the exception ends the loop) |
| SqlBuilders.HarvestTextExample | src/python/db.py:222-225 | harvest-date text "2024-03-01" is bound as midnight of that day |
| SqlBuilders.UpdateFailures | src/python/db.py:225-231 | failure for want of fields happens exactly when nothing is whitelisted; some failure happens exactly when nothing is whitelisted or a date does not parse |
| SqlBuilders.UpdateLayout | src/python/db.py:217-244 | for n accepted fields, SET entry k is `field = :k` bound to value k; `updated_at = :(n+1)` is bound to the current time; the WHERE placeholder `:(n+2)` is bound to the record id |
| SqlBuilders.ClausesHaveOneColonEach | src/python/db.py:219-234 | every SET entry holds exactly one placeholder |
| SqlBuilders.UpdatePlaceholderCount | src/python/db.py:219-244 | the statement holds exactly as many placeholders as bound values, n + 2 |
| SqlBuilders.PlaceholderReadsBack | src/python/db.py:219 | placeholder `:k` is ':' followed by the digits of k |
| SqlBuilders.UpdateExample | src/python/db.py:204-244 | quantity, an unknown key and harvest-date text give `quantity = :1`, `harvest_date = :2`, `updated_at = :3`, with the unknown key unbound and the id in fourth place |
| SqlBuilders.AcceptedExample | src/python/db.py:217-227 | the same arguments accept quantity and the parsed harvest date only |
| SqlBuilders.BuildSearch | src/python/db.py:321-341 | a given name adds the LIKE filter bound to `%name%` as `:1`; a given status adds `:(len(params)+1)` bound to it; the text always ends with the ORDER BY; placeholders equal parameters in number |
| SqlBuilders.SearchPlaceholders | src/python/db.py:330-341 | the search text holds exactly one ':' per parameter |

## Left out

- Database access is not modelled: connections, cursors, `execute`, `commit`/`rollback`, the
  `rowcount` check and the `example_usage` demo in `src/python/db.py`. These are calls into
  a remote Oracle server. Each builder stops at the statement text and the bound values it
  would pass to `execute`.
- Oracle evaluates `UPPER(...) LIKE UPPER(...)`. The model holds only the statement text and
  its parameters, not the query's result.
- CSV file handling is not modelled: the data directory, file names, `open` and
  `csv.DictWriter`, and the console messages. The exporters are modelled as their rows.
  The column lists are kept as constants.
- `datetime.now()` is not modelled; the update builder takes the current time as the
  parameter `now`.
- Python floats are not modelled. Quantities and prices are exact reals, and `round` is
  exact round-half-to-even. Binary representation error, and its effect on which way a half
  rounds, is not captured.
- `strptime` is modelled as strict `YYYY-MM-DD` with two-digit month and day of ASCII
  digits. Python also accepts unpadded fields such as `2024-3-1`, a space-padded day such
  as `2024-03- 1` (only `%d` accepts a leading space), and non-ASCII decimal digits; all of
  these are treated as unparsable.
- `strftime("%Y")` is modelled as four zero-padded digits. The C library prints years below
  1000 without padding.
- Dates are valid Gregorian dates from year 1 on, with a time of day in whole seconds.
  Sub-second parts and time zones are not modelled.
- NULL quantity or price columns are not modelled: the record has real-valued columns.
  In the source, what a NULL does depends on the exporter:
  - the product summary always adds all three columns, so any NULL there raises and the
    export returns `False`;
  - the full export meets a NULL only when a guard reads it. A NULL sale price behind a
    non-positive cost and quantity is never compared, because `and` short-circuits; that row
    is written, and the export succeeds;
  - the monthly analysis skips an undated record before adding its columns, so only NULLs
    in dated records raise.
- The exporters' blanket `except` for other failures (store unavailable, I/O errors) is not
  modelled. Only the empty-store outcome is.
- A record mixing a `date` with a `datetime` is not modelled: each date column is NULL, text
  or a `datetime`.
- `src/python/app.py` (menu, prompts, R scripts) is not part of this model. Neither is the
  sample-data generator `setup.py`, whose status rule is not used: status is a value the
  caller supplies.
- A top-N ranking by ROI or efficiency is not among the modelled operations: none of the
  modelled source files ranks products.
- The three column-name lists are kept as constants for reference. No contract uses them:
  each lists the fields of its row datatype in declaration order, and that is all they state.
- The finalisation passes are written as loops over the name or key sequence in insertion
  order, not over `dict.items()`. The two orders are the same for a Python dict, and the
  result does not depend on the order.

## Behaviour worth knowing

- `calculate_metrics` does not clamp the growth period. A harvest before planting gives a
  negative period, which the product summary then leaves out of its average.
- The full export renders the dates before computing the metrics. For `datetime` values
  with a time of day, its growth period can differ from the one the summary uses; see
  `Export.RenderingDropsTimeOfDay`.
- Record validation (non-negative prices, harvest not before planting) is not done by this
  code. The model accepts any record, as the code does.
