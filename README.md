# ETL report transfer: validation suite, parameter store and CSV discovery

This project models the deterministic core of a small batch ETL pipeline.
CSV files are loaded into a local MySQL database. A per-customer report is
aggregated from it, appended to a remote MySQL database and validated there.
The model covers:

- **Report post-processing**. The rows of the local aggregation query are taken
  as input. The model derives the two average columns (`total / count`, with a
  zero count replaced by one and a NULL total staying NULL) and stamps one
  generation time on every row. That same time is returned.
- **Validator**. Five checks compare the remote table (the *target*) with the
  freshly generated batch (the *source*): row count, column sums within 0.01,
  duplicate `(customer_id, report_generated_at)` keys, NULLs in required
  columns, and inclusive value ranges. They run in this fixed order and the
  first failure ends the suite. A raised exception is a `Fail` carrying the
  counts its message reports.
- **Parameter store**. The `etl_parameters` table is a class over a sequence of
  rows, with an `AUTO_INCREMENT` counter. It supports seeding, lookup that falls
  back to a defaults table, update by name, and parsing `batch_size` as
  `int(value or 1000)`.
- **Orchestration** of `transfer_to_aws`. The remote report table is a class
  with an append-only sequence of rows. One run does the following:
  1. Seed the parameter table.
  2. Read the batch size.
  3. Build the report.
  4. Append it to the remote table.
  5. Re-read the whole remote table and validate it against the batch.
  6. Record `last_etl_date`, but only if validation passed.
- **CSV discovery** (`get_csv_files`). A directory listing becomes a map from
  table name to `datas/<name>.csv`.

Modules: `Wrappers` (Option/Result/Outcome), `Report`, `Validator`,
`Parameters`, `Transfer`, `CsvFiles`, one file each.

Behaviour of the code that the model keeps as written:

- `INSERT IGNORE` reads as insert-if-absent, but here it is not.
  `etl_parameters` declares only `param_id` as a key, so `INSERT IGNORE`
  never skips a row, and every run appends all four defaults
  again. `ParameterStore.CreateParameterTable` states exactly this.
- `get_parameter` runs a `SELECT` without `ORDER BY` and takes the row `fetchone`
  returns. The model therefore promises only the value of *some* matching row
  (`PossibleValue`). The method returns the first matching row, which is one of
  the allowed answers.
- The target that is validated is the whole accumulated remote table, not just
  the new batch. So the row-count check fails on every run whose table was not
  empty before the append (`Validator.ReportChecksOnAccumulatedTable`,
  `Transfer.TransferToAws`).
- `validate_aggregation` accepts grouping columns and never uses them.
- `total_loan_amount` is a required column, but the aggregation query's
  `LEFT JOIN` with `SUM(l.loan_amount)` makes it NULL for a customer without
  loans. A batch with such a customer fails the NULL check even on an empty
  remote table. Its rows are still appended, and `last_etl_date` is not
  recorded (`Validator.NoLoansFailsFresh`, `Transfer.TransferToAws`).

## Model

| member | source | states |
|---|---|---|
| `Report.Average` | src/etl_to_aws.py:281-282 | The average is NULL exactly when the total is NULL. A zero count leaves the total unchanged (denominator 1). Otherwise average × count = total. |
| `Report.GenerateReport` | src/etl_to_aws.py:281-288 | One report row per query row, with the query row kept unchanged and both averages derived from it. Every row carries the returned timestamp, and that timestamp is `now`. |
| `Report.CustomerWithoutActivity` | src/etl_to_aws.py:281-282 | A customer with zero loans and zero transactions and NULL totals gets NULL averages, even though the denominator becomes 1. |
| `Report.BatchSharesStamp` | src/etl_to_aws.py:285-288 | Any two rows of one batch share `report_generated_at`, and it equals the returned time. |
| `Validator.ValidateRowCount` | src/etl_to_aws.py:167-175 | Passes exactly when the two tables have equal row counts. Otherwise it fails with both counts. |
| `Validator.ColumnSumAppend` | src/etl_to_aws.py:182-183 | The NULL-skipping sum of a concatenated table is the sum of the sums of its parts (the accumulated target sums the earlier rows plus the batch). |
| `Validator.ValidateAggregation` | src/etl_to_aws.py:179-190 | The loop over the sum columns returns the verdict `AggregationCheck` defines. It ignores the grouping columns. |
| `Validator.AggregationCheckPass` | src/etl_to_aws.py:181-188 | Passes exactly when every listed column has `|sum(source) - sum(target)| <= 0.01`, so a difference of exactly 0.01 passes. |
| `Validator.AggregationFirstFailure` | src/etl_to_aws.py:181-188 | When it fails, it fails at the first offending column in list order and reports both sums. |
| `Validator.AggregationOfSelf` | src/etl_to_aws.py:179-188 | A table compared with itself passes the aggregation check. |
| `Validator.AggregationBoundary` | src/etl_to_aws.py:185 | Loan totals 0.01 against 0.0 pass. Loan totals 0.011 against 0.0 fail. |
| `Validator.DuplicatesMeaning` | src/etl_to_aws.py:192-199 | Fails exactly when two distinct target rows share `(customer_id, report_generated_at)`. The count covers every row whose key occurs more than once (`keep=False`), so it is at least 2. |
| `Validator.CheckDuplicates` | src/etl_to_aws.py:192-199 | Passes exactly when no row is flagged as duplicated. A failure reports the number of flagged rows, which is between 2 and the table size. |
| `Validator.FlaggedRowsBounds` | src/etl_to_aws.py:194-196 | When any row is flagged, at least two are (a row and the one sharing its key), and no more than the table has. |
| `Validator.SingleDuplicatePair` | src/etl_to_aws.py:194-196 | A single pair of rows with the same key, all other keys unique, reports a duplicate count of 2. |
| `Validator.NullCountPositive` | src/etl_to_aws.py:205 | A column's null count is positive exactly when some cell of it is missing. |
| `Validator.NullReportMeaning` | src/etl_to_aws.py:205-211 | The error lines are exactly the pairs (required column, its null count) whose count is positive. |
| `Validator.CheckNullValues` | src/etl_to_aws.py:203-213 | The message-building loop returns the verdict `NullCheck` defines. It yields one line per required column with nulls, in list order. |
| `Validator.NullCheckMeaning` | src/etl_to_aws.py:203-213 | Fails exactly when some required column has a missing cell. The report then lists every such column with its count, not only the first. |
| `Validator.OutOfRangeCountZero` | src/etl_to_aws.py:220-221 | No row is counted exactly when every present value v satisfies `min <= v <= max`. Missing values are never counted. |
| `Validator.ValidateDataRange` | src/etl_to_aws.py:217-226 | The loop over the range mapping returns the verdict `RangeCheck` defines. |
| `Validator.RangeCheckPassCounts` | src/etl_to_aws.py:219-224 | Passes exactly when no entry of the mapping has a row out of range. |
| `Validator.RangeCheckFirstFailure` | src/etl_to_aws.py:219-224 | When it fails, it fails at the first entry in mapping order with an out-of-range row and reports how many such rows there are. |
| `Validator.RangeCheckMeaning` | src/etl_to_aws.py:217-224 | Passes exactly when no present value of any listed column is outside its bounds. |
| `Validator.ValidateReportData` | src/etl_to_aws.py:228-254 | Runs row count, sums, duplicates, nulls and ranges in that order with the configured columns and bounds. It returns the first failure, or a pass. |
| `Validator.ReportChecksPass` | src/etl_to_aws.py:228-254 | The suite passes exactly when all of these hold: the counts are equal, both sums agree, no two target rows share a key, no required target cell is missing, and every present target value is in bounds. |
| `Validator.ReportChecksOnFreshTable` | src/etl_to_aws.py:233-254 | When the target equals the batch, only checks 3 to 5 can fail. |
| `Validator.NoLoansFailsFresh` | src/etl_to_aws.py:244-245 | A batch with a NULL `total_loan_amount` fails the suite against itself, that is, on a table that was empty before the append. |
| `Validator.ReportChecksOnAccumulatedTable` | src/etl_to_aws.py:326-336 | Whenever the target also holds earlier rows, the suite fails with the row-count mismatch (batch size, earlier + batch size). |
| `Parameters.UpdatedRows` | src/etl_to_aws.py:156 | The row count, ids, names and descriptions are unchanged. Every row with the name gets the new value, and every other row is unchanged. |
| `Parameters.SeedsMatchDefaults` | src/etl_to_aws.py:108-146 | Each seeded default holds the value the fallback table of `get_parameter` gives its name. |
| `Parameters.GetAfterSeeding` | src/etl_to_aws.py:115-146 | After seeding, a name that had no row reads back as its default. |
| `Parameters.GetAfterUpdate` | src/etl_to_aws.py:132-161 | After an update, the name reads back as the new value if a row had that name, and as the fallback otherwise. |
| `Parameters.UpdateKeepsOthers` | src/etl_to_aws.py:156 | An update does not change what any other name reads back. |
| `Parameters.ParameterStore.constructor` | src/etl_to_aws.py:94-105 | A newly created table is empty and its counter starts at 1. |
| `Parameters.ParameterStore.Insert` | src/etl_to_aws.py:116-125 | Appends exactly one row with the next id. Nothing is ignored. |
| `Parameters.ParameterStore.CreateParameterTable` | src/etl_to_aws.py:91-125 | Appends the four defaults in their fixed order (`last_etl_date` NULL, `batch_size` '1000', `retention_days` '30', `error_threshold` '100') on every call, keeping ids increasing. |
| `Parameters.ParameterStore.GetParameter` | src/etl_to_aws.py:132-147 | Returns the value of some row with that name. If there is none, it returns '1000', '30' or '100' for the three defaults and NULL for `last_etl_date` and unknown names. |
| `Parameters.ParameterStore.UpdateParameter` | src/etl_to_aws.py:153-161 | The new rows are `UpdatedRows` of the old rows, and the id counter is unchanged. |
| `Parameters.ParseInt` | src/etl_to_aws.py:318 | Accepts exactly an optional `+`/`-` sign followed by at least one decimal digit. A failure carries the rejected text. Unsigned digits and digits after `+` give their decimal value, a minus sign gives its negation, and anything without a minus sign is non-negative. |
| `Parameters.ParseNegatedDecimal` | src/etl_to_aws.py:318 | `int("-" + str(n)) == -n`. |
| `Parameters.ParseBatchSize` | src/etl_to_aws.py:318 | A missing or empty batch size becomes 1000. |
| `Parameters.DecimalDigits` | src/etl_to_aws.py:318 | The decimal text of a number is a non-empty digit string whose value is that number. |
| `Parameters.ParseDecimal` | src/etl_to_aws.py:318 | `int(str(n)) == n`: parsing the decimal text of a number gives the number back. |
| `Parameters.DefaultBatchSize` | src/etl_to_aws.py:318 | The seeded '1000' and the fallback '1000' both parse as 1000. |
| `Transfer.ReportTable.constructor` | src/etl_to_aws.py:326-331 | The remote report table before the first `to_sql` creates it holds no rows. |
| `Transfer.ReportTable.Append` | src/etl_to_aws.py:326-331 | The table becomes the old rows followed by the batch (append, never replace). |
| `Transfer.ReportTable.ReadAll` | src/etl_to_aws.py:335 | Re-reading returns the whole accumulated table. |
| `Transfer.SummaryOf` | src/etl_to_aws.py:349-354 | The customer count is the number of report rows, and an empty batch gives all-zero totals. |
| `Transfer.SummaryOfOne` | src/etl_to_aws.py:350-354 | A one-row batch logs one customer, and each logged total is that row's value (NULL counting as zero, as `sum()` skips it). Together with the empty case and `SummaryAppend`, every total is the column sum. |
| `Transfer.SummaryAppend` | src/etl_to_aws.py:349-354 | The summary of a batch in two parts adds up the parts' counts and totals. |
| `Transfer.BadBatchSizeIsStored` | src/etl_to_aws.py:315-318 | After seeding, a batch size that fails to parse came from a row stored before the run, because the seeded '1000' parses. |
| `Transfer.LastEtlDateRecorded` | src/etl_to_aws.py:339 | After the update, every read of `last_etl_date` returns the batch timestamp. |
| `Transfer.SeedAndReadBatchSize` | src/etl_to_aws.py:315-318 | Appends the defaults, then reads and parses `batch_size`. The result is `ParseBatchSize` of a value the `batch_size` lookup may return, and 1000 when no row stored before the run has that name. A failure names an earlier stored value that does not parse. If all stored values parse, it succeeds. The id counter advances by four. |
| `Transfer.AppendAndValidate` | src/etl_to_aws.py:326-336 | Appends the batch, then validates the whole table against it. On a previously non-empty table the verdict is the row-count mismatch. On an empty one it is checks 3 to 5 of the batch. |
| `Transfer.TransferToAws` | src/etl_to_aws.py:295-359 | Defaults are appended on every run. A bad batch size aborts before the append. Otherwise the batch is appended and the run succeeds exactly when validation passes. A non-empty prior table always fails on row count. `last_etl_date` becomes the batch timestamp only on success. A batch with a customer whose loan total is NULL never succeeds. The id counter advances by four. |
| `CsvFiles.TableName` | src/config.py:73 | Table name + ".csv" equals the file name, so a file named ".csv" maps to the empty name. |
| `CsvFiles.GetCsvFiles` | src/config.py:57-88 | A key is present exactly when an entry for which `is_file()` holds (a file or a link to one) named key + ".csv" is listed (case-sensitive suffix; directories and other names are skipped). Its path is `datas/<key>.csv`. A missing directory gives an empty map. With distinct entry names there is one key per qualifying entry. |

## Left out

- `src/etl_to_local.py` is not part of this model. It builds engines, reads CSV files and writes them with `to_sql(if_exists='replace')`, all of which happens inside pandas and MySQL.
- `create_aws_database`, `get_local_tables`, connection-string building and every `connect`/`create_engine` call: network and database plumbing. Their failures (connectivity errors) are not modelled.
- The SQL aggregation query. Its result rows are the model's input `queryRows`; the join and `GROUP BY` semantics are not modelled.
- Environment and configuration loading, logging, console output, `print_loading_effect` and the platform-dependent glyphs. Messages keep only the counts and sums they carry (`ValidationError`, `Summary`).
- `datetime.now()`: the generation time is the parameter `now`. The run's start/end times and its duration are not modelled.
- Floating point: sums and averages use exact `real` arithmetic, and NaN/NULL is `None`. IEEE rounding of pandas sums is not modelled.
- Validator.AggregationCheckPass: the 0.01 tolerance is compared in exact reals. In IEEE doubles the computed difference can land on either side of 0.01 (`1.01 - 1.0` is slightly above it), so at the boundary the source's verdict depends on rounding that the model does not capture.
- `created_at`/`updated_at` of `etl_parameters` (database-maintained timestamps) are not modelled.
- The round trip of a row through `to_sql`/`read_sql_table` is taken as exact. The re-read table is the previous rows followed by the batch. Type conversions by the driver and an unspecified row order are not modelled. The checks do not depend on row order.
- `report_df` gaining columns in place is modelled as building the report sequence as a value (`Report.GenerateReport`), since the source does it with whole-column assignments, not a loop.
- The `batch_size` argument of `generate_report_data` is never used there, so `GenerateReport` does not take it.
- `check_duplicates` is modelled for the one key list the code uses, `(customer_id, report_generated_at)`. Two NULL customer ids count as equal, as in pandas.
- Parameters.ParseInt: accepts only an optional `+`/`-` sign followed by ASCII digits. Python's `int` also accepts surrounding whitespace, underscores between digits and non-ASCII digits; those inputs fail in the model, and so in `Parameters.ParseBatchSize`, which parses a non-empty value with it.
- Parameters.Seeded: ids are taken as consecutive, as `AUTO_INCREMENT` assigns them with the default `auto_increment_increment` of 1. A larger server step would space the ids out; no contract outside the id invariant observes them, so only the "advances by four" statements depend on it.
- Parameters.PossibleValue: parameter names match by exact string equality, and so do `UpdatedRows`, `GetParameter`, `UpdateParameter` and the lemmas about them. Under a case-insensitive collation, as MySQL's defaults are, `WHERE param_name = ...` also matches names that differ only in letter case, so a stored `Batch_Size` row would be read as `batch_size` and updated with it. The exact matching depends on the server version and the column's collation: PAD SPACE collations (MySQL 5.7's defaults) also ignore trailing spaces, and MySQL 8's `utf8mb4_0900_ai_ci` is NO PAD but ignores accents.
- Parameters.UpdateKeepsOthers: holds for names that differ as strings. Under a case-insensitive collation it holds only for names that differ after case folding.
- Transfer.TransferToAws: every write made through `engine.connect()` is taken as committed (autocommit, as in SQLAlchemy 1.x). The code never calls `commit()`, so under SQLAlchemy 2.x the seeded rows and the `last_etl_date` update are rolled back when the connection closes, and only the `CREATE TABLE` and the pandas `to_sql` append persist.
- Parameters.ParameterStore.GetParameter: promises only the value of some matching row, because the `SELECT` has no `ORDER BY`. The implementation happens to return the first one.
- CsvFiles.GetCsvFiles: the directory listing is an input and `None` stands for the `FileNotFoundError` case. Other `scandir` errors, which propagate in the source, are not modelled. `os.path.join` is modelled with the POSIX separator.
