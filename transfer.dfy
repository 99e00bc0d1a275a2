/** `transfer_to_aws`: seed the parameter table, read the batch size, build the
    report, append it to the remote report table, re-read the whole table,
    validate it against the batch and, only if that passes, record the batch
    timestamp as `last_etl_date`. */
module Transfer {
  import opened Wrappers
  import opened Report
  import opened Validator
  import opened Parameters

  /** The remote `customer_loan_transaction_report` table. Batches are only
      ever appended to it. */
  class ReportTable {
    var rows: seq<ReportRow>

    constructor ()
      ensures rows == []
    {
      rows := [];
    }

    /** `to_sql(..., if_exists='append')`. */
    method Append(batch: seq<ReportRow>)
      modifies this
      ensures rows == old(rows) + batch
    {
      rows := rows + batch;
    }

    /** `read_sql_table`: the whole accumulated table, earlier batches included. */
    method ReadAll() returns (t: seq<ReportRow>)
      ensures t == rows
    {
      t := rows;
    }
  }

  /** Why a transfer stops. */
  datatype TransferError =
    | BadBatchSize(text: string)      // `int(...)` could not parse the stored batch size
    | Invalid(reason: ValidationError) // a validation check failed

  /** The totals logged after a successful transfer. */
  datatype Summary = Summary(
    customers: nat,
    totalLoans: real,
    totalLoanAmount: real,
    totalTransactions: real,
    totalTransactionAmount: real)

  /** One customer per report row; each total is the NULL-skipping column sum. */
  function SummaryOf(batch: seq<ReportRow>): (r: Summary)
    ensures r.customers == |batch|
    ensures batch == [] ==> r == Summary(0, 0.0, 0.0, 0.0, 0.0)
  {
    Summary(|batch|, ColumnSum(batch, TotalLoans), ColumnSum(batch, TotalLoanAmount),
            ColumnSum(batch, TotalTransactions), ColumnSum(batch, TotalTransactionAmount))
  }

  /** The summary of a batch made of two parts adds up the parts' summaries. */
  lemma SummaryAppend(a: seq<ReportRow>, b: seq<ReportRow>)
    ensures var s, sa, sb := SummaryOf(a + b), SummaryOf(a), SummaryOf(b);
            && s.customers == sa.customers + sb.customers
            && s.totalLoans == sa.totalLoans + sb.totalLoans
            && s.totalLoanAmount == sa.totalLoanAmount + sb.totalLoanAmount
            && s.totalTransactions == sa.totalTransactions + sb.totalTransactions
            && s.totalTransactionAmount == sa.totalTransactionAmount + sb.totalTransactionAmount
  {
    ColumnSumAppend(a, b, TotalLoans);
    ColumnSumAppend(a, b, TotalLoanAmount);
    ColumnSumAppend(a, b, TotalTransactions);
    ColumnSumAppend(a, b, TotalTransactionAmount);
  }

  /** A one-row batch counts one customer, and each total is that row's value,
      with NULL counting as zero. */
  lemma SummaryOfOne(row: ReportRow)
    ensures SummaryOf([row]) ==
            Summary(1, ValueOf(row, TotalLoans).GetOr(0.0), ValueOf(row, TotalLoanAmount).GetOr(0.0),
                    ValueOf(row, TotalTransactions).GetOr(0.0), ValueOf(row, TotalTransactionAmount).GetOr(0.0))
  {
    assert [row][..0] == [];
    assert ColumnSum([row], TotalLoans) == ValueOf(row, TotalLoans).GetOr(0.0);
    assert ColumnSum([row], TotalLoanAmount) == ValueOf(row, TotalLoanAmount).GetOr(0.0);
    assert ColumnSum([row], TotalTransactions) == ValueOf(row, TotalTransactions).GetOr(0.0);
    assert ColumnSum([row], TotalTransactionAmount) == ValueOf(row, TotalTransactionAmount).GetOr(0.0);
  }

  predicate IsBadBatchSize(r: Result<Summary, TransferError>) {
    r.Failure? && r.error.BadBatchSize?
  }

  /** After the defaults are appended, `batch_size` has a row holding "1000",
      so a value that does not parse was fetched from a row stored earlier. */
  lemma BadBatchSizeIsStored(stored: seq<Parameter>, firstId: nat, v: Option<string>)
    requires PossibleValue(stored + Seeded(firstId), BatchSizeName, v)
    requires ParseBatchSize(v).Failure?
    ensures exists i :: 0 <= i < |stored| && stored[i].name == BatchSizeName && stored[i].value == v
  {
    var seeded := stored + Seeded(firstId);
    DefaultBatchSize();
    assert HasRow(seeded, BatchSizeName) by {
      assert seeded[|stored| + 1].name == BatchSizeName;
    }
    var i :| 0 <= i < |seeded| && seeded[i].name == BatchSizeName && seeded[i].value == v;
    assert i < |stored|;
    assert stored[i] == seeded[i];
  }

  /** Once the seeded table has been updated with the batch stamp, every read of
      `last_etl_date` yields that stamp. */
  lemma LastEtlDateRecorded(stored: seq<Parameter>, firstId: nat, now: Timestamp)
    ensures forall w :: PossibleValue(UpdatedRows(stored + Seeded(firstId), LastEtlDate, Some(now)), LastEtlDate, w) ==>
                        w == Some(now)
  {
    var seeded := stored + Seeded(firstId);
    forall w | PossibleValue(UpdatedRows(seeded, LastEtlDate, Some(now)), LastEtlDate, w) ensures w == Some(now) {
      assert seeded[|stored|].name == LastEtlDate;
      GetAfterUpdate(seeded, LastEtlDate, Some(now), w);
    }
  }

  /** Seed the parameter table and read the batch size. A value that does not
      parse was stored before this run. */
  method SeedAndReadBatchSize(params: ParameterStore) returns (batchSize: Result<int, string>)
    requires params.Valid()
    modifies params
    ensures params.Valid()
    ensures params.rows == old(params.rows) + Seeded(old(params.nextId))
    ensures params.nextId == old(params.nextId) + |DefaultParams|
    ensures batchSize.Failure? ==>
      exists i :: 0 <= i < |old(params.rows)| && old(params.rows)[i].name == BatchSizeName &&
                  old(params.rows)[i].value == Some(batchSize.error) && ParseBatchSize(Some(batchSize.error)).Failure?
    ensures (forall i :: 0 <= i < |old(params.rows)| && old(params.rows)[i].name == BatchSizeName ==>
                         ParseBatchSize(old(params.rows)[i].value).Success?) ==> batchSize.Success?
    ensures exists v :: PossibleValue(params.rows, BatchSizeName, v) && batchSize == ParseBatchSize(v)
    ensures !HasRow(old(params.rows), BatchSizeName) ==> batchSize == Success(1000)
  {
    ghost var stored := params.rows;
    params.CreateParameterTable();
    var batchValue := params.GetParameter(BatchSizeName);
    batchSize := ParseBatchSize(batchValue);
    if !HasRow(stored, BatchSizeName) {
      GetAfterSeeding(stored, old(params.nextId), BatchSizeName, batchValue);
      DefaultBatchSize();
    }
    if batchSize.Failure? {
      BadBatchSizeIsStored(stored, old(params.nextId), batchValue);
    }
  }

  /** Append the batch, re-read the whole table and validate it against the
      batch. Only a table that was empty before can pass the row-count check. */
  method AppendAndValidate(remote: ReportTable, batch: seq<ReportRow>) returns (verdict: Check)
    modifies remote
    ensures remote.rows == old(remote.rows) + batch
    ensures verdict == ReportChecks(batch, remote.rows)
    ensures old(remote.rows) != [] ==>
      verdict == Fail(RowCountMismatch(|batch|, |old(remote.rows)| + |batch|))
    ensures old(remote.rows) == [] ==> verdict == TargetChecks(batch)
  {
    ghost var prior := remote.rows;
    remote.Append(batch);
    var target := remote.ReadAll();
    if prior != [] {
      ReportChecksOnAccumulatedTable(prior, batch);
    } else {
      assert target == batch;
      ReportChecksOnFreshTable(batch);
    }
    verdict := ValidateReportData(batch, target);
  }

  /** One run of the remote transfer over the local query result `queryRows`,
      at generation time `now`. */
  method TransferToAws(params: ParameterStore, remote: ReportTable, queryRows: seq<QueryRow>, now: Timestamp)
    returns (r: Result<Summary, TransferError>)
    requires params.Valid()
    modifies params, remote
    ensures params.Valid()
    ensures params.nextId == old(params.nextId) + |DefaultParams|
    // The four defaults are appended on every run; last_etl_date changes only on success.
    ensures r.Failure? ==> params.rows == old(params.rows) + Seeded(old(params.nextId))
    ensures r.Success? ==>
      params.rows == UpdatedRows(old(params.rows) + Seeded(old(params.nextId)), LastEtlDate, Some(now))
    ensures r.Success? ==> forall w :: PossibleValue(params.rows, LastEtlDate, w) ==> w == Some(now)
    // A batch size that does not parse can only come from a row stored before this run.
    ensures IsBadBatchSize(r) ==>
      && remote.rows == old(remote.rows)
      && exists i :: 0 <= i < |old(params.rows)| && old(params.rows)[i].name == BatchSizeName &&
                     old(params.rows)[i].value == Some(r.error.text) && ParseBatchSize(Some(r.error.text)).Failure?
    ensures (forall i :: 0 <= i < |old(params.rows)| && old(params.rows)[i].name == BatchSizeName ==>
                         ParseBatchSize(old(params.rows)[i].value).Success?) ==> !IsBadBatchSize(r)
    // Otherwise the batch is appended and the whole table is validated against it.
    ensures !IsBadBatchSize(r) ==> remote.rows == old(remote.rows) + ReportBatch(queryRows, now)
    ensures !IsBadBatchSize(r) ==>
      && (r.Success? <==> ReportChecks(ReportBatch(queryRows, now), remote.rows).Pass?)
      && (r.Failure? ==> r.error.Invalid? &&
                         ReportChecks(ReportBatch(queryRows, now), remote.rows) == Fail(r.error.reason))
    ensures r.Success? ==> r.value == SummaryOf(ReportBatch(queryRows, now))
    // Validation can pass only on a table that was empty before the run.
    ensures !IsBadBatchSize(r) && old(remote.rows) != [] ==>
      r == Failure(Invalid(RowCountMismatch(|queryRows|, |old(remote.rows)| + |queryRows|)))
    ensures !IsBadBatchSize(r) && old(remote.rows) == [] ==>
      (r.Success? <==> TargetChecks(ReportBatch(queryRows, now)).Pass?)
    // A customer without loans has a NULL loan total, so the run never succeeds.
    ensures (exists i :: 0 <= i < |queryRows| && queryRows[i].totalLoanAmount.None?) ==> r.Failure?
  {
    ghost var stored := old(params.rows);
    var batchSize := SeedAndReadBatchSize(params);
    if batchSize.Failure? {
      return Failure(BadBatchSize(batchSize.error));
    }
    // The batch size is handed to the report generator, which does not use it.
    var (source, currentTime) := GenerateReport(queryRows, now);
    var verdict := AppendAndValidate(remote, source);
    if i :| 0 <= i < |queryRows| && queryRows[i].totalLoanAmount.None? {
      if old(remote.rows) == [] {
        NoLoansFailsFresh(queryRows, now, i);
      }
    }
    if verdict.Fail? {
      return Failure(Invalid(verdict.error));
    }
    params.UpdateParameter(LastEtlDate, Some(currentTime));
    LastEtlDateRecorded(stored, old(params.nextId), now);
    return Success(SummaryOf(source));
  }
}
