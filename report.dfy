/** The customer report: the rows of the local aggregation query (taken as
    input), the two derived average columns and the shared generation stamp
    that `generate_report_data` adds to them. */
module Report {
  import opened Wrappers

  /** A `YYYY-MM-DD HH:MM:SS` timestamp; only its identity matters here. */
  type Timestamp = string

  /** One row of the local per-customer aggregation query. The counts come from
      `COUNT(DISTINCT ...)` and are never NULL; the sums are NULL for a customer
      without loans or transactions. */
  datatype QueryRow = QueryRow(
    customerId: Option<int>,
    name: Option<string>,
    birthDate: Option<string>,
    gender: Option<string>,
    totalLoans: int,
    totalLoanAmount: Option<real>,
    totalTransactions: int,
    totalTransactionAmount: Option<real>,
    lastTransactionDate: Option<string>)

  /** One row of the report: the query row plus the derived columns. */
  datatype ReportRow = ReportRow(
    query: QueryRow,
    avgLoanAmount: Option<real>,
    avgTransactionAmount: Option<real>,
    reportGeneratedAt: Timestamp)

  /** The numeric columns of a report row (those that can be summed or range-checked). */
  datatype Measure =
    | TotalLoans
    | TotalLoanAmount
    | TotalTransactions
    | TotalTransactionAmount
    | AvgLoanAmount
    | AvgTransactionAmount

  /** Every column of a report row. */
  datatype Column =
    | CustomerId
    | Name
    | BirthDate
    | Gender
    | LastTransactionDate
    | ReportGeneratedAt
    | Numeric(measure: Measure)

  /** The cell of a numeric column, `None` when it is NULL/NaN. */
  function ValueOf(row: ReportRow, m: Measure): Option<real> {
    match m
    case TotalLoans => Some(row.query.totalLoans as real)
    case TotalLoanAmount => row.query.totalLoanAmount
    case TotalTransactions => Some(row.query.totalTransactions as real)
    case TotalTransactionAmount => row.query.totalTransactionAmount
    case AvgLoanAmount => row.avgLoanAmount
    case AvgTransactionAmount => row.avgTransactionAmount
  }

  /** Whether the cell of column `c` is missing (pandas `isnull`). */
  predicate IsNull(row: ReportRow, c: Column) {
    match c
    case CustomerId => row.query.customerId.None?
    case Name => row.query.name.None?
    case BirthDate => row.query.birthDate.None?
    case Gender => row.query.gender.None?
    case LastTransactionDate => row.query.lastTransactionDate.None?
    case ReportGeneratedAt => false
    case Numeric(m) => ValueOf(row, m).None?
  }

  /** `total / count.replace(0, 1)`: a zero count is replaced by one in the
      denominator only, and a missing total stays missing. */
  function Average(total: Option<real>, count: int): (avg: Option<real>)
    ensures avg.None? <==> total.None?
    ensures count == 0 ==> avg == total
    ensures count != 0 && total.Some? ==> avg.value * count as real == total.value
  {
    match total
    case None => None
    case Some(t) => Some(t / (if count == 0 then 1 else count) as real)
  }

  /** The report row built from one query row at generation time `now`. */
  function DeriveRow(q: QueryRow, now: Timestamp): ReportRow {
    ReportRow(q, Average(q.totalLoanAmount, q.totalLoans),
              Average(q.totalTransactionAmount, q.totalTransactions), now)
  }

  /** The part of `generate_report_data` after the query: the report rows and the
      one timestamp that is both stamped on every row and returned. */
  function GenerateReport(rows: seq<QueryRow>, now: Timestamp): (r: (seq<ReportRow>, Timestamp))
    ensures |r.0| == |rows| && r.1 == now
    ensures forall i :: 0 <= i < |rows| ==>
      && r.0[i].query == rows[i]
      && r.0[i].reportGeneratedAt == r.1
      && r.0[i].avgLoanAmount == Average(rows[i].totalLoanAmount, rows[i].totalLoans)
      && r.0[i].avgTransactionAmount == Average(rows[i].totalTransactionAmount, rows[i].totalTransactions)
  {
    (seq(|rows|, i requires 0 <= i < |rows| => DeriveRow(rows[i], now)), now)
  }

  /** The batch of report rows alone. */
  function ReportBatch(rows: seq<QueryRow>, now: Timestamp): seq<ReportRow> {
    GenerateReport(rows, now).0
  }

  /** A customer without loans has a zero loan count and a NULL loan total; its
      average stays NULL even though the denominator becomes one. Likewise for
      transactions. */
  lemma CustomerWithoutActivity(rows: seq<QueryRow>, now: Timestamp, i: nat)
    requires i < |rows|
    requires rows[i].totalLoans == 0 && rows[i].totalLoanAmount.None?
    requires rows[i].totalTransactions == 0 && rows[i].totalTransactionAmount.None?
    ensures ReportBatch(rows, now)[i].avgLoanAmount.None?
    ensures ReportBatch(rows, now)[i].avgTransactionAmount.None?
  {
  }

  /** Every row of one batch carries the same stamp. */
  lemma BatchSharesStamp(rows: seq<QueryRow>, now: Timestamp, i: nat, j: nat)
    requires i < |rows| && j < |rows|
    ensures ReportBatch(rows, now)[i].reportGeneratedAt == ReportBatch(rows, now)[j].reportGeneratedAt
            == GenerateReport(rows, now).1
  {
  }
}
