/** The post-transfer validation suite: five checks of the remote report table
    (target) against the freshly generated batch (source). Each check passes
    silently or fails with the counts its error message carries. */
module Validator {
  import opened Wrappers
  import opened Report

  /** What a failing check reports. */
  datatype ValidationError =
    | RowCountMismatch(sourceCount: nat, targetCount: nat)
    | SumMismatch(column: Measure, sourceSum: real, targetSum: real)
    | DuplicateRows(duplicateCount: nat)
    | NullValues(nullCounts: seq<(Column, nat)>)
    | OutOfRange(column: Measure, outOfRangeCount: nat)

  type Check = Outcome<ValidationError>

  type Table = seq<ReportRow>

  /** The largest difference two sums may have and still agree. */
  const Tolerance: real := 0.01

  // ---------------------------------------------------------------------------
  // 1. Row count

  function ValidateRowCount(source: Table, target: Table): (r: Check)
    ensures r.Pass? <==> |source| == |target|
    ensures r.Fail? ==> r.error == RowCountMismatch(|source|, |target|)
  {
    if |source| != |target| then Fail(RowCountMismatch(|source|, |target|)) else Pass
  }

  // ---------------------------------------------------------------------------
  // 2. Column sums

  function Abs(x: real): real {
    if x < 0.0 then -x else x
  }

  /** pandas `Series.sum()`: missing cells are skipped, an empty column sums to 0. */
  function ColumnSum(t: Table, m: Measure): real {
    if t == [] then 0.0 else ColumnSum(t[..|t| - 1], m) + ValueOf(t[|t| - 1], m).GetOr(0.0)
  }

  /** Summing a table made of two parts sums the parts. */
  lemma {:induction false} ColumnSumAppend(a: Table, b: Table, m: Measure)
    ensures ColumnSum(a + b, m) == ColumnSum(a, m) + ColumnSum(b, m)
  {
    if b != [] {
      assert (a + b)[..|a + b| - 1] == a + b[..|b| - 1];
      ColumnSumAppend(a, b[..|b| - 1], m);
    } else {
      assert a + b == a;
    }
  }

  predicate SumsAgree(source: Table, target: Table, m: Measure) {
    Abs(ColumnSum(source, m) - ColumnSum(target, m)) <= Tolerance
  }

  /** The error for column `m`. */
  function SumMismatchOf(source: Table, target: Table, m: Measure): ValidationError {
    SumMismatch(m, ColumnSum(source, m), ColumnSum(target, m))
  }

  /** The verdict of `validate_aggregation`: the first column, in list order,
      whose sums differ by more than the tolerance. */
  function AggregationCheck(source: Table, target: Table, sumCols: seq<Measure>): Check
    decreases |sumCols|
  {
    if sumCols == [] then Pass
    else if !SumsAgree(source, target, sumCols[0]) then Fail(SumMismatchOf(source, target, sumCols[0]))
    else AggregationCheck(source, target, sumCols[1..])
  }

  /** The loop of `validate_aggregation`. The grouping columns are accepted and
      never used. */
  method ValidateAggregation(source: Table, target: Table, groupCols: seq<Column>, sumCols: seq<Measure>)
    returns (r: Check)
    ensures r == AggregationCheck(source, target, sumCols)
  {
    var i := 0;
    while i < |sumCols|
      invariant 0 <= i <= |sumCols|
      invariant AggregationCheck(source, target, sumCols) == AggregationCheck(source, target, sumCols[i..])
    {
      assert sumCols[i..][1..] == sumCols[i + 1..];
      var col := sumCols[i];
      var sourceSum := ColumnSum(source, col);
      var targetSum := ColumnSum(target, col);
      if Abs(sourceSum - targetSum) > Tolerance {
        return Fail(SumMismatch(col, sourceSum, targetSum));
      }
      i := i + 1;
    }
    return Pass;
  }

  /** The aggregation check passes exactly when every listed column's sums
      agree within the tolerance, a difference of exactly 0.01 included. */
  lemma {:induction false} AggregationCheckPass(source: Table, target: Table, sumCols: seq<Measure>)
    ensures AggregationCheck(source, target, sumCols).Pass? <==>
            forall k :: 0 <= k < |sumCols| ==> SumsAgree(source, target, sumCols[k])
    decreases |sumCols|
  {
    if sumCols != [] {
      AggregationCheckPass(source, target, sumCols[1..]);
      assert forall k :: 1 <= k < |sumCols| ==> sumCols[k] == sumCols[1..][k - 1];
    }
  }

  /** When the aggregation check fails, it fails at the first column, in list
      order, whose sums disagree, reporting both sums. */
  lemma {:induction false} AggregationFirstFailure(source: Table, target: Table, sumCols: seq<Measure>, k: nat)
    requires k < |sumCols| && !SumsAgree(source, target, sumCols[k])
    requires forall j :: 0 <= j < k ==> SumsAgree(source, target, sumCols[j])
    ensures AggregationCheck(source, target, sumCols) == Fail(SumMismatchOf(source, target, sumCols[k]))
    decreases k
  {
    if k > 0 {
      var rest := sumCols[1..];
      assert SumsAgree(source, target, sumCols[0]);
      forall j | 0 <= j < k - 1 ensures SumsAgree(source, target, rest[j]) {
        assert rest[j] == sumCols[j + 1];
      }
      AggregationFirstFailure(source, target, rest, k - 1);
    }
  }

  /** A table compared with itself always passes the aggregation check. */
  lemma AggregationOfSelf(t: Table, sumCols: seq<Measure>)
    ensures AggregationCheck(t, t, sumCols) == Pass
  {
    AggregationCheckPass(t, t, sumCols);
  }

  /** Two tables with one loan row each: totals differing by exactly the
      tolerance (0.01 against 0.0) pass, totals differing by 0.011 fail. */
  lemma AggregationBoundary(q: QueryRow, now: Timestamp)
    requires q.totalLoanAmount == Some(0.0)
    ensures AggregationCheck([DeriveRow(q.(totalLoanAmount := Some(0.01)), now)], [DeriveRow(q, now)], [TotalLoanAmount]) == Pass
    ensures AggregationCheck([DeriveRow(q.(totalLoanAmount := Some(0.011)), now)], [DeriveRow(q, now)], [TotalLoanAmount]).Fail?
  {
    var a, b, c := [DeriveRow(q.(totalLoanAmount := Some(0.01)), now)], [DeriveRow(q, now)],
                   [DeriveRow(q.(totalLoanAmount := Some(0.011)), now)];
    assert a[..0] == [] && b[..0] == [] && c[..0] == [];
    assert ColumnSum(a, TotalLoanAmount) == 0.01;
    assert ColumnSum(b, TotalLoanAmount) == 0.0;
    assert ColumnSum(c, TotalLoanAmount) == 0.011;
  }

  // ---------------------------------------------------------------------------
  // 3. Duplicates on (customer_id, report_generated_at)

  /** The duplicate-detection key. */
  function Key(row: ReportRow): (Option<int>, Timestamp) {
    (row.query.customerId, row.reportGeneratedAt)
  }

  /** `duplicated(keep=False)`: row `i` is flagged when any other row has its key. */
  predicate IsDuplicated(t: Table, i: int)
    requires 0 <= i < |t|
  {
    exists j :: 0 <= j < |t| && j != i && Key(t[j]) == Key(t[i])
  }

  function FlaggedRows(t: Table): set<int> {
    set i | 0 <= i < |t| && IsDuplicated(t, i)
  }

  /** No row is flagged exactly when no row is duplicated. */
  lemma NoneFlagged(t: Table)
    ensures FlaggedRows(t) == {} <==> forall i :: 0 <= i < |t| ==> !IsDuplicated(t, i)
  {
    if FlaggedRows(t) == {} {
      forall i | 0 <= i < |t| ensures !IsDuplicated(t, i) {
        assert i !in FlaggedRows(t);
      }
    }
  }

  /** A flagged row brings its partner along, and at most every row is flagged. */
  lemma FlaggedRowsBounds(t: Table)
    requires FlaggedRows(t) != {}
    ensures 2 <= |FlaggedRows(t)| <= |t|
  {
    var flagged := FlaggedRows(t);
    var i :| i in flagged;
    assert IsDuplicated(t, i);
    var j :| 0 <= j < |t| && j != i && Key(t[j]) == Key(t[i]);
    assert IsDuplicated(t, j);
    SubsetSize({i, j}, flagged);
    IndicesBelow(|t|);
    SubsetSize(flagged, Indices(|t|));
  }

  lemma SubsetSize(a: set<int>, b: set<int>)
    requires a <= b
    ensures |a| <= |b|
  {
    assert b == a + (b - a);
  }

  /** The indices `0 .. n - 1`. */
  function Indices(n: nat): set<int> {
    if n == 0 then {} else Indices(n - 1) + {n - 1}
  }

  lemma {:induction false} IndicesBelow(n: nat)
    ensures |Indices(n)| == n
    ensures forall i :: i in Indices(n) <==> 0 <= i < n
  {
    if n > 0 {
      IndicesBelow(n - 1);
    }
  }

  /** `check_duplicates`: fails with the number of flagged rows. */
  function CheckDuplicates(t: Table): (r: Check)
    ensures r.Pass? <==> forall i :: 0 <= i < |t| ==> !IsDuplicated(t, i)
    ensures r.Fail? ==> r.error == DuplicateRows(|FlaggedRows(t)|) && 2 <= |FlaggedRows(t)| <= |t|
  {
    var flagged := FlaggedRows(t);
    NoneFlagged(t);
    if flagged != {} then
      FlaggedRowsBounds(t);
      Fail(DuplicateRows(|flagged|))
    else
      Pass
  }

  /** The duplicate check fails exactly when two distinct rows share a key, and
      then both rows are counted, so the count is at least two. */
  lemma DuplicatesMeaning(t: Table)
    ensures CheckDuplicates(t).Fail? <==>
            exists i, j :: 0 <= i < |t| && 0 <= j < |t| && i != j && Key(t[i]) == Key(t[j])
    ensures CheckDuplicates(t).Fail? ==> CheckDuplicates(t).error.duplicateCount >= 2
  {
    if CheckDuplicates(t).Fail? {
      var i :| i in FlaggedRows(t);
      var j :| 0 <= j < |t| && j != i && Key(t[j]) == Key(t[i]);
      assert j in FlaggedRows(t);
      var rest := FlaggedRows(t) - {i, j};
      assert FlaggedRows(t) == {i, j} + rest;
    } else {
      forall i, j | 0 <= i < |t| && 0 <= j < |t| && i != j
        ensures Key(t[i]) != Key(t[j])
      {
        assert i !in FlaggedRows(t);
      }
    }
  }

  /** A single pair of rows sharing a key, every other key unique, reports a
      duplicate count of two. */
  lemma SingleDuplicatePair(t: Table, i: nat, j: nat)
    requires i < |t| && j < |t| && i != j && Key(t[i]) == Key(t[j])
    requires forall k, l :: 0 <= k < |t| && 0 <= l < |t| && k != l && Key(t[k]) == Key(t[l]) ==>
                            {k, l} == {i, j}
    ensures CheckDuplicates(t) == Fail(DuplicateRows(2))
  {
    assert i in FlaggedRows(t) && j in FlaggedRows(t);
    forall k | k in FlaggedRows(t) ensures k == i || k == j {
      var l :| 0 <= l < |t| && l != k && Key(t[l]) == Key(t[k]);
      assert {k, l} == {i, j};
    }
    assert FlaggedRows(t) == {i, j};
  }

  // ---------------------------------------------------------------------------
  // 4. Nulls in required columns

  /** `isnull().sum()` of one column. */
  function NullCount(t: Table, c: Column): nat {
    if t == [] then 0 else NullCount(t[..|t| - 1], c) + (if IsNull(t[|t| - 1], c) then 1 else 0)
  }

  /** A column's null count is positive exactly when some cell of it is missing. */
  lemma {:induction false} NullCountPositive(t: Table, c: Column)
    ensures NullCount(t, c) > 0 <==> exists i :: 0 <= i < |t| && IsNull(t[i], c)
  {
    if t != [] {
      var front := t[..|t| - 1];
      NullCountPositive(front, c);
      assert forall i :: 0 <= i < |front| ==> front[i] == t[i];
    }
  }

  /** The `(column, count)` lines of the error message: every required column
      with a positive null count, in list order. */
  function NullReport(t: Table, cols: seq<Column>): seq<(Column, nat)> {
    if cols == [] then []
    else
      var c := cols[|cols| - 1];
      NullReport(t, cols[..|cols| - 1]) + (if NullCount(t, c) > 0 then [(c, NullCount(t, c))] else [])
  }

  /** An entry is in the report exactly when it names a required column with
      its positive null count. */
  lemma {:induction false} NullReportMeaning(t: Table, cols: seq<Column>, e: (Column, nat))
    ensures e in NullReport(t, cols) <==> e.0 in cols && e.1 == NullCount(t, e.0) && e.1 > 0
  {
    if cols != [] {
      NullReportMeaning(t, cols[..|cols| - 1], e);
      assert cols == cols[..|cols| - 1] + [cols[|cols| - 1]];
    }
  }

  function NullCheck(t: Table, cols: seq<Column>): Check {
    var report := NullReport(t, cols);
    if report != [] then Fail(NullValues(report)) else Pass
  }

  /** `check_null_values`: the loop that writes one message line per column with nulls. */
  method CheckNullValues(t: Table, requiredCols: seq<Column>) returns (r: Check)
    ensures r == NullCheck(t, requiredCols)
  {
    var lines: seq<(Column, nat)> := [];
    for i := 0 to |requiredCols|
      invariant lines == NullReport(t, requiredCols[..i])
    {
      assert requiredCols[..i + 1][..i] == requiredCols[..i];
      var col := requiredCols[i];
      var count := NullCount(t, col);
      if count > 0 {
        lines := lines + [(col, count)];
      }
    }
    assert requiredCols[..|requiredCols|] == requiredCols;
    if lines != [] {
      return Fail(NullValues(lines));
    }
    return Pass;
  }

  /** The null check fails exactly when some required column has a missing cell;
      its report then lists every such column, not only the first. */
  lemma NullCheckMeaning(t: Table, cols: seq<Column>)
    ensures NullCheck(t, cols).Fail? <==>
            exists k, i :: 0 <= k < |cols| && 0 <= i < |t| && IsNull(t[i], cols[k])
    ensures NullCheck(t, cols).Fail? ==>
            forall k :: 0 <= k < |cols| && NullCount(t, cols[k]) > 0 ==>
              (cols[k], NullCount(t, cols[k])) in NullCheck(t, cols).error.nullCounts
  {
    forall k | 0 <= k < |cols| && NullCount(t, cols[k]) > 0
      ensures (cols[k], NullCount(t, cols[k])) in NullReport(t, cols)
    {
      NullReportMeaning(t, cols, (cols[k], NullCount(t, cols[k])));
    }
    forall k, i | 0 <= k < |cols| && 0 <= i < |t| && IsNull(t[i], cols[k])
      ensures NullCount(t, cols[k]) > 0
    {
      NullCountPositive(t, cols[k]);
    }
    if NullReport(t, cols) != [] {
      var e := NullReport(t, cols)[0];
      NullReportMeaning(t, cols, e);
      NullCountPositive(t, e.0);
      var k :| 0 <= k < |cols| && cols[k] == e.0;
      var i :| 0 <= i < |t| && IsNull(t[i], e.0);
      assert IsNull(t[i], cols[k]);
    }
  }

  // ---------------------------------------------------------------------------
  // 5. Value ranges

  /** One entry of the range mapping: inclusive bounds for a numeric column. */
  datatype Bounds = Bounds(measure: Measure, min: real, max: real)

  /** `(v < min) | (v > max)`; both comparisons are false for a missing value. */
  predicate OutOfBounds(v: Option<real>, b: Bounds) {
    v.Some? && (v.value < b.min || v.value > b.max)
  }

  /** The number of rows selected by the out-of-range mask. */
  function OutOfRangeCount(t: Table, b: Bounds): nat {
    if t == [] then 0
    else OutOfRangeCount(t[..|t| - 1], b) + (if OutOfBounds(ValueOf(t[|t| - 1], b.measure), b) then 1 else 0)
  }

  /** No row is counted exactly when every present value lies within the
      bounds, ends included. */
  lemma {:induction false} OutOfRangeCountZero(t: Table, b: Bounds)
    ensures OutOfRangeCount(t, b) == 0 <==>
            forall i :: 0 <= i < |t| && ValueOf(t[i], b.measure).Some? ==>
              b.min <= ValueOf(t[i], b.measure).value <= b.max
  {
    if t != [] {
      var front := t[..|t| - 1];
      OutOfRangeCountZero(front, b);
      assert forall i :: 0 <= i < |front| ==> front[i] == t[i];
    }
  }

  /** The verdict of `validate_data_range`: the first entry, in mapping order,
      with a row out of range. */
  function RangeCheck(t: Table, checks: seq<Bounds>): Check
    decreases |checks|
  {
    if checks == [] then Pass
    else if OutOfRangeCount(t, checks[0]) > 0 then Fail(OutOfRange(checks[0].measure, OutOfRangeCount(t, checks[0])))
    else RangeCheck(t, checks[1..])
  }

  /** The loop of `validate_data_range`. */
  method ValidateDataRange(t: Table, checks: seq<Bounds>) returns (r: Check)
    ensures r == RangeCheck(t, checks)
  {
    var i := 0;
    while i < |checks|
      invariant 0 <= i <= |checks|
      invariant RangeCheck(t, checks) == RangeCheck(t, checks[i..])
    {
      assert checks[i..][1..] == checks[i + 1..];
      var count := OutOfRangeCount(t, checks[i]);
      if count > 0 {
        return Fail(OutOfRange(checks[i].measure, count));
      }
      i := i + 1;
    }
    return Pass;
  }

  /** The range check passes exactly when no listed entry has a row out of range. */
  lemma {:induction false} RangeCheckPassCounts(t: Table, checks: seq<Bounds>)
    ensures RangeCheck(t, checks).Pass? <==> forall k :: 0 <= k < |checks| ==> OutOfRangeCount(t, checks[k]) == 0
    decreases |checks|
  {
    if checks != [] {
      RangeCheckPassCounts(t, checks[1..]);
      assert forall k :: 1 <= k < |checks| ==> checks[k] == checks[1..][k - 1];
    }
  }

  /** When the range check fails, it fails at the first entry, in mapping
      order, with a row out of range and reports how many rows it has. */
  lemma {:induction false} RangeCheckFirstFailure(t: Table, checks: seq<Bounds>, k: nat)
    requires k < |checks| && OutOfRangeCount(t, checks[k]) > 0
    requires forall j :: 0 <= j < k ==> OutOfRangeCount(t, checks[j]) == 0
    ensures RangeCheck(t, checks) == Fail(OutOfRange(checks[k].measure, OutOfRangeCount(t, checks[k])))
    decreases k
  {
    if k > 0 {
      var rest := checks[1..];
      assert OutOfRangeCount(t, checks[0]) == 0;
      forall j | 0 <= j < k - 1 ensures OutOfRangeCount(t, rest[j]) == 0 {
        assert rest[j] == checks[j + 1];
      }
      RangeCheckFirstFailure(t, rest, k - 1);
    }
  }

  /** The range check passes exactly when no present value of any listed
      column lies outside its bounds. */
  lemma RangeCheckMeaning(t: Table, checks: seq<Bounds>)
    ensures RangeCheck(t, checks).Pass? <==>
            forall k, i :: 0 <= k < |checks| && 0 <= i < |t| ==> !OutOfBounds(ValueOf(t[i], checks[k].measure), checks[k])
  {
    RangeCheckPassCounts(t, checks);
    forall k | 0 <= k < |checks|
      ensures OutOfRangeCount(t, checks[k]) == 0 <==>
              forall i :: 0 <= i < |t| ==> !OutOfBounds(ValueOf(t[i], checks[k].measure), checks[k])
    {
      OutOfRangeCountZero(t, checks[k]);
    }
  }

  // ---------------------------------------------------------------------------
  // The suite

  /** The columns whose sums must agree. */
  const SumColumns: seq<Measure> := [TotalLoanAmount, TotalTransactionAmount]

  /** The grouping columns handed to the aggregation check (unused by it). */
  const GroupColumns: seq<Column> := [CustomerId]

  /** The columns that must not contain a missing value. */
  const RequiredColumns: seq<Column> := [CustomerId, Name, Numeric(TotalLoans), Numeric(TotalLoanAmount)]

  /** The inclusive bounds, in the order they are checked. */
  const RangeLimits: seq<Bounds> := [
    Bounds(TotalLoanAmount, 0.0, 1000000000.0),
    Bounds(TotalTransactionAmount, 0.0, 1000000000.0),
    Bounds(TotalLoans, 0.0, 1000.0),
    Bounds(TotalTransactions, 0.0, 10000.0)
  ]

  /** Checks 3 to 5, which look at the target only. */
  function TargetChecks(target: Table): Check {
    var duplicates := CheckDuplicates(target);
    if duplicates.Fail? then duplicates
    else
      var nulls := NullCheck(target, RequiredColumns);
      if nulls.Fail? then nulls
      else RangeCheck(target, RangeLimits)
  }

  /** The verdict of `validate_report_data`: the checks in order, the first
      failure ending the suite. */
  function ReportChecks(source: Table, target: Table): Check {
    var rowCount := ValidateRowCount(source, target);
    if rowCount.Fail? then rowCount
    else
      var sums := AggregationCheck(source, target, SumColumns);
      if sums.Fail? then sums
      else TargetChecks(target)
  }

  /** `validate_report_data`: runs the five checks, stopping at the first failure. */
  method ValidateReportData(source: Table, target: Table) returns (r: Check)
    ensures r == ReportChecks(source, target)
  {
    r := ValidateRowCount(source, target);
    if r.Fail? { return; }
    r := ValidateAggregation(source, target, GroupColumns, SumColumns);
    if r.Fail? { return; }
    r := CheckDuplicates(target);
    if r.Fail? { return; }
    r := CheckNullValues(target, RequiredColumns);
    if r.Fail? { return; }
    r := ValidateDataRange(target, RangeLimits);
  }

  /** The suite passes exactly when the counts are equal, both sums agree, no
      two target rows share a key, no required cell is missing and every
      present value is within its bounds. */
  lemma ReportChecksPass(source: Table, target: Table)
    ensures ReportChecks(source, target).Pass? <==>
      && |source| == |target|
      && (forall k :: 0 <= k < |SumColumns| ==> SumsAgree(source, target, SumColumns[k]))
      && (forall i, j :: 0 <= i < |target| && 0 <= j < |target| && i != j ==> Key(target[i]) != Key(target[j]))
      && (forall k, i :: 0 <= k < |RequiredColumns| && 0 <= i < |target| ==> !IsNull(target[i], RequiredColumns[k]))
      && (forall k, i :: 0 <= k < |RangeLimits| && 0 <= i < |target| ==>
            !OutOfBounds(ValueOf(target[i], RangeLimits[k].measure), RangeLimits[k]))
  {
    AggregationCheckPass(source, target, SumColumns);
    DuplicatesMeaning(target);
    NullCheckMeaning(target, RequiredColumns);
    RangeCheckMeaning(target, RangeLimits);
  }

  /** Validating a table against itself leaves only the target checks. */
  lemma ReportChecksOnFreshTable(batch: Table)
    ensures ReportChecks(batch, batch) == TargetChecks(batch)
  {
    AggregationOfSelf(batch, SumColumns);
  }

  /** `total_loan_amount` is a required column, so a batch with a customer
      whose loan total is NULL (a customer without loans) fails the suite even
      on a table that was empty before the append. */
  lemma NoLoansFailsFresh(rows: seq<QueryRow>, now: Timestamp, i: nat)
    requires i < |rows| && rows[i].totalLoanAmount.None?
    ensures ReportChecks(ReportBatch(rows, now), ReportBatch(rows, now)).Fail?
  {
    var b := ReportBatch(rows, now);
    ReportChecksPass(b, b);
    assert IsNull(b[i], RequiredColumns[3]);
  }

  /** A target holding earlier rows besides the batch always fails the row-count check. */
  lemma ReportChecksOnAccumulatedTable(prior: Table, batch: Table)
    requires prior != []
    ensures ReportChecks(batch, prior + batch) == Fail(RowCountMismatch(|batch|, |prior| + |batch|))
  {
  }
}
