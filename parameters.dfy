/** The `etl_parameters` table of the remote database: a key/value store of
    operational settings. The table's only key is the auto-incremented
    `param_id`; nothing makes `param_name` unique. */
module Parameters {
  import opened Wrappers

  /** One stored row. `created_at` and `updated_at` are left out. */
  datatype Parameter = Parameter(id: nat, name: string, value: Option<string>, description: string)

  /** One default inserted by `create_parameter_table`. */
  datatype Seed = Seed(name: string, value: Option<string>, description: string)

  const LastEtlDate := "last_etl_date"
  const BatchSizeName := "batch_size"

  /** The four defaults, in insertion order. */
  const DefaultParams: seq<Seed> := [
    Seed(LastEtlDate, None, "마지막 ETL 실행 일시"),
    Seed(BatchSizeName, Some("1000"), "한 번에 처리할 레코드 수"),
    Seed("retention_days", Some("30"), "데이터 보관 기간(일)"),
    Seed("error_threshold", Some("100"), "오류 허용 임계값")
  ]

  /** The fallback table of `get_parameter`, used when no row matches. */
  function DefaultValue(name: string): Option<string> {
    if name == BatchSizeName then Some("1000")
    else if name == "retention_days" then Some("30")
    else if name == "error_threshold" then Some("100")
    else None  // `last_etl_date` and every unknown name
  }

  /** The rows the four inserts add when the next free `param_id` is `firstId`. */
  function Seeded(firstId: nat): seq<Parameter> {
    seq(|DefaultParams|, k requires 0 <= k < |DefaultParams| =>
      Parameter(firstId + k, DefaultParams[k].name, DefaultParams[k].value, DefaultParams[k].description))
  }

  predicate HasRow(rows: seq<Parameter>, name: string) {
    exists i :: 0 <= i < |rows| && rows[i].name == name
  }

  /** What `get_parameter(name)` may return: a `SELECT` without `ORDER BY`
      answered by `fetchone` yields the value of SOME matching row; when no row
      matches, the fallback value. */
  ghost predicate PossibleValue(rows: seq<Parameter>, name: string, v: Option<string>) {
    if HasRow(rows, name) then exists i :: 0 <= i < |rows| && rows[i].name == name && rows[i].value == v
    else v == DefaultValue(name)
  }

  /** The table after `UPDATE ... SET param_value = v WHERE param_name = name`. */
  function UpdatedRows(rows: seq<Parameter>, name: string, v: Option<string>): (r: seq<Parameter>)
    ensures |r| == |rows|
    ensures forall i :: 0 <= i < |rows| ==>
      r[i].id == rows[i].id && r[i].name == rows[i].name && r[i].description == rows[i].description
    ensures forall i :: 0 <= i < |rows| && rows[i].name == name ==> r[i].value == v
    ensures forall i :: 0 <= i < |rows| && rows[i].name != name ==> r[i] == rows[i]
  {
    seq(|rows|, i requires 0 <= i < |rows| => if rows[i].name == name then rows[i].(value := v) else rows[i])
  }

  /** Each default row holds the value the fallback table gives its name. */
  lemma SeedsMatchDefaults()
    ensures forall k :: 0 <= k < |DefaultParams| ==> DefaultValue(DefaultParams[k].name) == DefaultParams[k].value
  {
  }

  /** After the defaults are appended, a name that had no row reads back as its
      default, whichever matching row is fetched. */
  lemma GetAfterSeeding(rows: seq<Parameter>, firstId: nat, name: string, w: Option<string>)
    requires !HasRow(rows, name)
    requires PossibleValue(rows + Seeded(firstId), name, w)
    ensures w == DefaultValue(name)
  {
    var all := rows + Seeded(firstId);
    if HasRow(all, name) {
      var i :| 0 <= i < |all| && all[i].name == name && all[i].value == w;
      assert i >= |rows|;
      SeedsMatchDefaults();
      assert all[i].value == DefaultParams[i - |rows|].value;
    }
  }

  /** After an update, reading the updated name yields the new value if some row
      had that name, and the fallback otherwise. */
  lemma GetAfterUpdate(rows: seq<Parameter>, name: string, v: Option<string>, w: Option<string>)
    requires PossibleValue(UpdatedRows(rows, name, v), name, w)
    ensures w == if HasRow(rows, name) then v else DefaultValue(name)
  {
    var updated := UpdatedRows(rows, name, v);
    if HasRow(rows, name) {
      var i :| 0 <= i < |rows| && rows[i].name == name;
      assert updated[i].name == name;
    }
  }

  /** An update leaves what every other name reads back unchanged. */
  lemma UpdateKeepsOthers(rows: seq<Parameter>, name: string, v: Option<string>, other: string, w: Option<string>)
    requires other != name
    ensures PossibleValue(UpdatedRows(rows, name, v), other, w) <==> PossibleValue(rows, other, w)
  {
    var updated := UpdatedRows(rows, name, v);
    assert forall i :: 0 <= i < |rows| && rows[i].name == other ==> updated[i] == rows[i];
    assert forall i :: 0 <= i < |rows| ==> (updated[i].name == other <==> rows[i].name == other);
  }

  /** The `etl_parameters` table. */
  class ParameterStore {
    var rows: seq<Parameter>
    /** The next value of the `AUTO_INCREMENT` counter. */
    var nextId: nat

    /** Identifiers are positive, increase in row order and lie below the counter. */
    ghost predicate Valid()
      reads this
    {
      && 0 < nextId
      && (forall i :: 0 <= i < |rows| ==> 0 < rows[i].id < nextId)
      && (forall i, j :: 0 <= i < j < |rows| ==> rows[i].id < rows[j].id)
    }

    /** `CREATE TABLE IF NOT EXISTS` on a database without the table. */
    constructor ()
      ensures Valid() && rows == [] && nextId == 1
    {
      rows := [];
      nextId := 1;
    }

    /** One `INSERT IGNORE`: with no unique key on the name, it always inserts. */
    method Insert(name: string, value: Option<string>, description: string)
      requires Valid()
      modifies this
      ensures Valid()
      ensures rows == old(rows) + [Parameter(old(nextId), name, value, description)]
      ensures nextId == old(nextId) + 1
    {
      rows := rows + [Parameter(nextId, name, value, description)];
      nextId := nextId + 1;
    }

    /** `create_parameter_table`: appends the four defaults, in order, on every call. */
    method CreateParameterTable()
      requires Valid()
      modifies this
      ensures Valid()
      ensures rows == old(rows) + Seeded(old(nextId))
      ensures nextId == old(nextId) + |DefaultParams|
    {
      for k := 0 to |DefaultParams|
        invariant Valid()
        invariant nextId == old(nextId) + k
        invariant rows == old(rows) + Seeded(old(nextId))[..k]
      {
        assert Seeded(old(nextId))[..k + 1] == Seeded(old(nextId))[..k] + [Seeded(old(nextId))[k]];
        var p := DefaultParams[k];
        Insert(p.name, p.value, p.description);
      }
      assert Seeded(old(nextId))[..|DefaultParams|] == Seeded(old(nextId));
    }

    /** `get_parameter`: the value of a matching row (here the first one), or
        the fallback value when none matches. */
    method GetParameter(name: string) returns (v: Option<string>)
      ensures PossibleValue(rows, name, v)
    {
      var i := 0;
      while i < |rows|
        invariant 0 <= i <= |rows|
        invariant forall j :: 0 <= j < i ==> rows[j].name != name
      {
        if rows[i].name == name {
          return rows[i].value;
        }
        i := i + 1;
      }
      return DefaultValue(name);
    }

    /** `update_parameter`: sets the value of every row with that name. */
    method UpdateParameter(name: string, v: Option<string>)
      requires Valid()
      modifies this
      ensures Valid()
      ensures rows == UpdatedRows(old(rows), name, v)
      ensures nextId == old(nextId)
    {
      rows := UpdatedRows(rows, name, v);
    }
  }

  // ---------------------------------------------------------------------------
  // The batch size: `int(get_parameter(engine, 'batch_size') or 1000)`

  predicate IsDigit(c: char) {
    '0' <= c <= '9'
  }

  predicate AllDigits(s: string) {
    forall i :: 0 <= i < |s| ==> IsDigit(s[i])
  }

  /** The number a string of decimal digits denotes. */
  function DigitsValue(s: string): nat
    requires AllDigits(s)
  {
    if s == [] then 0 else 10 * DigitsValue(s[..|s| - 1]) + (s[|s| - 1] as int - '0' as int)
  }

  /** The ASCII-digit subset of Python's `int(s)` on text: an optional sign
      followed by decimal digits. */
  function ParseInt(s: string): (r: Result<int, string>)
    ensures r.Success? <==>
            (s != [] && AllDigits(s)) || (|s| > 1 && (s[0] == '+' || s[0] == '-') && AllDigits(s[1..]))
    ensures r.Failure? ==> r.error == s
    ensures s != [] && AllDigits(s) ==> r == Success(DigitsValue(s))
    ensures r.Success? && s[0] == '-' ==> r.value == -(DigitsValue(s[1..]) as int)
    ensures r.Success? && s[0] == '+' ==> r.value == DigitsValue(s[1..])
    ensures r.Success? && s[0] != '-' ==> 0 <= r.value
  {
    if |s| > 0 && (s[0] == '+' || s[0] == '-') then
      var digits := s[1..];
      if digits != [] && AllDigits(digits) then
        var magnitude: int := DigitsValue(digits);
        Success(if s[0] == '-' then -magnitude else magnitude)
      else Failure(s)
    else if s != [] && AllDigits(s) then Success(DigitsValue(s))
    else Failure(s)
  }

  /** `int(value or 1000)`: a missing or empty value gives 1000, anything else
      is parsed and may fail. */
  function ParseBatchSize(value: Option<string>): (r: Result<int, string>)
    ensures value.None? || value == Some("") ==> r == Success(1000)
  {
    if value.None? || value.value == "" then Success(1000) else ParseInt(value.value)
  }

  /** The decimal text of a natural number, as `str(n)` writes it. */
  function Decimal(n: nat): string {
    var digit := ['0' + ((n % 10) as char)];
    if n < 10 then digit else Decimal(n / 10) + digit
  }

  lemma {:induction false} DecimalDigits(n: nat)
    ensures Decimal(n) != [] && AllDigits(Decimal(n)) && DigitsValue(Decimal(n)) == n
  {
    if n >= 10 {
      DecimalDigits(n / 10);
      var s := Decimal(n);
      assert s[..|s| - 1] == Decimal(n / 10);
    }
  }

  /** Parsing the decimal text of a number gives the number back. */
  lemma ParseDecimal(n: nat)
    ensures ParseInt(Decimal(n)) == Success(n)
  {
    DecimalDigits(n);
    assert IsDigit(Decimal(n)[0]);
  }

  /** Parsing a minus sign before the decimal text of a number gives its negation. */
  lemma ParseNegatedDecimal(n: nat)
    ensures ParseInt("-" + Decimal(n)) == Success(-(n as int))
  {
    DecimalDigits(n);
    assert ("-" + Decimal(n))[1..] == Decimal(n);
  }

  /** The seeded batch size and the fallback both read as 1000. */
  lemma DefaultBatchSize()
    ensures ParseBatchSize(DefaultValue(BatchSizeName)) == Success(1000)
    ensures ParseBatchSize(DefaultParams[1].value) == Success(1000)
  {
    ParseDecimal(1000);
    assert Decimal(1000) == "1000";
  }
}
