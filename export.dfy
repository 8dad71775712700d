/** `storage/export.py`: exporting a stored OHLCV table for Backtrader (a
    CSV table) and for vectorbt (one array per column).

    Reading the Parquet file and writing the CSV or NPZ file are outside
    this model: the exports take the table read and give back the table
    or the arrays written. */
module Export {
  import opened Wrappers
  import opened Text
  import opened Schema

  /** REQUIRED_OHLCV_COLUMNS. */
  const RequiredColumns: seq<string> := ["datetime", "open", "high", "low", "close", "volume"]

  const OpenInterestColumn: string := "openinterest"

  /** The names of `required` that `columns` lacks, in their order. */
  function Missing(required: seq<string>, columns: seq<string>): (missing: seq<string>)
    ensures |missing| <= |required|
    ensures forall c :: c in missing <==> c in required && c !in columns
  {
    if required == [] then []
    else (if required[0] in columns then [] else [required[0]]) + Missing(required[1..], columns)
  }

  /** The required columns the table lacks, in their required order. */
  function MissingColumns(columns: seq<string>): (missing: seq<string>)
    ensures forall c :: c in missing <==> c in RequiredColumns && c !in columns
  {
    Missing(RequiredColumns, columns)
  }

  /** `_validate_ohlcv_columns`: a ValueError naming every missing column. */
  function ValidateColumns(columns: seq<string>): (r: Option<Exc>)
    ensures r.None? <==> forall c :: c in RequiredColumns ==> c in columns
    ensures r.Some? ==> r.value == ValueError("parquet 缺少必需列: " + JoinWith(MissingColumns(columns), ", "))
  {
    var missing := MissingColumns(columns);
    if missing == [] then None
    else
      assert missing[0] in missing;
      Some(ValueError("parquet 缺少必需列: " + JoinWith(missing, ", ")))
  }

  /** `export_backtrader_csv`: the validated table, with an "openinterest"
      column of zeros added when it has none. */
  function BacktraderTable(t: Table): (r: Result<Table>)
    ensures r.Err? <==> ValidateColumns(t.columns).Some?
    ensures r.Err? ==> r.error == ValidateColumns(t.columns).value
    ensures r.Ok? && OpenInterestColumn in t.columns ==> r.value == t
    ensures r.Ok? && OpenInterestColumn !in t.columns ==>
      && r.value.columns == t.columns + [OpenInterestColumn]
      && |r.value.rows| == |t.rows|
      && forall i :: 0 <= i < |t.rows| ==> r.value.rows[i] == t.rows[i][OpenInterestColumn := 0]
  {
    var check := ValidateColumns(t.columns);
    if check.Some? then Err(check.value)
    else if OpenInterestColumn in t.columns then Ok(t)
    else Ok(Table(t.columns + [OpenInterestColumn],
                  seq(|t.rows|, i requires 0 <= i < |t.rows| => t.rows[i][OpenInterestColumn := 0])))
  }

  /** Exporting an exported table again changes nothing. */
  lemma BacktraderIdempotent(t: Table)
    requires BacktraderTable(t).Ok?
    ensures BacktraderTable(BacktraderTable(t).value) == BacktraderTable(t)
  {
    var u := BacktraderTable(t).value;
    assert OpenInterestColumn in u.columns;
    assert forall c :: c in RequiredColumns ==> c in u.columns;
  }

  /** The Backtrader export keeps every value the table had, and each row's
      datetime. */
  lemma BacktraderKeepsValues(t: Table, i: int, c: string)
    requires BacktraderTable(t).Ok? && 0 <= i < |t.rows|
    requires c in t.rows[i] && c != OpenInterestColumn
    ensures c in BacktraderTable(t).value.rows[i] && BacktraderTable(t).value.rows[i][c] == t.rows[i][c]
  {
  }

  /** A column as an array: the value of each row, or None when null. */
  function Column(t: Table, c: string): (a: seq<Option<int>>)
    ensures |a| == |t.rows|
    ensures forall i :: 0 <= i < |t.rows| ==> a[i] == (if c in t.rows[i] then Some(t.rows[i][c]) else None)
  {
    seq(|t.rows|, i requires 0 <= i < |t.rows| => if c in t.rows[i] then Some(t.rows[i][c]) else None)
  }

  /** The names of the arrays the vectorbt export writes. */
  function VectorbtNames(columns: seq<string>): (names: set<string>)
    ensures AdjustedColumn in names <==> AdjustedColumn in columns
  {
    (set c | c in RequiredColumns) + (if AdjustedColumn in columns then {AdjustedColumn} else {})
  }

  /** `export_vectorbt_npz`: one array per required column, plus
      "adjusted_close" when the table has it. */
  function VectorbtArrays(t: Table): (r: Result<map<string, seq<Option<int>>>>)
    ensures r.Err? <==> ValidateColumns(t.columns).Some?
    ensures r.Err? ==> r.error == ValidateColumns(t.columns).value
    ensures r.Ok? ==> r.value.Keys == VectorbtNames(t.columns)
    ensures r.Ok? ==> forall c :: c in r.value ==> r.value[c] == Column(t, c)
  {
    var check := ValidateColumns(t.columns);
    if check.Some? then Err(check.value)
    else Ok(map c | c in VectorbtNames(t.columns) :: Column(t, c))
  }

  /** Both exports accept exactly the same tables. */
  lemma ExportsAgree(t: Table)
    ensures BacktraderTable(t).Ok? <==> VectorbtArrays(t).Ok?
  {
  }

  /** A table with all base columns passes the check. */
  lemma BaseColumnsAccepted()
    ensures ValidateColumns(BaseColumns).None?
  {
  }

  /** Nothing is missing when every name is there. */
  lemma {:induction false} NoneMissing(required: seq<string>, columns: seq<string>)
    requires forall j :: 0 <= j < |required| ==> required[j] in columns
    ensures Missing(required, columns) == []
  {
    if required != [] {
      NoneMissing(required[1..], columns);
    }
  }

  /** When `required[k]` is the only name missing, it is the whole list. */
  lemma {:induction false} MissingSingle(required: seq<string>, columns: seq<string>, k: nat)
    requires k < |required| && required[k] !in columns
    requires forall j :: 0 <= j < |required| && j != k ==> required[j] in columns
    ensures Missing(required, columns) == [required[k]]
  {
    if k == 0 {
      NoneMissing(required[1..], columns);
    } else {
      MissingSingle(required[1..], columns, k - 1);
    }
  }

  /** A table lacking one required column is refused with that name alone. */
  lemma OneMissingNamed(columns: seq<string>, k: nat)
    requires k < |RequiredColumns| && RequiredColumns[k] !in columns
    requires forall j :: 0 <= j < |RequiredColumns| && j != k ==> RequiredColumns[j] in columns
    ensures ValidateColumns(columns) == Some(ValueError("parquet 缺少必需列: " + RequiredColumns[k]))
  {
    MissingSingle(RequiredColumns, columns, k);
  }
}
