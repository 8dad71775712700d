/** Column names of stored OHLCV tables, and tables themselves.

    A table is its column list and its rows. A row maps a column name to
    its value; a column the row has no entry for is null there. Values are
    integers: the timestamp of the "datetime" column is an instant in
    seconds, and prices and volumes are compared only with each other and
    with zero. */
module Schema {
  import opened Wrappers
  import opened Text

  const DatetimeColumn: string := "datetime"
  const CloseColumn: string := "close"

  /** BASE_COLUMNS, in their stored order. */
  const BaseColumns: seq<string> := ["datetime", "open", "high", "low", "close", "volume"]

  /** ADJUSTED_COLUMN. */
  const AdjustedColumn: string := "adjusted_close"

  type Row = map<string, int>

  datatype Table = Table(columns: seq<string>, rows: seq<Row>)

  /** The datetime of a row, or None when it is null there. */
  function Key(r: Row): Option<int> {
    if DatetimeColumn in r then Some(r[DatetimeColumn]) else None
  }

  /** A table with no rows (`DataFrame.is_empty()`). */
  predicate IsEmpty(t: Table) {
    |t.rows| == 0
  }

  /** One column name as normalised: stripped, lower-cased, spaces to underscores. */
  function NormalizeName(c: string): (r: string)
    ensures ' ' !in r
  {
    var l := Lower(Strip(c));
    seq(|l|, i requires 0 <= i < |l| => if l[i] == ' ' then '_' else l[i])
  }

  predicate Distinct(s: seq<string>) {
    forall i, j :: 0 <= i < j < |s| ==> s[i] != s[j]
  }

  /** Replace column `from` by `to`, keeping its position. */
  function RenameColumn(cols: seq<string>, from: string, to: string): (r: seq<string>)
    ensures |r| == |cols|
    ensures forall i :: 0 <= i < |cols| ==> r[i] == (if cols[i] == from then to else cols[i])
  {
    seq(|cols|, i requires 0 <= i < |cols| => if cols[i] == from then to else cols[i])
  }

  /** Every column name normalised, in order. */
  function NormalizedNames(cols: seq<string>): (r: seq<string>)
    ensures |r| == |cols|
    ensures forall i :: 0 <= i < |cols| ==> r[i] == NormalizeName(cols[i])
  {
    seq(|cols|, i requires 0 <= i < |cols| => NormalizeName(cols[i]))
  }

  /** Renaming to a name not already present keeps the names distinct. */
  lemma RenameDistinct(cols: seq<string>, from: string, to: string)
    requires Distinct(cols) && to !in cols
    ensures Distinct(RenameColumn(cols, from, to))
  {
  }

  /** `normalize_ohlcv_columns` on the column names. A frame cannot hold
      two columns of the same name, so two inputs that normalise to one
      name are an error. */
  function NormalizeOhlcvColumns(cols: seq<string>): (r: Result<seq<string>>)
    ensures r.Ok? <==> Distinct(NormalizedNames(cols))
    ensures r.Ok? ==> |r.value| == |cols| && Distinct(r.value)
    ensures r.Ok? ==> forall i :: 0 <= i < |cols| ==> ' ' !in r.value[i]
  {
    var lowered := NormalizedNames(cols);
    if !Distinct(lowered) then Err(Exc("DuplicateError", "column names must be unique"))
    else
      var a := RenameIfAbsent(lowered, "date", DatetimeColumn);
      Ok(RenameIfAbsent(a, "adj_close", AdjustedColumn))
  }

  /** Rename `from` to `to` only when `to` is not already a column. */
  function RenameIfAbsent(cols: seq<string>, from: string, to: string): (r: seq<string>)
    requires Distinct(cols) && ' ' !in to
    ensures |r| == |cols| && Distinct(r)
    ensures (forall i :: 0 <= i < |cols| && ' ' !in cols[i] ==> ' ' !in r[i])
  {
    if from in cols && to !in cols then
      RenameDistinct(cols, from, to);
      RenameColumn(cols, from, to)
    else cols
  }

  /** The renaming rule: a "date" column becomes "datetime" exactly when no
      "datetime" column exists, other names are kept, and afterwards a
      "datetime" column exists exactly when either name was present. */
  lemma RenameIfAbsentSpec(cols: seq<string>, from: string, to: string)
    requires Distinct(cols) && ' ' !in to && from != to
    ensures var r := RenameIfAbsent(cols, from, to);
      && (forall i :: 0 <= i < |cols| && cols[i] != from ==> r[i] == cols[i])
      && (forall i :: 0 <= i < |cols| && cols[i] == from ==> r[i] == (if to in cols then from else to))
      && (to in r <==> to in cols || from in cols)
  {
    var r := RenameIfAbsent(cols, from, to);
    if from in cols {
      var k :| 0 <= k < |cols| && cols[k] == from;
      assert r[k] == to || to in cols;
    }
    if to in r && to !in cols {
      var k :| 0 <= k < |r| && r[k] == to;
      assert cols[k] == from;
    }
  }

  datatype SchemaInfo = SchemaInfo(columns: seq<string>, hasAdjusted: bool)

  /** `schema_info`: the base columns, then "adjusted_close" exactly when the
      frame has it. */
  function GetSchemaInfo(cols: seq<string>): (r: SchemaInfo)
    ensures r.hasAdjusted <==> AdjustedColumn in cols
    ensures |r.columns| == (if AdjustedColumn in cols then 7 else 6)
    ensures r.columns[..6] == BaseColumns
    ensures AdjustedColumn in r.columns <==> AdjustedColumn in cols
  {
    var has := AdjustedColumn in cols;
    SchemaInfo(if has then BaseColumns + [AdjustedColumn] else BaseColumns, has)
  }
}
