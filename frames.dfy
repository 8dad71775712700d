/** The frame operations the pipeline applies to OHLCV tables: diagonal
    concatenation, `unique(subset=["datetime"], keep="last")`, `sort("datetime")`
    (nulls first) and column selection. */
module Frames {
  import opened Wrappers
  import opened Schema

  /** Null sorts before every timestamp. */
  predicate KeyLess(a: Option<int>, b: Option<int>) {
    (a.None? && b.Some?) || (a.Some? && b.Some? && a.value < b.value)
  }

  /** Datetimes strictly increase along the rows. */
  predicate StrictlySorted(rows: seq<Row>) {
    forall i, j :: 0 <= i < j < |rows| ==> KeyLess(Key(rows[i]), Key(rows[j]))
  }

  /** The datetimes (null included) the rows carry. */
  function Keys(rows: seq<Row>): set<Option<int>> {
    set i | 0 <= i < |rows| :: Key(rows[i])
  }

  lemma KeysCons(r: Row, rows: seq<Row>)
    ensures Keys([r] + rows) == {Key(r)} + Keys(rows)
  {
    var s := [r] + rows;
    forall k | k in Keys(s) ensures k in {Key(r)} + Keys(rows) {
      var i :| 0 <= i < |s| && Key(s[i]) == k;
      if i > 0 { assert s[i] == rows[i - 1]; }
    }
    forall k | k in Keys(rows) ensures k in Keys(s) {
      var i :| 0 <= i < |rows| && Key(rows[i]) == k;
      assert s[i + 1] == rows[i];
    }
    assert Key(s[0]) in Keys(s);
  }

  lemma KeysAppend(a: seq<Row>, b: seq<Row>)
    ensures Keys(a + b) == Keys(a) + Keys(b)
  {
    var s := a + b;
    forall k | k in Keys(s) ensures k in Keys(a) + Keys(b) {
      var i :| 0 <= i < |s| && Key(s[i]) == k;
      if i >= |a| { assert s[i] == b[i - |a|]; }
    }
    forall k | k in Keys(a) ensures k in Keys(s) {
      var i :| 0 <= i < |a| && Key(a[i]) == k;
      assert s[i] == a[i];
    }
    forall k | k in Keys(b) ensures k in Keys(s) {
      var i :| 0 <= i < |b| && Key(b[i]) == k;
      assert s[i + |a|] == b[i];
    }
  }

  /** The last row of `rows` whose datetime is `k`. */
  function LastWith(rows: seq<Row>, k: Option<int>): (r: Row)
    requires k in Keys(rows)
    ensures Key(r) == k && r in rows
  {
    KeysCons(rows[0], rows[1..]);
    assert rows == [rows[0]] + rows[1..];
    if k in Keys(rows[1..]) then LastWith(rows[1..], k) else rows[0]
  }

  /** Later rows override earlier ones: the last row with a datetime the
      second part carries comes from the second part, and one it does not
      carry comes from the first part. */
  lemma {:induction false} LastWithAppend(a: seq<Row>, b: seq<Row>, k: Option<int>)
    requires k in Keys(a) + Keys(b)
    ensures k in Keys(a + b)
    ensures LastWith(a + b, k) == (if k in Keys(b) then LastWith(b, k) else LastWith(a, k))
  {
    KeysAppend(a, b);
    if a == [] {
      assert a + b == b;
    } else {
      assert (a + b)[1..] == a[1..] + b;
      KeysAppend(a[1..], b);
      KeysCons(a[0], a[1..]);
      assert a == [a[0]] + a[1..];
      if k in Keys(a[1..]) + Keys(b) {
        LastWithAppend(a[1..], b, k);
      }
    }
  }

  /** The rows whose datetime does not occur again later, in order. */
  function UniqueLast(rows: seq<Row>): (u: seq<Row>)
    ensures Keys(u) == Keys(rows)
    ensures forall i, j :: 0 <= i < j < |u| ==> Key(u[i]) != Key(u[j])
    ensures forall i :: 0 <= i < |u| ==> u[i] == LastWith(rows, Key(u[i]))
  {
    if rows == [] then []
    else
      var rest := UniqueLast(rows[1..]);
      KeysCons(rows[0], rows[1..]);
      assert rows == [rows[0]] + rows[1..];
      if Key(rows[0]) in Keys(rows[1..]) then rest
      else
        KeysCons(rows[0], rest);
        var u := [rows[0]] + rest;
        assert forall i :: 0 < i < |u| ==> u[i] == rest[i - 1];
        assert forall i :: 0 < i < |u| ==> Key(u[i]) in Keys(rest);
        u
  }

  /** Insert a row before the first row whose datetime is not smaller. */
  function Insert(r: Row, s: seq<Row>): (t: seq<Row>)
    ensures multiset(t) == multiset(s) + multiset{r}
    ensures Keys(t) == Keys(s) + {Key(r)}
  {
    if s == [] || !KeyLess(Key(s[0]), Key(r)) then
      KeysCons(r, s);
      [r] + s
    else
      var t := [s[0]] + Insert(r, s[1..]);
      KeysCons(s[0], Insert(r, s[1..]));
      KeysCons(s[0], s[1..]);
      assert s == [s[0]] + s[1..];
      t
  }

  lemma {:induction false} InsertSorted(r: Row, s: seq<Row>)
    requires StrictlySorted(s) && Key(r) !in Keys(s)
    ensures StrictlySorted(Insert(r, s))
  {
    if s != [] && KeyLess(Key(s[0]), Key(r)) {
      KeysCons(s[0], s[1..]);
      assert s == [s[0]] + s[1..];
      InsertSorted(r, s[1..]);
      var t := Insert(r, s[1..]);
      forall k | 0 <= k < |t| ensures KeyLess(Key(s[0]), Key(t[k])) {
        assert t[k] in multiset(t);
        if t[k] != r {
          assert t[k] in multiset(s[1..]);
          var j :| 0 <= j < |s[1..]| && s[1..][j] == t[k];
          assert s[j + 1] == t[k];
        }
      }
    } else if s != [] {
      assert Key(s[0]) != Key(r);
      assert KeyLess(Key(r), Key(s[0]));
    }
  }

  /** Sort rows by datetime (insertion sort). */
  function SortByKey(s: seq<Row>): (t: seq<Row>)
    ensures multiset(t) == multiset(s)
    ensures Keys(t) == Keys(s)
  {
    if s == [] then []
    else
      KeysCons(s[0], s[1..]);
      assert s == [s[0]] + s[1..];
      Insert(s[0], SortByKey(s[1..]))
  }

  lemma {:induction false} SortByKeySorted(s: seq<Row>)
    requires forall i, j :: 0 <= i < j < |s| ==> Key(s[i]) != Key(s[j])
    ensures StrictlySorted(SortByKey(s))
  {
    if s != [] {
      SortByKeySorted(s[1..]);
      KeysCons(s[0], s[1..]);
      forall k | k in Keys(s[1..]) ensures k != Key(s[0]) {
        var j :| 0 <= j < |s[1..]| && Key(s[1..][j]) == k;
        assert s[1..][j] == s[j + 1];
      }
      InsertSorted(s[0], SortByKey(s[1..]));
    }
  }

  /** `df.unique(subset=["datetime"], keep="last").sort("datetime")`: an
      error when the frame has no "datetime" column. */
  function UniqueSorted(t: Table): (r: Result<Table>)
    ensures r.Ok? <==> DatetimeColumn in t.columns
    ensures r.Ok? ==> r.value.columns == t.columns
  {
    if DatetimeColumn !in t.columns then Err(Exc("ColumnNotFoundError", "datetime"))
    else Ok(Table(t.columns, SortByKey(UniqueLast(t.rows))))
  }

  /** What de-duplication and sorting promise: datetimes strictly
      increase, they are exactly the datetimes of the input, and each row
      is the last input row with its datetime. */
  lemma UniqueSortedSpec(t: Table)
    requires DatetimeColumn in t.columns
    ensures var r := UniqueSorted(t).value.rows;
      && StrictlySorted(r)
      && Keys(r) == Keys(t.rows)
      && (forall i :: 0 <= i < |r| ==> r[i] == LastWith(t.rows, Key(r[i])))
  {
    var u := UniqueLast(t.rows);
    SortByKeySorted(u);
    var r := SortByKey(u);
    forall i | 0 <= i < |r| ensures r[i] == LastWith(t.rows, Key(r[i])) {
      assert r[i] in multiset(u);
      var j :| 0 <= j < |u| && u[j] == r[i];
    }
  }

  /** A table with no columns and no rows (`pl.DataFrame()`). */
  const EmptyTable: Table := Table([], [])

  /** Column names of `a` followed by the names of `b` not already present. */
  function UnionColumns(a: seq<string>, b: seq<string>): (r: seq<string>)
    ensures forall c :: c in r <==> c in a || c in b
    ensures |r| >= |a| && r[..|a|] == a
    decreases |b|
  {
    if b == [] then a
    else if b[0] in a then UnionColumns(a, b[1..])
    else UnionColumns(a + [b[0]], b[1..])
  }

  /** `pl.concat(frames, how="diagonal_relaxed")`: all rows in order, over
      the union of the columns. */
  function ConcatDiagonal(ts: seq<Table>): (r: Table)
    ensures forall c :: c in r.columns <==> exists k :: 0 <= k < |ts| && c in ts[k].columns
  {
    if ts == [] then EmptyTable
    else
      var rest := ConcatDiagonal(ts[1..]);
      assert forall k :: 1 <= k < |ts| ==> ts[k] == ts[1..][k - 1];
      Table(UnionColumns(ts[0].columns, rest.columns), ts[0].rows + rest.rows)
  }

  /** The rows of a concatenation are the rows of the parts, in order. */
  function AllRows(ts: seq<Table>): seq<Row> {
    if ts == [] then [] else ts[0].rows + AllRows(ts[1..])
  }

  lemma {:induction false} ConcatDiagonalRows(ts: seq<Table>)
    ensures ConcatDiagonal(ts).rows == AllRows(ts)
  {
    if ts != [] { ConcatDiagonalRows(ts[1..]); }
  }

  /** A row restricted to the selected columns. */
  function SelectRow(r: Row, cols: seq<string>): (o: Row)
    ensures o.Keys == r.Keys * set c | c in cols
    ensures forall c :: c in o ==> o[c] == r[c]
  {
    map c | c in r && c in cols :: r[c]
  }

  /** `df.select(cols)`. */
  function Select(t: Table, cols: seq<string>): (r: Table)
    ensures r.columns == cols && |r.rows| == |t.rows|
    ensures forall i :: 0 <= i < |t.rows| ==> r.rows[i] == SelectRow(t.rows[i], cols)
  {
    Table(cols, seq(|t.rows|, i requires 0 <= i < |t.rows| => SelectRow(t.rows[i], cols)))
  }

  lemma SelectKeepsKey(r: Row, cols: seq<string>)
    requires DatetimeColumn in cols
    ensures Key(SelectRow(r, cols)) == Key(r)
  {
  }

  /** Selecting columns that include "datetime" keeps each row's datetime,
      hence the set of datetimes and their order. */
  lemma SelectKeepsOrder(t: Table, cols: seq<string>)
    requires DatetimeColumn in cols
    ensures forall i :: 0 <= i < |t.rows| ==> Key(Select(t, cols).rows[i]) == Key(t.rows[i])
    ensures Keys(Select(t, cols).rows) == Keys(t.rows)
    ensures StrictlySorted(t.rows) ==> StrictlySorted(Select(t, cols).rows)
  {
    var rows := Select(t, cols).rows;
    forall i | 0 <= i < |t.rows| ensures Key(rows[i]) == Key(t.rows[i]) {
      SelectKeepsKey(t.rows[i], cols);
    }
    forall k | k in Keys(rows) ensures k in Keys(t.rows) {
      var i :| 0 <= i < |rows| && Key(rows[i]) == k;
    }
    forall k | k in Keys(t.rows) ensures k in Keys(rows) {
      var i :| 0 <= i < |t.rows| && Key(t.rows[i]) == k;
      assert Key(rows[i]) == k;
    }
  }
}
