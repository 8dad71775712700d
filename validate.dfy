/** `storage/validate.py`: the quality rules applied to one stored Parquet
    file, and the serial batch over many files.

    A stored file is a `Table`: its column list and rows of optional
    integer values (a column a row has no entry for is null there). The
    fused single-query path and the per-query fallback path are both
    modelled; which one runs, and which fallback queries raise, depends on
    the Parquet engine and is a parameter. The creation time stamped on
    issues is a parameter too. */
module Validate {
  import opened Wrappers
  import opened Text
  import opened Calendar
  import opened TimeUtils
  import opened Schema
  import opened Frames
  import opened Seqs
  import opened FsUtils
  import opened Writer
  import opened Quality

  // ---------------------------------------------------------------------
  //  Row statistics

  /** The number of rows satisfying `p` (a boolean column's `sum()`). */
  function CountRows(rows: seq<Row>, p: Row -> bool): (n: nat)
    ensures n <= |rows|
    ensures n == 0 <==> forall i :: 0 <= i < |rows| ==> !p(rows[i])
  {
    if rows == [] then 0
    else
      var init := rows[..|rows| - 1];
      var n := CountRows(init, p) + (if p(rows[|rows| - 1]) then 1 else 0);
      assert forall i :: 0 <= i < |init| ==> init[i] == rows[i];
      n
  }

  /** `a < b` on a row, which is not true when either side is null. */
  predicate LessIn(r: Row, a: string, b: string) {
    a in r && b in r && r[a] < r[b]
  }

  /** A row breaking the high/low/close range: high < low, close < low or close > high. */
  predicate InvalidOhlc(r: Row) {
    LessIn(r, "high", "low") || LessIn(r, "close", "low") || LessIn(r, "high", "close")
  }

  /** A row with a negative value in one of the given columns. */
  predicate NegativeIn(r: Row, cols: seq<string>) {
    exists c :: c in cols && c in r && r[c] < 0
  }

  /** The price columns, then the volume column, that the file has. */
  function NumericColumns(cols: seq<string>): (r: seq<string>)
    ensures forall c :: c in r <==> c in ["open", "high", "low", "close", "volume"] && c in cols
  {
    var r := Filter(["open", "high", "low", "close", "volume"], c => c in cols);
    forall c ensures c in r <==> c in ["open", "high", "low", "close", "volume"] && c in cols {
      FilterMembers(["open", "high", "low", "close", "volume"], c => c in cols, c);
    }
    r
  }

  /** `null_count()` of a column. */
  function NullCount(rows: seq<Row>, col: string): nat {
    CountRows(rows, r => col !in r)
  }

  function InvalidOhlcCount(rows: seq<Row>): nat {
    CountRows(rows, InvalidOhlc)
  }

  function NegativeCount(rows: seq<Row>, cols: seq<string>): nat {
    CountRows(rows, r => NegativeIn(r, cols))
  }

  /** The number of distinct datetimes never exceeds the number of rows, and
      equals it exactly when no two rows share a datetime (null counting as
      one value, as `n_unique` does). */
  lemma {:induction false} DistinctKeys(rows: seq<Row>)
    ensures |Keys(rows)| <= |rows|
    ensures |Keys(rows)| == |rows| <==> forall i, j :: 0 <= i < j < |rows| ==> Key(rows[i]) != Key(rows[j])
  {
    if rows != [] {
      var rest := rows[1..];
      DistinctKeys(rest);
      KeysCons(rows[0], rest);
      assert rows == [rows[0]] + rest;
      assert forall i :: 1 <= i < |rows| ==> rows[i] == rest[i - 1];
      if Key(rows[0]) in Keys(rest) {
        var j :| 0 <= j < |rest| && Key(rest[j]) == Key(rows[0]);
        assert Key(rows[0]) == Key(rows[j + 1]);
      } else {
        forall i, j | 0 <= i < j < |rows| && (forall a, b :: 0 <= a < b < |rest| ==> Key(rest[a]) != Key(rest[b]))
          ensures Key(rows[i]) != Key(rows[j])
        {
          if i == 0 {
            assert Key(rows[j]) in Keys(rest);
          } else {
            assert Key(rows[i]) == Key(rest[i - 1]) && Key(rows[j]) == Key(rest[j - 1]);
          }
        }
      }
    }
  }

  /** `max(0, rows - n_unique(datetime))`. */
  function DuplicateCount(rows: seq<Row>): (n: nat)
    ensures n == 0 <==> forall i, j :: 0 <= i < j < |rows| ==> Key(rows[i]) != Key(rows[j])
  {
    DistinctKeys(rows);
    if |rows| - |Keys(rows)| > 0 then |rows| - |Keys(rows)| else 0
  }

  /** The earliest non-null datetime, if any. */
  function MinKey(rows: seq<Row>): (r: Option<int>)
    ensures r.Some? ==> Some(r.value) in Keys(rows)
    ensures r.Some? ==> forall i :: 0 <= i < |rows| && Key(rows[i]).Some? ==> r.value <= Key(rows[i]).value
    ensures r.None? ==> forall i :: 0 <= i < |rows| ==> Key(rows[i]).None?
  {
    if rows == [] then None
    else
      var rest := MinKey(rows[1..]);
      KeysCons(rows[0], rows[1..]);
      assert rows == [rows[0]] + rows[1..];
      assert forall i :: 1 <= i < |rows| ==> rows[i] == rows[1..][i - 1];
      var k := Key(rows[0]);
      if k.None? then rest
      else if rest.None? || k.value < rest.value then k
      else rest
  }

  /** The non-null datetimes, in row order, repeats kept. */
  function Datetimes(rows: seq<Row>): (vs: seq<int>)
    ensures forall v :: v in vs <==> Some(v) in Keys(rows)
  {
    if rows == [] then []
    else
      KeysCons(rows[0], rows[1..]);
      assert rows == [rows[0]] + rows[1..];
      match Key(rows[0])
      case Some(v) => [v] + Datetimes(rows[1..])
      case None => Datetimes(rows[1..])
  }

  /** The largest value of `vs` below `v`. */
  function Below(vs: seq<int>, v: int): (r: Option<int>)
    ensures r.Some? ==> r.value in vs && r.value < v
    ensures forall w :: w in vs && w < v ==> r.Some? && w <= r.value
  {
    if vs == [] then None
    else
      var rest := Below(vs[1..], v);
      assert vs == [vs[0]] + vs[1..];
      if vs[0] >= v then rest
      else if rest.None? || rest.value < vs[0] then Some(vs[0])
      else rest
  }

  /** The widest step from a value of `ws` down to the next smaller value of `vs`. */
  function WidestStep(ws: seq<int>, vs: seq<int>): (g: int)
    ensures g >= 0
    ensures forall w :: w in ws && Below(vs, w).Some? ==> w - Below(vs, w).value <= g
    ensures g == 0 || exists w :: w in ws && Below(vs, w).Some? && w - Below(vs, w).value == g
  {
    if ws == [] then 0
    else
      var rest := WidestStep(ws[1..], vs);
      assert ws == [ws[0]] + ws[1..];
      var b := Below(vs, ws[0]);
      assert ws[0] in ws;
      assert forall w :: w in ws[1..] ==> w in ws;
      if b.Some? && ws[0] - b.value > rest then ws[0] - b.value else rest
  }

  /** `sort().diff().max()` of the datetime column: None with fewer than two
      non-null datetimes, else the widest step between successive ones. */
  function MaxGap(rows: seq<Row>): (r: Option<int>)
    ensures r.Some? ==> r.value >= 0
  {
    var vs := Datetimes(rows);
    if |vs| >= 2 then Some(WidestStep(vs, vs)) else None
  }

  /** `a` and `b` are successive distinct datetimes of the rows. */
  ghost predicate Successive(rows: seq<Row>, a: int, b: int) {
    Some(a) in Keys(rows) && Some(b) in Keys(rows) && a < b &&
    forall c :: Some(c) in Keys(rows) && a < c ==> b <= c
  }

  /** A sequence with two different values has at least two elements. */
  lemma TwoValues(vs: seq<int>, a: int, b: int)
    requires a in vs && b in vs && a != b
    ensures |vs| >= 2
  {
  }

  /** A gap above the threshold comes from two successive datetimes. */
  lemma MaxGapWitness(rows: seq<Row>, t: int)
    requires t >= 0 && MaxGap(rows).Some? && MaxGap(rows).value > t
    ensures exists a, b :: Successive(rows, a, b) && b - a > t
  {
    var vs := Datetimes(rows);
    var g := WidestStep(vs, vs);
    assert g > 0;
    var w :| w in vs && Below(vs, w).Some? && w - Below(vs, w).value == g;
    var a := Below(vs, w).value;
    assert a in vs;
    assert Successive(rows, a, w);
  }

  /** Every step between successive datetimes is within the gap. */
  lemma MaxGapCovers(rows: seq<Row>, a: int, b: int)
    requires Successive(rows, a, b)
    ensures MaxGap(rows).Some? && b - a <= MaxGap(rows).value
  {
    var vs := Datetimes(rows);
    assert a in vs && b in vs;
    TwoValues(vs, a, b);
    var below := Below(vs, b);
    assert below.Some? && a <= below.value;
    assert Some(below.value) in Keys(rows);
    assert below == Some(a);
  }

  /** The gap exceeds a non-negative threshold exactly when two successive
      datetimes lie further apart than it. */
  lemma MaxGapExceeds(rows: seq<Row>, t: int)
    requires t >= 0
    ensures (MaxGap(rows).Some? && MaxGap(rows).value > t) <==> exists a, b :: Successive(rows, a, b) && b - a > t
  {
    if MaxGap(rows).Some? && MaxGap(rows).value > t {
      MaxGapWitness(rows, t);
    }
    if exists a, b :: Successive(rows, a, b) && b - a > t {
      var a, b :| Successive(rows, a, b) && b - a > t;
      MaxGapCovers(rows, a, b);
    }
  }

  // ---------------------------------------------------------------------
  //  Context, thresholds and texts

  /** The asset type, symbol and interval an issue is tagged with. */
  datatype Context = Context(assetType: Option<string>, symbol: Option<string>, interval: Option<string>)

  /** `_infer_context_from_path` for `<root>/<asset_type>/<symbol>/<interval>_*.parquet`:
      the two parent directory names (empty above the top of the path) and
      the file name's part before its first underscore, when it has one. */
  function InferContext(p: Path): (c: Context)
    ensures c.symbol == Some(if |p.dir| >= 1 then p.dir[|p.dir| - 1] else "")
    ensures c.assetType == Some(if |p.dir| >= 2 then p.dir[|p.dir| - 2] else "")
    ensures c.interval.Some? <==> '_' in p.name
    ensures c.interval.Some? ==> '_' !in c.interval.value && StartsWith(p.name, c.interval.value + "_")
  {
    var symbol := if |p.dir| >= 1 then p.dir[|p.dir| - 1] else "";
    var assetType := if |p.dir| >= 2 then p.dir[|p.dir| - 2] else "";
    if '_' in p.name then
      var i := BeforeFirst(p.name, '_');
      BeforeFirstPrefix(p.name, '_');
      Context(Some(assetType), Some(symbol), Some(i))
    else Context(Some(assetType), Some(symbol), None)
  }

  /** The part before the first separator is followed by that separator. */
  lemma {:induction false} BeforeFirstPrefix(s: string, c: char)
    requires c in s
    ensures c !in BeforeFirst(s, c) && StartsWith(s, BeforeFirst(s, c) + [c])
  {
    if s[0] != c {
      assert c in s[1..] by {
        var k :| 0 <= k < |s| && s[k] == c;
        assert s[1..][k - 1] == c;
      }
      BeforeFirstPrefix(s[1..], c);
    }
  }

  /** `str(path)`: the components joined by "/". */
  function PathText(p: Path): string {
    Join(p.dir + [p.name], '/')
  }

  const SecondsPerHour: int := 3600

  /** `_gap_threshold`, in seconds: a rough bound per interval unit, tested
      on the stripped, lower-cased interval in the order d, then m or h,
      then wk or w, then mo. */
  function GapThreshold(interval: Option<string>): (r: Option<int>)
    ensures r.Some? ==> r.value > 0
  {
    if interval.None? || interval.value == "" then None
    else
      var key := Lower(Strip(interval.value));
      if EndsWith(key, "d") then Some(10 * SecondsPerDay)
      else if EndsWith(key, "m") || EndsWith(key, "h") then Some(6 * SecondsPerHour)
      else if EndsWith(key, "wk") || EndsWith(key, "w") then Some(60 * SecondsPerDay)
      else if EndsWith(key, "mo") then Some(120 * SecondsPerDay)
      else None
  }

  /** The threshold each interval unit gets: none for years. */
  function UnitThreshold(u: Unit): Option<int> {
    match u
    case Days => Some(10 * SecondsPerDay)
    case Hours => Some(6 * SecondsPerHour)
    case Minutes => Some(6 * SecondsPerHour)
    case Weeks => Some(60 * SecondsPerDay)
    case Months => Some(120 * SecondsPerDay)
    case Years => None
    case OtherUnit => None
  }

  /** A string ends with a one-character suffix exactly when its last character is it. */
  lemma EndsWithChar(s: string, c: char)
    requires s != []
    ensures EndsWith(s, [c]) <==> s[|s| - 1] == c
  {
    assert s[|s| - 1..] == [s[|s| - 1]];
  }

  /** The last character of a digit string followed by a unit's suffix, and
      which two-character suffixes it ends with. */
  lemma SuffixEnd(d: string, u: Unit)
    requires d != [] && u != OtherUnit
    ensures var s := d + Suffix(u);
      s[|s| - 1] == Suffix(u)[|Suffix(u)| - 1] && (EndsWith(s, "wk") <==> u == Weeks) && (EndsWith(s, "mo") <==> u == Months)
  {
    var s := d + Suffix(u);
    var k := |Suffix(u)|;
    assert s[|s| - k..] == Suffix(u);
    assert s[|s| - 1] == Suffix(u)[k - 1];
    assert u != Weeks ==> !EndsWith(s, "wk") by { if u != Weeks && EndsWith(s, "wk") { EndsWithLast(s, "wk"); } }
    assert u != Months ==> !EndsWith(s, "mo") by { if u != Months && EndsWith(s, "mo") { EndsWithLast(s, "mo"); } }
  }

  /** The threshold of a key already stripped and lower-cased, from its last
      character and its two-character suffix. */
  lemma GapThresholdOfKey(s: string, u: Unit)
    requires s != [] && Lower(Strip(s)) == s && u != OtherUnit
    requires s[|s| - 1] == Suffix(u)[|Suffix(u)| - 1]
    requires (EndsWith(s, "wk") <==> u == Weeks) && (EndsWith(s, "mo") <==> u == Months)
    ensures GapThreshold(Some(s)) == UnitThreshold(u)
  {
    EndsWithChar(s, 'd');
    EndsWithChar(s, 'm');
    EndsWithChar(s, 'h');
    EndsWithChar(s, 'w');
  }

  /** On `<N><unit>` intervals the suffix tests select the unit's threshold;
      in particular "mo" is not caught by the earlier "m" test, since it
      ends in "o". */
  lemma GapThresholdOfInterval(n: nat, u: Unit)
    requires u != OtherUnit
    ensures GapThreshold(Some(NatToDigits(n) + Suffix(u))) == UnitThreshold(u)
  {
    var d := NatToDigits(n);
    var s := d + Suffix(u);
    SuffixPlain(u);
    SuffixEnd(d, u);
    assert s[0] == d[0];
    PlainText(s);
    GapThresholdOfKey(s, u);
  }

  /** `str(timedelta(seconds=s))` for a whole, non-negative number of seconds. */
  function TimedeltaText(s: nat): string {
    var days := s / SecondsPerDay;
    var rem := s % SecondsPerDay;
    var clock := NatToDigits(rem / SecondsPerHour) + ":" + Pad2(rem % SecondsPerHour / 60) + ":" + Pad2(rem % 60);
    if days == 0 then clock
    else NatToDigits(days) + (if days == 1 then " day, " else " days, ") + clock
  }

  /** `repr` of a list of strings, each between single quotes. */
  function ListRepr(items: seq<string>): string {
    "[" + ReprItems(items) + "]"
  }

  function ReprItems(items: seq<string>): string {
    if items == [] then ""
    else if |items| == 1 then "'" + items[0] + "'"
    else "'" + items[0] + "', " + ReprItems(items[1..])
  }

  // ---------------------------------------------------------------------
  //  Issues

  /** The issue every rule builds: tagged with the file's path and context. */
  function NewIssue(p: Path, ctx: Context, ruleId: string, severity: Severity, message: string,
                    details: Option<string>, createdAt: string): (i: QualityIssue)
    ensures i.ruleId == ruleId && i.severity == severity && i.path == Some(PathText(p))
    ensures i.assetType == ctx.assetType && i.symbol == ctx.symbol && i.interval == ctx.interval
  {
    QualityIssue(ruleId, severity, message, Some(PathText(p)), ctx.assetType, ctx.symbol, ctx.interval, details, createdAt)
  }

  /** The key columns, whose absence is an error, and the others. */
  const KeyColumns: seq<string> := ["datetime", "close"]
  const OtherColumns: seq<string> := ["open", "high", "low", "volume"]

  /** `schema.missing_<c>`: ERROR for a key column, WARN otherwise. */
  function MissingIssue(p: Path, ctx: Context, cols: seq<string>, c: string, createdAt: string): QualityIssue {
    if c in KeyColumns then
      NewIssue(p, ctx, "schema.missing_" + c, Error, "缺少关键列：" + c, Some("columns=" + ListRepr(cols)), createdAt)
    else
      NewIssue(p, ctx, "schema.missing_" + c, Warn, "缺少列：" + c, Some("columns=" + ListRepr(cols)), createdAt)
  }

  /** The columns of `among` that `cols` lacks, in the order of `among`. */
  function Absent(among: seq<string>, cols: seq<string>): (r: seq<string>)
    ensures forall c :: c in r <==> c in among && c !in cols
  {
    var r := Filter(among, Lacks(cols));
    forall c ensures c in r <==> c in among && c !in cols {
      FilterMembers(among, Lacks(cols), c);
    }
    r
  }

  function Lacks(cols: seq<string>): string -> bool {
    c => c !in cols
  }

  function MissingIssues(p: Path, ctx: Context, cols: seq<string>, among: seq<string>, createdAt: string): (r: seq<QualityIssue>)
    ensures |r| == |Absent(among, cols)|
  {
    var missing := Absent(among, cols);
    seq(|missing|, k requires 0 <= k < |missing| => MissingIssue(p, ctx, cols, missing[k], createdAt))
  }

  /** One more candidate column adds its issue when it is missing. */
  lemma MissingIssuesSnoc(p: Path, ctx: Context, cols: seq<string>, among: seq<string>, c: string, createdAt: string)
    ensures MissingIssues(p, ctx, cols, among + [c], createdAt) ==
      MissingIssues(p, ctx, cols, among, createdAt) + (if c !in cols then [MissingIssue(p, ctx, cols, c, createdAt)] else [])
  {
    FilterSnoc(among, c, Lacks(cols));
  }

  /** The schema issues: the missing key columns, then the other missing ones. */
  function SchemaIssues(p: Path, ctx: Context, cols: seq<string>, createdAt: string): seq<QualityIssue> {
    MissingIssues(p, ctx, cols, KeyColumns, createdAt) + MissingIssues(p, ctx, cols, OtherColumns, createdAt)
  }

  /** Different columns give different issues. */
  lemma MissingIssueInjective(p: Path, ctx: Context, cols: seq<string>, c: string, c': string, createdAt: string)
    requires MissingIssue(p, ctx, cols, c, createdAt) == MissingIssue(p, ctx, cols, c', createdAt)
    ensures c == c'
  {
    var id := MissingIssue(p, ctx, cols, c, createdAt).ruleId;
    assert id == "schema.missing_" + c && id == "schema.missing_" + c';
    assert id[15..] == c && id[15..] == c';
  }

  lemma MissingIssuesMember(p: Path, ctx: Context, cols: seq<string>, among: seq<string>, c: string, createdAt: string)
    ensures MissingIssue(p, ctx, cols, c, createdAt) in MissingIssues(p, ctx, cols, among, createdAt) <==> c in among && c !in cols
  {
    var r := MissingIssues(p, ctx, cols, among, createdAt);
    var missing := Absent(among, cols);
    var m := MissingIssue(p, ctx, cols, c, createdAt);
    if c in among && c !in cols {
      var k :| 0 <= k < |missing| && missing[k] == c;
      assert r[k] == m;
    }
    if m in r {
      var k :| 0 <= k < |r| && r[k] == m;
      MissingIssueInjective(p, ctx, cols, missing[k], c, createdAt);
    }
  }

  /** Each base column the file lacks gets its own issue, with the severity
      its role calls for; the errors are exactly the missing key columns. */
  lemma SchemaIssuesSpec(p: Path, ctx: Context, cols: seq<string>, createdAt: string)
    ensures |SchemaIssues(p, ctx, cols, createdAt)| == |Absent(KeyColumns, cols)| + |Absent(OtherColumns, cols)|
    ensures forall c :: c in BaseColumns ==>
      (MissingIssue(p, ctx, cols, c, createdAt) in SchemaIssues(p, ctx, cols, createdAt) <==> c !in cols)
    ensures CountSeverity(SchemaIssues(p, ctx, cols, createdAt), Error) == |Absent(KeyColumns, cols)|
  {
    var e := MissingIssues(p, ctx, cols, KeyColumns, createdAt);
    var w := MissingIssues(p, ctx, cols, OtherColumns, createdAt);
    forall c | c in BaseColumns
      ensures MissingIssue(p, ctx, cols, c, createdAt) in e + w <==> c !in cols
    {
      MissingIssuesMember(p, ctx, cols, KeyColumns, c, createdAt);
      MissingIssuesMember(p, ctx, cols, OtherColumns, c, createdAt);
    }
    var ke := Absent(KeyColumns, cols);
    var kw := Absent(OtherColumns, cols);
    assert forall k :: 0 <= k < |e| ==> ke[k] in KeyColumns && e[k].severity == Error;
    assert forall k :: 0 <= k < |w| ==> kw[k] !in KeyColumns && w[k].severity == Warn;
    AllSeverity(e, Error);
    AllSeverity(w, Warn);
    CountSeverityAppend(e, w, Error);
  }

  /** Issues all of one severity count fully for it and not at all for the other. */
  lemma {:induction false} AllSeverity(issues: seq<QualityIssue>, s: Severity)
    requires forall k :: 0 <= k < |issues| ==> issues[k].severity == s
    ensures CountSeverity(issues, s) == |issues|
    ensures CountSeverity(issues, if s == Error then Warn else Error) == 0
    decreases |issues|
  {
    if issues != [] {
      AllSeverity(issues[..|issues| - 1], s);
    }
  }

  // ---------------------------------------------------------------------
  //  The rules

  predicate HasDatetime(cols: seq<string>) { "datetime" in cols }
  predicate HasClose(cols: seq<string>) { "close" in cols }
  predicate HasOhlc(cols: seq<string>) { "high" in cols && "low" in cols && "close" in cols }

  /** A rule's one warning, or none. */
  predicate OneWarning(r: seq<QualityIssue>, ruleId: string) {
    |r| <= 1 && forall k :: 0 <= k < |r| ==> r[k].ruleId == ruleId && r[k].severity == Warn
  }

  /** `datetime.duplicated`: some datetime (null included) occurs twice. */
  function DuplicateIssues(p: Path, ctx: Context, rows: seq<Row>, createdAt: string): (r: seq<QualityIssue>)
    ensures OneWarning(r, "datetime.duplicated")
    ensures r != [] <==> exists i, j :: 0 <= i < j < |rows| && Key(rows[i]) == Key(rows[j])
  {
    var n := DuplicateCount(rows);
    if n > 0 then [NewIssue(p, ctx, "datetime.duplicated", Warn, "datetime 有重复：" + NatToDigits(n) + " 行", None, createdAt)]
    else []
  }

  /** `datetime.gap_too_large`: the interval has a threshold and two
      successive datetimes lie strictly further apart than it. */
  function GapIssues(p: Path, ctx: Context, rows: seq<Row>, createdAt: string): (r: seq<QualityIssue>)
    ensures OneWarning(r, "datetime.gap_too_large")
    ensures r != [] <==> (GapThreshold(ctx.interval).Some? &&
      exists a, b :: Successive(rows, a, b) && b - a > GapThreshold(ctx.interval).value)
  {
    var threshold := GapThreshold(ctx.interval);
    if threshold.Some? then
      MaxGapExceeds(rows, threshold.value);
      var gap := MaxGap(rows);
      if gap.Some? && gap.value > threshold.value then
        [NewIssue(p, ctx, "datetime.gap_too_large", Warn, "时间间隔异常大：max_gap=" + TimedeltaText(gap.value),
                  Some("threshold=" + TimedeltaText(threshold.value)), createdAt)]
      else []
    else []
  }

  /** `close.has_nulls`: some row has no close value. */
  function NullCloseIssues(p: Path, ctx: Context, rows: seq<Row>, createdAt: string): (r: seq<QualityIssue>)
    ensures OneWarning(r, "close.has_nulls")
    ensures r != [] <==> exists i :: 0 <= i < |rows| && "close" !in rows[i]
  {
    var n := NullCount(rows, "close");
    if n > 0 then [NewIssue(p, ctx, "close.has_nulls", Warn, "close 存在空值：" + NatToDigits(n) + " 行", None, createdAt)]
    else []
  }

  /** `ohlc.invalid_range`: some row has high < low, close < low or close > high. */
  function InvalidOhlcIssues(p: Path, ctx: Context, rows: seq<Row>, createdAt: string): (r: seq<QualityIssue>)
    ensures OneWarning(r, "ohlc.invalid_range")
    ensures r != [] <==> exists i :: 0 <= i < |rows| && InvalidOhlc(rows[i])
  {
    var n := InvalidOhlcCount(rows);
    if n > 0 then [NewIssue(p, ctx, "ohlc.invalid_range", Warn, "OHLC 逻辑异常（high/low/close）：" + NatToDigits(n) + " 行", None, createdAt)]
    else []
  }

  /** `values.negative`: some row has a negative price or volume. */
  function NegativeIssues(p: Path, ctx: Context, rows: seq<Row>, numeric: seq<string>, createdAt: string): (r: seq<QualityIssue>)
    ensures OneWarning(r, "values.negative")
    ensures r != [] <==> exists i :: 0 <= i < |rows| && NegativeIn(rows[i], numeric)
  {
    var n := NegativeCount(rows, numeric);
    if n > 0 then [NewIssue(p, ctx, "values.negative", Warn, "存在负值（价格/成交量）：" + NatToDigits(n) + " 行", None, createdAt)]
    else []
  }

  // ---------------------------------------------------------------------
  //  One file

  datatype FileSummary = FileSummary(
    path: Path,
    assetType: Option<string>,
    symbol: Option<string>,
    interval: Option<string>,
    rowCount: nat,
    minDt: Option<int>,
    maxDt: Option<int>,
    duplicateDatetimeCount: nat,
    missingColumns: seq<string>,
    nullCloseCount: Option<nat>,
    invalidOhlcCount: Option<nat>,
    negativeValueCount: Option<nat>,
    maxGap: Option<int>)

  /** Which fallback queries raise: the row count, the datetime statistics
      (with the exception text), the gap, the null count, the OHLC count
      and the negative count. */
  datatype FallbackFailures = FallbackFailures(
    rowCount: bool, datetimeStats: Option<string>, gap: bool, nullClose: bool, invalidOhlc: bool, negative: bool)

  const NoFailures := FallbackFailures(false, None, false, false, false, false)

  /** How the engine evaluates the checks: the fused query succeeds, or it
      raises and the per-query fallback runs. */
  datatype Engine = Fused | Fallback(failures: FallbackFailures)

  /** `_empty_summary`: no rows, no statistics, every base column missing. */
  function EmptySummary(p: Path, ctx: Context): (s: FileSummary)
    ensures s.rowCount == 0 && s.missingColumns == BaseColumns && s.duplicateDatetimeCount == 0
    ensures s.minDt.None? && s.maxDt.None? && s.maxGap.None?
    ensures s.nullCloseCount.None? && s.invalidOhlcCount.None? && s.negativeValueCount.None?
  {
    FileSummary(p, ctx.assetType, ctx.symbol, ctx.interval, 0, None, None, 0, BaseColumns, None, None, None, None)
  }

  /** Why the schema of `p` cannot be read, if it cannot: the file is missing
      or is not a Parquet table. */
  function ReadError(files: map<Path, FileData>, p: Path): (e: Option<string>)
    ensures e.None? <==> p in files && files[p].Parquet?
  {
    if p !in files then Some("No such file or directory: " + PathText(p))
    else if !files[p].Parquet? then Some("not a parquet file: " + PathText(p))
    else None
  }

  function ReadFailedIssue(p: Path, ctx: Context, error: string, createdAt: string): QualityIssue {
    NewIssue(p, ctx, "parquet.read_failed", Error, "Parquet 读取失败", Some(error), createdAt)
  }

  function StatsFailedIssue(p: Path, ctx: Context, error: string, createdAt: string): QualityIssue {
    NewIssue(p, ctx, "datetime.stats_failed", Warn, "datetime 统计失败", Some(error), createdAt)
  }

  /** The datetime checks: duplicates (or the failure of their query),
      then the gap. */
  function DatetimeIssues(p: Path, ctx: Context, t: Table, f: FallbackFailures, createdAt: string): seq<QualityIssue> {
    if HasDatetime(t.columns) then
      (if f.datetimeStats.None? then DuplicateIssues(p, ctx, t.rows, createdAt)
       else [StatsFailedIssue(p, ctx, f.datetimeStats.value, createdAt)])
      + (if !f.gap then GapIssues(p, ctx, t.rows, createdAt) else [])
    else []
  }

  /** The value checks: null closes, the OHLC range, negative values. */
  function ValueIssues(p: Path, ctx: Context, t: Table, f: FallbackFailures, createdAt: string): seq<QualityIssue> {
    var numeric := NumericColumns(t.columns);
    (if HasClose(t.columns) && !f.nullClose then NullCloseIssues(p, ctx, t.rows, createdAt) else [])
    + (if HasOhlc(t.columns) && !f.invalidOhlc then InvalidOhlcIssues(p, ctx, t.rows, createdAt) else [])
    + (if |numeric| > 0 && !f.negative then NegativeIssues(p, ctx, t.rows, numeric, createdAt) else [])
  }

  /** The issues after the schema check, in the order the checks run; a check
      whose query raised in the fallback path contributes nothing, except
      the datetime statistics, whose failure is itself reported. */
  function DataIssues(p: Path, ctx: Context, t: Table, f: FallbackFailures, createdAt: string): seq<QualityIssue> {
    DatetimeIssues(p, ctx, t, f, createdAt) + ValueIssues(p, ctx, t, f, createdAt)
  }

  /** The datetime statistics: earliest, latest, duplicate count and gap. */
  datatype DatetimeStats = DatetimeStats(minDt: Option<int>, maxDt: Option<int>, duplicates: nat, maxGap: Option<int>)

  function DatetimeSummary(t: Table, f: FallbackFailures): DatetimeStats {
    var stats := HasDatetime(t.columns) && f.datetimeStats.None?;
    DatetimeStats(
      if stats then MinKey(t.rows) else None,
      if stats then MaxKey(t.rows) else None,
      if stats then DuplicateCount(t.rows) else 0,
      if HasDatetime(t.columns) && !f.gap then MaxGap(t.rows) else None)
  }

  /** The value counts: null closes, invalid OHLC rows, negative rows. */
  datatype ValueStats = ValueStats(nullClose: Option<nat>, invalidOhlc: Option<nat>, negative: Option<nat>)

  function ValueSummary(t: Table, f: FallbackFailures): ValueStats {
    var numeric := NumericColumns(t.columns);
    ValueStats(
      if HasClose(t.columns) && !f.nullClose then Some(NullCount(t.rows, "close")) else None,
      if HasOhlc(t.columns) && !f.invalidOhlc then Some(InvalidOhlcCount(t.rows)) else None,
      if |numeric| > 0 && !f.negative then Some(NegativeCount(t.rows, numeric)) else None)
  }

  /** The summary of a readable file; statistics whose query raised stay at
      their initial values. */
  function DataSummary(p: Path, ctx: Context, t: Table, f: FallbackFailures): FileSummary {
    var d := DatetimeSummary(t, f);
    var v := ValueSummary(t, f);
    FileSummary(
      p, ctx.assetType, ctx.symbol, ctx.interval,
      if f.rowCount then 0 else |t.rows|,
      d.minDt, d.maxDt, d.duplicates,
      Absent(BaseColumns, t.columns),
      v.nullClose, v.invalidOhlc, v.negative,
      d.maxGap)
  }

  /** What `validate_parquet_file` returns for `p`. The fused query computes
      every statistic, as a fallback in which no query raises does. */
  function Validation(files: map<Path, FileData>, p: Path, engine: Engine, createdAt: string): (FileSummary, seq<QualityIssue>) {
    var ctx := InferContext(p);
    match ReadError(files, p)
    case Some(e) => (EmptySummary(p, ctx), [ReadFailedIssue(p, ctx, e, createdAt)])
    case None =>
      var t := files[p].table;
      var f := if engine.Fused? then NoFailures else engine.failures;
      (DataSummary(p, ctx, t, f), SchemaIssues(p, ctx, t.columns, createdAt) + DataIssues(p, ctx, t, f, createdAt))
  }

  /** A file whose schema cannot be read gets exactly one issue, the
      `parquet.read_failed` error, and the empty summary. */
  lemma ReadFailedSpec(files: map<Path, FileData>, p: Path, engine: Engine, createdAt: string)
    requires !(p in files && files[p].Parquet?)
    ensures var (summary, issues) := Validation(files, p, engine, createdAt);
      |issues| == 1 && issues[0].ruleId == "parquet.read_failed" && issues[0].severity == Error &&
      summary.rowCount == 0 && summary.missingColumns == BaseColumns
  {
  }

  /** The data checks only ever warn. */
  lemma DataIssuesWarn(p: Path, ctx: Context, t: Table, f: FallbackFailures, createdAt: string)
    ensures CountSeverity(DataIssues(p, ctx, t, f, createdAt), Error) == 0
  {
    var d := DatetimeIssues(p, ctx, t, f, createdAt);
    var v := ValueIssues(p, ctx, t, f, createdAt);
    DatetimeIssuesWarn(p, ctx, t, f, createdAt);
    ValueIssuesWarn(p, ctx, t, f, createdAt);
    AllWarnAppend(d, v);
    AllSeverity(d + v, Warn);
  }

  predicate AllWarn(r: seq<QualityIssue>) {
    forall k :: 0 <= k < |r| ==> r[k].severity == Warn
  }

  lemma AllWarnAppend(a: seq<QualityIssue>, b: seq<QualityIssue>)
    requires AllWarn(a) && AllWarn(b)
    ensures AllWarn(a + b)
  {
    forall k | 0 <= k < |a + b| ensures (a + b)[k].severity == Warn {
      if k >= |a| {
        assert (a + b)[k] == b[k - |a|];
      }
    }
  }

  lemma DatetimeIssuesWarn(p: Path, ctx: Context, t: Table, f: FallbackFailures, createdAt: string)
    ensures AllWarn(DatetimeIssues(p, ctx, t, f, createdAt))
  {
    if HasDatetime(t.columns) {
      var a := if f.datetimeStats.None? then DuplicateIssues(p, ctx, t.rows, createdAt)
        else [StatsFailedIssue(p, ctx, f.datetimeStats.value, createdAt)];
      var b := if !f.gap then GapIssues(p, ctx, t.rows, createdAt) else [];
      assert AllWarn(a) && AllWarn(b);
      AllWarnAppend(a, b);
    }
  }

  lemma ValueIssuesWarn(p: Path, ctx: Context, t: Table, f: FallbackFailures, createdAt: string)
    ensures AllWarn(ValueIssues(p, ctx, t, f, createdAt))
  {
    var numeric := NumericColumns(t.columns);
    var a := if HasClose(t.columns) && !f.nullClose then NullCloseIssues(p, ctx, t.rows, createdAt) else [];
    var b := if HasOhlc(t.columns) && !f.invalidOhlc then InvalidOhlcIssues(p, ctx, t.rows, createdAt) else [];
    var c := if |numeric| > 0 && !f.negative then NegativeIssues(p, ctx, t.rows, numeric, createdAt) else [];
    assert AllWarn(a) && AllWarn(b) && AllWarn(c);
    AllWarnAppend(a, b);
    AllWarnAppend(a + b, c);
  }

  /** On a readable file the errors are exactly the missing key columns
      ("datetime" and "close"): every other finding is a warning. */
  lemma ErrorsAreMissingKeys(files: map<Path, FileData>, p: Path, engine: Engine, createdAt: string)
    requires p in files && files[p].Parquet?
    ensures CountSeverity(Validation(files, p, engine, createdAt).1, Error) == |Absent(KeyColumns, files[p].table.columns)|
  {
    var ctx := InferContext(p);
    var t := files[p].table;
    var f := if engine.Fused? then NoFailures else engine.failures;
    SchemaIssuesSpec(p, ctx, t.columns, createdAt);
    DataIssuesWarn(p, ctx, t, f, createdAt);
    CountSeverityAppend(SchemaIssues(p, ctx, t.columns, createdAt), DataIssues(p, ctx, t, f, createdAt), Error);
  }

  /** A file that can be read and has both key columns. */
  predicate Clean(files: map<Path, FileData>, p: Path) {
    p in files && files[p].Parquet? && "datetime" in files[p].table.columns && "close" in files[p].table.columns
  }

  /** A file has no error exactly when it can be read and has both key columns. */
  lemma NoErrorsIff(files: map<Path, FileData>, p: Path, engine: Engine, createdAt: string)
    ensures CountSeverity(Validation(files, p, engine, createdAt).1, Error) == 0 <==> Clean(files, p)
  {
    if p in files && files[p].Parquet? {
      ErrorsAreMissingKeys(files, p, engine, createdAt);
      var a := Absent(KeyColumns, files[p].table.columns);
      if |a| == 0 {
        assert "datetime" !in a && "close" !in a;
      } else {
        assert a[0] in a;
      }
    } else {
      var issues := Validation(files, p, engine, createdAt).1;
      assert issues[..|issues| - 1] == [];
    }
  }

  /** The two paths agree: the fused query and a fallback in which no query
      raises give the same summary and the same issues. */
  lemma FallbackAgrees(files: map<Path, FileData>, p: Path, createdAt: string)
    ensures Validation(files, p, Fallback(NoFailures), createdAt) == Validation(files, p, Fused, createdAt)
  {
  }

  /** The schema loop: one issue per column of `among` that the file lacks. */
  method AppendMissing(issues: seq<QualityIssue>, p: Path, ctx: Context, cols: seq<string>, among: seq<string>, createdAt: string)
    returns (out: seq<QualityIssue>)
    ensures out == issues + MissingIssues(p, ctx, cols, among, createdAt)
  {
    out := issues;
    for k := 0 to |among|
      invariant out == issues + MissingIssues(p, ctx, cols, among[..k], createdAt)
    {
      var c := among[k];
      MissingIssuesSnoc(p, ctx, cols, among[..k], c, createdAt);
      assert among[..k + 1] == among[..k] + [c];
      if c !in cols {
        out := out + [MissingIssue(p, ctx, cols, c, createdAt)];
      }
    }
    assert among[..|among|] == among;
  }

  /** The datetime section of both paths. */
  method CheckDatetime(t: Table, p: Path, ctx: Context, issues: seq<QualityIssue>, f: FallbackFailures, createdAt: string)
    returns (stats: DatetimeStats, out: seq<QualityIssue>)
    ensures stats == DatetimeSummary(t, f)
    ensures out == issues + DatetimeIssues(p, ctx, t, f, createdAt)
  {
    stats := DatetimeStats(None, None, 0, None);
    out := issues;
    if "datetime" in t.columns {
      if f.datetimeStats.None? {
        stats := stats.(minDt := MinKey(t.rows), maxDt := MaxKey(t.rows), duplicates := DuplicateCount(t.rows));
        out := out + DuplicateIssues(p, ctx, t.rows, createdAt);
      } else {
        out := out + [StatsFailedIssue(p, ctx, f.datetimeStats.value, createdAt)];
      }
      if !f.gap {
        stats := stats.(maxGap := MaxGap(t.rows));
        out := out + GapIssues(p, ctx, t.rows, createdAt);
      }
    }
  }

  /** The close, OHLC and negative-value sections of both paths. */
  method CheckValues(t: Table, p: Path, ctx: Context, issues: seq<QualityIssue>, f: FallbackFailures, createdAt: string)
    returns (stats: ValueStats, out: seq<QualityIssue>)
    ensures stats == ValueSummary(t, f)
    ensures out == issues + ValueIssues(p, ctx, t, f, createdAt)
  {
    stats := ValueStats(None, None, None);
    var nulls: seq<QualityIssue> := [];
    if "close" in t.columns && !f.nullClose {
      stats := stats.(nullClose := Some(NullCount(t.rows, "close")));
      nulls := NullCloseIssues(p, ctx, t.rows, createdAt);
    }
    var ohlc: seq<QualityIssue> := [];
    if HasOhlc(t.columns) && !f.invalidOhlc {
      stats := stats.(invalidOhlc := Some(InvalidOhlcCount(t.rows)));
      ohlc := InvalidOhlcIssues(p, ctx, t.rows, createdAt);
    }
    var numeric := NumericColumns(t.columns);
    var negative: seq<QualityIssue> := [];
    if |numeric| > 0 && !f.negative {
      stats := stats.(negative := Some(NegativeCount(t.rows, numeric)));
      negative := NegativeIssues(p, ctx, t.rows, numeric, createdAt);
    }
    out := issues + nulls + ohlc + negative;
    assert ValueIssues(p, ctx, t, f, createdAt) == nulls + ohlc + negative;
    Concat4(issues, nulls, ohlc, negative);
  }

  /** The data checks after the schema check. The fused query and the
      fallback share them; the fallback may see some of its queries raise. */
  method CheckData(t: Table, p: Path, ctx: Context, issues: seq<QualityIssue>, f: FallbackFailures, createdAt: string)
    returns (summary: FileSummary, out: seq<QualityIssue>)
    ensures summary == DataSummary(p, ctx, t, f)
    ensures out == issues + DataIssues(p, ctx, t, f, createdAt)
  {
    var rowCount := if f.rowCount then 0 else |t.rows|;
    var d, v;
    d, out := CheckDatetime(t, p, ctx, issues, f, createdAt);
    v, out := CheckValues(t, p, ctx, out, f, createdAt);
    Concat3(issues, DatetimeIssues(p, ctx, t, f, createdAt), ValueIssues(p, ctx, t, f, createdAt));
    summary := FileSummary(p, ctx.assetType, ctx.symbol, ctx.interval, rowCount, d.minDt, d.maxDt, d.duplicates,
                           Absent(BaseColumns, t.columns), v.nullClose, v.invalidOhlc, v.negative, d.maxGap);
  }

  /** `validate_parquet_file`: read the schema, check the columns, then run
      the data checks through the fused query or, when it raises, the
      fallback. */
  method ValidateParquetFile(fs: FileSystem, p: Path, engine: Engine, createdAt: string)
    returns (summary: FileSummary, issues: seq<QualityIssue>)
    ensures (summary, issues) == Validation(fs.files, p, engine, createdAt)
  {
    var ctx := InferContext(p);
    issues := [];
    var error := ReadError(fs.files, p);
    if error.Some? {
      issues := issues + [ReadFailedIssue(p, ctx, error.value, createdAt)];
      summary := EmptySummary(p, ctx);
      assert issues == [ReadFailedIssue(p, ctx, error.value, createdAt)];
      return;
    }
    var t := fs.files[p].table;
    var failures := if engine.Fused? then NoFailures else engine.failures;
    summary, issues := CheckTable(t, p, ctx, failures, createdAt);
  }

  /** The checks on a readable table: the schema, then the data. */
  method CheckTable(t: Table, p: Path, ctx: Context, f: FallbackFailures, createdAt: string)
    returns (summary: FileSummary, issues: seq<QualityIssue>)
    ensures summary == DataSummary(p, ctx, t, f)
    ensures issues == SchemaIssues(p, ctx, t.columns, createdAt) + DataIssues(p, ctx, t, f, createdAt)
  {
    issues := CheckSchema(p, ctx, t.columns, createdAt);
    summary, issues := CheckData(t, p, ctx, issues, f, createdAt);
  }

  /** The schema checks: the key columns, then the others. */
  method CheckSchema(p: Path, ctx: Context, columns: seq<string>, createdAt: string) returns (issues: seq<QualityIssue>)
    ensures issues == SchemaIssues(p, ctx, columns, createdAt)
  {
    issues := AppendMissing([], p, ctx, columns, KeyColumns, createdAt);
    issues := AppendMissing(issues, p, ctx, columns, OtherColumns, createdAt);
  }

  // ---------------------------------------------------------------------
  //  The batch

  datatype BatchProgress = BatchProgress(total: nat, completed: nat, currentFile: string)

  /** The worker count: `min(cpu_count or 4, len(files), 32)` when none is
      requested (1 for no files), and never below one. */
  function MaxWorkers(requested: Option<int>, cpuCount: Option<int>, fileCount: nat): (w: int)
    ensures w >= 1
    ensures requested.Some? ==> w == (if requested.value >= 1 then requested.value else 1)
    ensures requested.None? && fileCount > 0 ==> w <= fileCount && w <= 32
  {
    var chosen :=
      if requested.Some? then requested.value
      else if fileCount == 0 then 1
      else
        var cpu := if cpuCount.None? || cpuCount.value == 0 then 4 else cpuCount.value;
        var m := if cpu < fileCount then cpu else fileCount;
        if m < 32 then m else 32;
    if chosen >= 1 then chosen else 1
  }

  /** The batch runs serially for at most two files or a single worker. */
  predicate RunsSerially(fileCount: nat, workers: int) {
    fileCount <= 2 || workers == 1
  }

  /** The issues of the files, file after file. */
  function BatchIssues(files: map<Path, FileData>, paths: seq<Path>, engineOf: Path -> Engine, createdAt: string): seq<QualityIssue> {
    if paths == [] then []
    else BatchIssues(files, paths[..|paths| - 1], engineOf, createdAt)
         + Validation(files, paths[|paths| - 1], engineOf(paths[|paths| - 1]), createdAt).1
  }

  /** The issues of one more file follow those of the files before it. */
  lemma BatchIssuesSnoc(files: map<Path, FileData>, paths: seq<Path>, k: nat, engineOf: Path -> Engine, createdAt: string)
    requires k < |paths|
    ensures BatchIssues(files, paths[..k + 1], engineOf, createdAt) ==
      BatchIssues(files, paths[..k], engineOf, createdAt) + Validation(files, paths[k], engineOf(paths[k]), createdAt).1
  {
    assert paths[..k + 1][..k] == paths[..k];
  }

  /** The summaries of the files, in order. */
  function BatchSummaries(files: map<Path, FileData>, paths: seq<Path>, engineOf: Path -> Engine, createdAt: string): seq<FileSummary> {
    seq(|paths|, k requires 0 <= k < |paths| => Validation(files, paths[k], engineOf(paths[k]), createdAt).0)
  }

  lemma BatchSummariesSnoc(files: map<Path, FileData>, paths: seq<Path>, k: nat, engineOf: Path -> Engine, createdAt: string)
    requires k < |paths|
    ensures BatchSummaries(files, paths[..k + 1], engineOf, createdAt) ==
      BatchSummaries(files, paths[..k], engineOf, createdAt) + [Validation(files, paths[k], engineOf(paths[k]), createdAt).0]
  {
    assert forall j :: 0 <= j <= k ==> paths[..k + 1][j] == paths[j];
  }


  predicate AllClean(files: map<Path, FileData>, paths: seq<Path>) {
    forall k :: 0 <= k < |paths| ==> Clean(files, paths[k])
  }

  lemma AllCleanSnoc(files: map<Path, FileData>, paths: seq<Path>)
    requires paths != []
    ensures AllClean(files, paths) <==> AllClean(files, paths[..|paths| - 1]) && Clean(files, paths[|paths| - 1])
  {
    var init := paths[..|paths| - 1];
    assert forall k :: 0 <= k < |init| ==> init[k] == paths[k];
  }

  /** A batch is free of errors exactly when every file is readable and has
      both key columns. */
  lemma {:induction false} BatchErrorsIff(files: map<Path, FileData>, paths: seq<Path>, engineOf: Path -> Engine, createdAt: string)
    ensures CountSeverity(BatchIssues(files, paths, engineOf, createdAt), Error) == 0 <==> AllClean(files, paths)
    decreases |paths|
  {
    if paths != [] {
      var init := paths[..|paths| - 1];
      var last := paths[|paths| - 1];
      var a := BatchIssues(files, init, engineOf, createdAt);
      var b := Validation(files, last, engineOf(last), createdAt).1;
      assert BatchIssues(files, paths, engineOf, createdAt) == a + b;
      BatchErrorsIff(files, init, engineOf, createdAt);
      CountSeverityAppend(a, b, Error);
      NoErrorsIff(files, last, engineOf(last), createdAt);
      AllCleanSnoc(files, paths);
    }
  }

  /** Hand each issue to the issue writer, in order. */
  method WriteEach(written: seq<QualityIssue>, issues: seq<QualityIssue>) returns (out: seq<QualityIssue>)
    ensures out == written + issues
  {
    out := written;
    for j := 0 to |issues|
      invariant out == written + issues[..j]
    {
      assert issues[..j + 1] == issues[..j] + [issues[j]];
      out := out + [issues[j]];
    }
    assert issues[..|issues|] == issues;
  }

  /** What the batch has produced after the files before `idx`. */
  ghost predicate BatchSoFar(files: map<Path, FileData>, paths: seq<Path>, idx: nat, engineOf: Path -> Engine, writeIssues: bool,
                             createdAt: string, summaries: seq<FileSummary>, allIssues: seq<QualityIssue>,
                             written: seq<QualityIssue>, progress: seq<BatchProgress>)
    requires idx <= |paths|
  {
    && |summaries| == idx && |progress| == idx
    && summaries == BatchSummaries(files, paths[..idx], engineOf, createdAt)
    && allIssues == (if writeIssues then [] else BatchIssues(files, paths[..idx], engineOf, createdAt))
    && written == (if writeIssues then BatchIssues(files, paths[..idx], engineOf, createdAt) else [])
    && (forall k :: 0 <= k < idx ==> progress[k] == BatchProgress(|paths|, k + 1, paths[k].name))
  }

  /** One iteration of the serial loop: validate the file, record its
      summary, route its issues, report progress. */
  method BatchStep(fs: FileSystem, paths: seq<Path>, idx: nat, engineOf: Path -> Engine, writeIssues: bool, createdAt: string,
                   summaries: seq<FileSummary>, allIssues: seq<QualityIssue>, written: seq<QualityIssue>, progress: seq<BatchProgress>)
    returns (summaries': seq<FileSummary>, allIssues': seq<QualityIssue>, written': seq<QualityIssue>, progress': seq<BatchProgress>)
    requires idx < |paths|
    requires BatchSoFar(fs.files, paths, idx, engineOf, writeIssues, createdAt, summaries, allIssues, written, progress)
    ensures BatchSoFar(fs.files, paths, idx + 1, engineOf, writeIssues, createdAt, summaries', allIssues', written', progress')
  {
    var p := paths[idx];
    var summary, issues := ValidateParquetFile(fs, p, engineOf(p), createdAt);
    ghost var v := Validation(fs.files, p, engineOf(p), createdAt);
    assert summary == v.0 && issues == v.1;
    BatchIssuesSnoc(fs.files, paths, idx, engineOf, createdAt);
    BatchSummariesSnoc(fs.files, paths, idx, engineOf, createdAt);
    summaries' := summaries + [summary];
    allIssues', written' := allIssues, written;
    if !writeIssues {
      allIssues' := allIssues + issues;
    } else {
      written' := WriteEach(written, issues);
    }
    progress' := progress + [BatchProgress(|paths|, idx + 1, p.name)];
    ProgressSnoc(progress, paths, idx);
  }

  /** One more progress report, for the next file. */
  lemma ProgressSnoc(progress: seq<BatchProgress>, paths: seq<Path>, idx: nat)
    requires idx < |paths| && |progress| == idx
    requires forall k :: 0 <= k < idx ==> progress[k] == BatchProgress(|paths|, k + 1, paths[k].name)
    ensures forall k :: 0 <= k < idx + 1 ==>
      (progress + [BatchProgress(|paths|, idx + 1, paths[idx].name)])[k] == BatchProgress(|paths|, k + 1, paths[k].name)
  {
  }

  /** The serial path of `validate_batch`. `engineOf` says how the engine
      evaluates each file; with `writeIssues` each issue goes to the issue
      writer (returned as `written`) instead of into the result, and
      `progress` lists what the result callback receives. */
  method ValidateBatch(fs: FileSystem, paths: seq<Path>, engineOf: Path -> Engine, writeIssues: bool, createdAt: string)
    returns (summaries: seq<FileSummary>, allIssues: seq<QualityIssue>, written: seq<QualityIssue>, progress: seq<BatchProgress>)
    ensures |summaries| == |paths|
    ensures forall k :: 0 <= k < |paths| ==> summaries[k] == Validation(fs.files, paths[k], engineOf(paths[k]), createdAt).0
    ensures allIssues == (if writeIssues then [] else BatchIssues(fs.files, paths, engineOf, createdAt))
    ensures written == (if writeIssues then BatchIssues(fs.files, paths, engineOf, createdAt) else [])
    ensures |progress| == |paths|
    ensures forall k :: 0 <= k < |paths| ==> progress[k] == BatchProgress(|paths|, k + 1, paths[k].name)
  {
    summaries, allIssues, written, progress := [], [], [], [];
    for idx := 0 to |paths|
      invariant BatchSoFar(fs.files, paths, idx, engineOf, writeIssues, createdAt, summaries, allIssues, written, progress)
    {
      summaries, allIssues, written, progress :=
        BatchStep(fs, paths, idx, engineOf, writeIssues, createdAt, summaries, allIssues, written, progress);
    }
    assert paths[..|paths|] == paths;
  }
}
