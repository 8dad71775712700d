/** The Parquet store (`pipeline/writer.py`): one file per asset type,
    symbol and interval, named `<interval>_<YYYYMMDD>_<YYYYMMDD>.parquet`
    after the Beijing dates of its range, under `<root>/<asset>/<symbol>/`. */
module Writer {
  import opened Wrappers
  import opened Text
  import opened Calendar
  import opened TimeUtils
  import opened Schema
  import opened Frames
  import opened Seqs
  import opened FsUtils

  /** A stored file and the range its name states (Beijing midnights). */
  datatype ExistingRange = ExistingRange(path: Path, start: int, end: int)

  function SymbolDir(root: seq<string>, assetType: string, symbol: string): seq<string> {
    root + [assetType, symbol]
  }

  /** The file name for a range. */
  function RangeFileName(interval: string, start: int, end: int): string
    requires InDateRange(start) && InDateRange(end)
  {
    interval + "_" + PathDate(start) + "_" + PathDate(end) + ".parquet"
  }

  /** `build_path`. */
  function BuildPath(root: seq<string>, assetType: string, symbol: string, interval: string, start: int, end: int): (p: Path)
    requires InDateRange(start) && InDateRange(end)
    ensures p.dir == root + [assetType, symbol]
    ensures StartsWith(p.name, interval + "_") && EndsWith(p.name, ".parquet")
    ensures |p.name| == |interval| + 26
  {
    NameShape(interval, PathDate(start), PathDate(end));
    Path(SymbolDir(root, assetType, symbol), RangeFileName(interval, start, end))
  }

  lemma NameShape(interval: string, a: string, b: string)
    requires |a| == 8 && |b| == 8
    ensures var name := interval + "_" + a + "_" + b + ".parquet";
      StartsWith(name, interval + "_") && EndsWith(name, ".parquet") && |name| == |interval| + 26
  {
    var name := interval + "_" + a + "_" + b + ".parquet";
    assert name[..|interval| + 1] == interval + "_";
    assert name[|name| - 8..] == ".parquet";
  }

  /** `_parse_range`: the stem (the name up to its last dot) must split on
      "_" into the interval and two `%Y%m%d` dates, read as Beijing midnights. */
  function ParseRange(dir: seq<string>, name: string, interval: string): (r: Option<ExistingRange>)
    ensures r.Some? ==> r.value.path == Path(dir, name) && InDateRange(r.value.start) && InDateRange(r.value.end)
  {
    var parts := Split(BeforeLast(name, '.'), '_');
    if |parts| != 3 || parts[0] != interval then None
    else match (ParseYmd(parts[1]), ParseYmd(parts[2]))
      case (Some(s), Some(e)) =>
        Some(ExistingRange(Path(dir, name), BeijingMidnight(s), BeijingMidnight(e)))
      case _ => None
  }

  /** A name is read exactly when its stem has three "_"-separated parts, the
      first being the interval and the other two parsing as dates; the range
      is then the Beijing midnights of those dates. */
  lemma ParseRangeIff(dir: seq<string>, name: string, interval: string)
    ensures var parts := Split(BeforeLast(name, '.'), '_');
      ParseRange(dir, name, interval).Some? <==>
        |parts| == 3 && parts[0] == interval && ParseYmd(parts[1]).Some? && ParseYmd(parts[2]).Some?
    ensures var parts := Split(BeforeLast(name, '.'), '_');
      ParseRange(dir, name, interval).Some? ==>
        ParseRange(dir, name, interval).value.start == BeijingMidnight(ParseYmd(parts[1]).value) &&
        ParseRange(dir, name, interval).value.end == BeijingMidnight(ParseYmd(parts[2]).value)
  {
  }

  /** The stem of a built name splits into the interval and the two dates. */
  lemma SplitRangeFileName(interval: string, start: int, end: int)
    requires InDateRange(start) && InDateRange(end) && '_' !in interval
    ensures Split(BeforeLast(RangeFileName(interval, start, end), '.'), '_') == [interval, PathDate(start), PathDate(end)]
  {
    var a, b := PathDate(start), PathDate(end);
    NoUnderscoreInDigits(a);
    NoUnderscoreInDigits(b);
    SplitStem(interval, a, b);
  }

  lemma SplitStem(interval: string, a: string, b: string)
    requires '_' !in interval && '_' !in a && '_' !in b
    ensures Split(BeforeLast(interval + "_" + a + "_" + b + ".parquet", '.'), '_') == [interval, a, b]
  {
    StemOfParquet(interval + "_" + a + "_" + b);
    JoinThree(interval, a, b, '_');
    SplitJoin([interval, a, b], '_');
  }

  /** The stem of `<stem>.parquet` is everything before the extension. */
  lemma StemOfParquet(stem: string)
    ensures BeforeLast(stem + ".parquet", '.') == stem
  {
    var name := stem + ".parquet";
    assert name[|stem|] == '.';
    assert name[|stem| + 1..] == "parquet";
    BeforeLastAt(name, '.', |stem|);
    assert name[..|stem|] == stem;
  }

  lemma JoinThree(x: string, y: string, z: string, sep: char)
    ensures Join([x, y, z], sep) == x + [sep] + y + [sep] + z
  {
    assert [x, y, z][1..] == [y, z];
    assert [y, z][1..] == [z];
    assert Join([y, z], sep) == y + [sep] + z;
    assert Join([x, y, z], sep) == x + [sep] + (y + [sep] + z);
  }

  lemma NoUnderscoreInDigits(s: string)
    requires AllDigits(s)
    ensures '_' !in s
  {
  }

  /** Round trip: the range read back from a built name covers the Beijing
      dates of the instants it was built from. */
  lemma ParseBuildPath(root: seq<string>, assetType: string, symbol: string, interval: string, start: int, end: int)
    requires InDateRange(start) && InDateRange(end) && '_' !in interval
    ensures var p := BuildPath(root, assetType, symbol, interval, start, end);
      var r := ParseRange(p.dir, p.name, interval);
      && r == Some(ExistingRange(p, BeijingMidnight(BeijingDate(start)), BeijingMidnight(BeijingDate(end))))
      && BeijingDate(r.value.start) == BeijingDate(start)
      && BeijingDate(r.value.end) == BeijingDate(end)
  {
    SplitRangeFileName(interval, start, end);
    ParseFormatYmd(BeijingDate(start));
    ParseFormatYmd(BeijingDate(end));
    BeijingDateOfMidnight(BeijingDate(start));
    BeijingDateOfMidnight(BeijingDate(end));
  }

  /** The listing pattern `<interval>_*.parquet`. */
  predicate GlobMatch(name: string, interval: string) {
    StartsWith(name, interval + "_") && EndsWith(name, ".parquet") && |name| >= |interval| + 9
  }

  /** A file of the directory that `find_existing` takes into account. */
  predicate IsCandidate(files: map<Path, FileData>, dir: seq<string>, interval: string, name: string) {
    Path(dir, name) in files && GlobMatch(name, interval) && ParseRange(dir, name, interval).Some?
  }

  /** `candidates.sort(key=end)[-1]`: the sort is stable, so this is the
      last candidate among those with the latest end. */
  function LastLatest(cs: seq<ExistingRange>): (r: ExistingRange)
    requires |cs| > 0
    ensures r in cs
    ensures forall c :: c in cs ==> c.end <= r.end
  {
    if |cs| == 1 then cs[0]
    else
      var prev := LastLatest(cs[..|cs| - 1]);
      assert forall c :: c in cs ==> c in cs[..|cs| - 1] || c == cs[|cs| - 1];
      if cs[|cs| - 1].end >= prev.end then cs[|cs| - 1] else prev
  }

  /** The ranges parsed from the listed names that match the pattern, in
      listing order. */
  function Candidates(dir: seq<string>, interval: string, names: seq<string>): seq<ExistingRange> {
    if names == [] then []
    else
      var last := names[|names| - 1];
      var parsed := ParseRange(dir, last, interval);
      Candidates(dir, interval, names[..|names| - 1])
        + (if GlobMatch(last, interval) && parsed.Some? then [parsed.value] else [])
  }

  lemma {:induction false} CandidatesMembers(dir: seq<string>, interval: string, names: seq<string>)
    ensures forall c :: c in Candidates(dir, interval, names) ==>
      exists n :: n in names && GlobMatch(n, interval) && ParseRange(dir, n, interval) == Some(c)
    ensures forall n :: n in names && GlobMatch(n, interval) && ParseRange(dir, n, interval).Some? ==>
      ParseRange(dir, n, interval).value in Candidates(dir, interval, names)
  {
    if names != [] {
      var init := names[..|names| - 1];
      CandidatesMembers(dir, interval, init);
      assert forall n :: n in names <==> n in init || n == names[|names| - 1];
    }
  }

  /** Over a full listing of the directory, the candidates are the parsed
      ranges of exactly the files `IsCandidate` admits. */
  lemma CandidatesOfListing(files: map<Path, FileData>, dir: seq<string>, interval: string, names: seq<string>)
    requires forall n :: n in names <==> Path(dir, n) in files
    ensures forall c :: c in Candidates(dir, interval, names) ==>
      exists n :: IsCandidate(files, dir, interval, n) && c == ParseRange(dir, n, interval).value
    ensures forall n :: IsCandidate(files, dir, interval, n) ==>
      ParseRange(dir, n, interval).value in Candidates(dir, interval, names)
  {
    CandidatesMembers(dir, interval, names);
  }

  /** `r` is what `find_existing` may answer: none exactly when no file is
      a candidate, otherwise the range of a candidate whose end is latest. */
  ghost predicate NewestFile(files: map<Path, FileData>, dir: seq<string>, interval: string, r: Option<ExistingRange>) {
    && (r.None? <==> forall n :: !IsCandidate(files, dir, interval, n))
    && (r.Some? ==> exists n :: IsCandidate(files, dir, interval, n) && r.value == ParseRange(dir, n, interval).value)
    && (r.Some? ==> forall n :: IsCandidate(files, dir, interval, n) ==> ParseRange(dir, n, interval).value.end <= r.value.end)
  }

  /** `find_existing`: no result when the directory holds no readable file
      for the interval; otherwise one of them with the latest end. Files
      of other intervals are not considered. */
  method FindExisting(fs: FileSystem, root: seq<string>, assetType: string, symbol: string, interval: string)
    returns (r: Option<ExistingRange>)
    ensures NewestFile(fs.files, SymbolDir(root, assetType, symbol), interval, r)
  {
    var dir := SymbolDir(root, assetType, symbol);
    var names := fs.ListDir(dir);
    var candidates: seq<ExistingRange> := [];
    var i := 0;
    while i < |names|
      invariant 0 <= i <= |names|
      invariant candidates == Candidates(dir, interval, names[..i])
    {
      assert names[..i + 1][..i] == names[..i];
      if GlobMatch(names[i], interval) {
        var parsed := ParseRange(dir, names[i], interval);
        if parsed.Some? {
          candidates := candidates + [parsed.value];
        }
      }
      i := i + 1;
    }
    assert names[..i] == names;
    r := if |candidates| == 0 then None else Some(LastLatest(candidates));
    NewestOfListing(fs.files, dir, interval, names);
  }

  /** Over a full listing, the last latest candidate is a newest file. */
  lemma NewestOfListing(files: map<Path, FileData>, dir: seq<string>, interval: string, names: seq<string>)
    requires forall n :: n in names <==> Path(dir, n) in files
    ensures var cs := Candidates(dir, interval, names);
      NewestFile(files, dir, interval, if |cs| == 0 then None else Some(LastLatest(cs)))
  {
    var cs := Candidates(dir, interval, names);
    CandidatesOfListing(files, dir, interval, names);
    if |cs| > 0 {
      var r := LastLatest(cs);
      assert r in cs;
    }
  }

  /** The latest non-null datetime of the rows, if any. */
  function MaxKey(rows: seq<Row>): (r: Option<int>)
    ensures r.Some? ==> Some(r.value) in Keys(rows)
    ensures r.Some? ==> forall i :: 0 <= i < |rows| && Key(rows[i]).Some? ==> Key(rows[i]).value <= r.value
    ensures r.None? ==> forall i :: 0 <= i < |rows| ==> Key(rows[i]).None?
  {
    if rows == [] then None
    else
      var rest := MaxKey(rows[1..]);
      KeysCons(rows[0], rows[1..]);
      assert rows == [rows[0]] + rows[1..];
      assert forall i :: 1 <= i < |rows| ==> rows[i] == rows[1..][i - 1];
      var k := Key(rows[0]);
      if k.None? then rest
      else if rest.None? || rest.value < k.value then k
      else rest
  }

  /** `read_range_max`: the latest stored datetime, or None when the file is
      missing, unreadable, has no "datetime" column or only nulls in it. */
  function ReadRangeMax(files: map<Path, FileData>, p: Path): (r: Option<int>)
    ensures r.Some? ==> p in files && files[p].Parquet? && DatetimeColumn in files[p].table.columns
    ensures r.Some? ==> Some(r.value) in Keys(files[p].table.rows)
    ensures r.Some? ==> forall i :: 0 <= i < |files[p].table.rows| && Key(files[p].table.rows[i]).Some? ==>
      Key(files[p].table.rows[i]).value <= r.value
  {
    if p !in files then None
    else match files[p]
      case Parquet(t, _) => if DatetimeColumn in t.columns then MaxKey(t.rows) else None
      case _ => None
  }

  datatype Unit = Weeks | Months | Years | Days | Hours | Minutes | OtherUnit

  function UnitSeconds(u: Unit): int {
    match u
    case Weeks => 7 * SecondsPerDay
    case Months => 30 * SecondsPerDay
    case Years => 365 * SecondsPerDay
    case Days => SecondsPerDay
    case Hours => 3600
    case Minutes => 60
    case OtherUnit => SecondsPerDay
  }

  /** The count text and the unit of a stripped, lower-cased interval. An
      interval with no characters has no unit (`interval[-1]` fails). */
  function SplitUnit(s: string): Result<(string, Unit)> {
    if EndsWith(s, "wk") then Ok((s[..|s| - 2], Weeks))
    else if EndsWith(s, "mo") then Ok((s[..|s| - 2], Months))
    else if EndsWith(s, "y") then Ok((s[..|s| - 1], Years))
    else if s == [] then Err(Exc("IndexError", "string index out of range"))
    else
      var c := s[|s| - 1];
      Ok((s[..|s| - 1], if c == 'd' then Days else if c == 'h' then Hours else if c == 'm' then Minutes else OtherUnit))
  }

  /** `int(text or "1")`. */
  function CountOf(text: string): Result<int> {
    ParseInt(if text == [] then "1" else text)
  }

  /** `_interval_delta`, in seconds. The count is parsed even for an
      unknown unit, which then stands for one day. */
  function IntervalDelta(interval: string): (r: Result<int>)
    ensures r.Ok? ==> SplitUnit(Lower(Strip(interval))).Ok?
    ensures r.Ok? ==> var (text, u) := SplitUnit(Lower(Strip(interval))).value;
      CountOf(text).Ok? && r.value == (if u == OtherUnit then SecondsPerDay else CountOf(text).value * UnitSeconds(u))
  {
    match SplitUnit(Lower(Strip(interval)))
    case Err(e) => Err(e)
    case Ok((text, u)) =>
      match CountOf(text)
      case Err(e) => Err(e)
      case Ok(n) => Ok(if u == OtherUnit then SecondsPerDay else n * UnitSeconds(u))
  }

  /** A positive count always moves forward: with a count of at least one
      the delta is positive. */
  lemma IntervalDeltaPositive(interval: string)
    requires IntervalDelta(interval).Ok?
    requires CountOf(SplitUnit(Lower(Strip(interval))).value.0).value >= 1
    ensures IntervalDelta(interval).value > 0
  {
    var sp := SplitUnit(Lower(Strip(interval))).value;
    var n := CountOf(sp.0).value;
    var k := UnitSeconds(sp.1);
    assert k >= 60;
    assert n * k >= k by { MulAtLeast(n, k); }
  }

  lemma MulAtLeast(n: int, k: int)
    requires n >= 1 && k >= 0
    ensures n * k >= k
  {
  }

  /** Text with no surrounding whitespace and no upper-case letter is
      unchanged by `strip().lower()`. */
  lemma PlainText(s: string)
    requires s != [] && !IsSpace(s[0]) && !IsSpace(s[|s| - 1])
    requires forall i :: 0 <= i < |s| ==> !('A' <= s[i] <= 'Z')
    ensures Lower(Strip(s)) == s
  {
    StripUnchanged(s);
  }

  /** The suffix naming a unit. */
  function Suffix(u: Unit): string {
    match u
    case Weeks => "wk"
    case Months => "mo"
    case Years => "y"
    case Days => "d"
    case Hours => "h"
    case Minutes => "m"
    case OtherUnit => "s"
  }

  lemma {:induction false} SuffixSplit(d: string, u: Unit)
    requires AllDigits(d) && u != OtherUnit
    ensures SplitUnit(d + Suffix(u)) == Ok((d, u))
  {
    var s := d + Suffix(u);
    var k := |Suffix(u)|;
    assert s[..|s| - k] == d;
    assert s[|s| - k..] == Suffix(u);
    assert s[|s| - 1] == Suffix(u)[k - 1];
    if k == 1 {
      assert !EndsWith(s, "wk") by { if EndsWith(s, "wk") { EndsWithLast(s, "wk"); } }
      assert !EndsWith(s, "mo") by { if EndsWith(s, "mo") { EndsWithLast(s, "mo"); } }
      assert u != Years ==> !EndsWith(s, "y") by { if u != Years && EndsWith(s, "y") { EndsWithLast(s, "y"); } }
    } else {
      assert u == Months ==> !EndsWith(s, "wk") by { if u == Months && EndsWith(s, "wk") { EndsWithLast(s, "wk"); } }
    }
  }

  /** The table of `_interval_delta` on `<N><suffix>`. */
  lemma IntervalDeltaTable(n: nat, u: Unit)
    requires u != OtherUnit
    ensures IntervalDelta(NatToDigits(n) + Suffix(u)) == Ok(n * UnitSeconds(u))
  {
    var d := NatToDigits(n);
    var s := d + Suffix(u);
    SuffixSplit(d, u);
    PlainDigitsSuffix(d, u);
    ParseIntOfDigits(n);
    assert CountOf(d) == Ok(n);
    IntervalDeltaOf(s, d, u, n);
  }

  /** Digits followed by a unit suffix are unchanged by `strip().lower()`. */
  lemma PlainDigitsSuffix(d: string, u: Unit)
    requires AllDigits(d)
    ensures Lower(Strip(d + Suffix(u))) == d + Suffix(u)
  {
    var s := d + Suffix(u);
    var t := Suffix(u);
    SuffixPlain(u);
    if d != [] {
      DigitNotSpace(d[0]);
      assert s[0] == d[0];
    }
    assert s[|s| - 1] == t[|t| - 1];
    forall i | 0 <= i < |s| ensures !('A' <= s[i] <= 'Z') {
      if i < |d| {
        assert s[i] == d[i];
      } else {
        assert s[i] == t[i - |d|];
      }
    }
    PlainText(s);
  }

  /** A missing count means one. */
  lemma IntervalDeltaNoCount(u: Unit)
    requires u != OtherUnit
    ensures IntervalDelta(Suffix(u)) == Ok(UnitSeconds(u))
  {
    var t := Suffix(u);
    SuffixSplit("", u);
    assert "" + t == t;
    SuffixPlain(u);
    PlainText(t);
    assert CountOf("") == Ok(1) by {
      ParseIntOfDigits(1);
      assert NatToDigits(1) == "1";
    }
    IntervalDeltaOf(t, "", u, 1);
  }

  lemma SuffixPlain(u: Unit)
    ensures Suffix(u) != [] && !IsSpace(Suffix(u)[0]) && !IsSpace(Suffix(u)[|Suffix(u)| - 1])
    ensures forall i :: 0 <= i < |Suffix(u)| ==> !('A' <= Suffix(u)[i] <= 'Z')
  {
  }

  lemma IntervalDeltaOf(s: string, text: string, u: Unit, n: int)
    requires u != OtherUnit
    requires SplitUnit(Lower(Strip(s))) == Ok((text, u)) && CountOf(text) == Ok(n)
    ensures IntervalDelta(s) == Ok(n * UnitSeconds(u))
  {
  }

  /** `next_start`: the latest stored instant plus one interval; a result
      past the years a `datetime` holds is an OverflowError. */
  function NextStart(last: int, interval: string): (r: Result<int>)
    ensures r.Ok? <==> IntervalDelta(interval).Ok? && InDateRange(last + IntervalDelta(interval).value)
    ensures r.Ok? ==> r.value - last == IntervalDelta(interval).value && InDateRange(r.value)
  {
    match IntervalDelta(interval)
    case Err(e) => Err(e)
    case Ok(d) =>
      if InDateRange(last + d) then Ok(last + d)
      else Err(Exc("OverflowError", "date value out of range"))
  }

  /** The stored columns: the base columns present, in their order, then
      "adjusted_close" if present. */
  function OutputColumns(cols: seq<string>): (r: seq<string>)
    ensures forall c :: c in r <==> (c in BaseColumns || c == AdjustedColumn) && c in cols
    ensures SubseqOf(r, BaseColumns + [AdjustedColumn])
    ensures DatetimeColumn in cols ==> DatetimeColumn in r
  {
    var base := Filter(BaseColumns, (c: string) => c in cols);
    forall c ensures c in base <==> c in BaseColumns && c in cols {
      FilterMembers(BaseColumns, (c: string) => c in cols, c);
    }
    FilterSubseq(BaseColumns, (c: string) => c in cols);
    var r := if AdjustedColumn in cols then base + [AdjustedColumn] else base;
    SubseqAppendOne(base, BaseColumns, AdjustedColumn, AdjustedColumn in cols);
    assert "datetime" in BaseColumns;
    r
  }

  /** The frame `merge_and_write` de-duplicates: the existing table and
      the new one concatenated diagonally, or the new one alone. */
  function MergeFrame(existing: Option<Table>, incoming: Table): (df: Table)
    ensures df.rows == MergeInput(existing, incoming)
    ensures DatetimeColumn in df.columns <==>
      DatetimeColumn in incoming.columns || (existing.Some? && DatetimeColumn in existing.value.columns)
  {
    if existing.Some? then
      var ts := [existing.value, incoming];
      ConcatDiagonalRows(ts);
      assert AllRows(ts) == existing.value.rows + incoming.rows by {
        assert ts[1..] == [incoming];
        assert AllRows([incoming]) == incoming.rows + AllRows([]);
      }
      assert ts[0] == existing.value && ts[1] == incoming;
      ConcatDiagonal(ts)
    else incoming
  }

  /** The rows a merge combines, in order. */
  function MergeInput(existing: Option<Table>, incoming: Table): seq<Row> {
    if existing.Some? then existing.value.rows + incoming.rows else incoming.rows
  }

  /** The table `merge_and_write` stores: existing rows then new rows, one
      row per datetime (the last one), sorted, projected onto the output
      columns. An error when the combined frame has no "datetime" column. */
  function MergedTable(existing: Option<Table>, incoming: Table): (r: Result<Table>)
    ensures r.Ok? <==> DatetimeColumn in MergeFrame(existing, incoming).columns
    ensures r.Ok? ==> r.value.columns == OutputColumns(MergeFrame(existing, incoming).columns)
  {
    var df := MergeFrame(existing, incoming);
    match UniqueSorted(df)
    case Err(e) => Err(e)
    case Ok(u) => Ok(Select(u, OutputColumns(df.columns)))
  }

  /** What the merge promises: datetimes strictly increase and are exactly
      the datetimes of existing ++ new, and each row is the last row with
      its datetime, restricted to the output columns. */
  lemma MergedTableSpec(existing: Option<Table>, incoming: Table)
    requires MergedTable(existing, incoming).Ok?
    ensures var t := MergedTable(existing, incoming).value;
      var input := MergeInput(existing, incoming);
      && StrictlySorted(t.rows)
      && Keys(t.rows) == Keys(input)
      && (forall i :: 0 <= i < |t.rows| ==> t.rows[i] == SelectRow(LastWith(input, Key(t.rows[i])), t.columns))
  {
    var df := MergeFrame(existing, incoming);
    UniqueSortedSpec(df);
    var u := UniqueSorted(df).value;
    var cols := OutputColumns(df.columns);
    SelectKeepsOrder(u, cols);
  }

  /** A new row replaces an existing row with the same datetime. */
  lemma MergedTableNewWins(existing: Option<Table>, incoming: Table)
    requires MergedTable(existing, incoming).Ok?
    ensures var t := MergedTable(existing, incoming).value;
      forall i :: 0 <= i < |t.rows| && Key(t.rows[i]) in Keys(incoming.rows) ==>
        t.rows[i] == SelectRow(LastWith(incoming.rows, Key(t.rows[i])), t.columns)
  {
    var t := MergedTable(existing, incoming).value;
    MergedTableSpec(existing, incoming);
    forall i | 0 <= i < |t.rows| && Key(t.rows[i]) in Keys(incoming.rows)
      ensures t.rows[i] == SelectRow(LastWith(incoming.rows, Key(t.rows[i])), t.columns)
    {
      if existing.Some? {
        LastWithAppend(existing.value.rows, incoming.rows, Key(t.rows[i]));
      }
    }
  }

  /** The adjustment note stored with the table: only a non-empty one. */
  function AdjustmentNote(adjustment: Option<string>): Option<string> {
    if adjustment.Some? && adjustment.value != "" then adjustment else None
  }

  /** The table already stored at `existing`: none when there is no such
      file, an error when the file is not a Parquet table. */
  function ExistingTable(files: map<Path, FileData>, existing: Option<Path>): Result<Option<Table>> {
    if existing.None? || existing.value !in files then Ok(None)
    else match files[existing.value]
      case Parquet(t, _) => Ok(Some(t))
      case _ => Err(Exc("ArrowInvalid", "not a parquet file"))
  }

  /** The file `merge_and_write` produces from the state it starts in. */
  function MergedFile(files: map<Path, FileData>, existing: Option<Path>, incoming: Table, adjustment: Option<string>): Result<FileData> {
    match ExistingTable(files, existing)
    case Err(e) => Err(e)
    case Ok(ex) =>
      match MergedTable(ex, incoming)
      case Err(e) => Err(e)
      case Ok(t) => Ok(Parquet(t, AdjustmentNote(adjustment)))
  }

  /** The file-system state after a successful merge: the output holds the
      merged table, the temporary file is gone, and the existing file is
      gone when it was another path. */
  function MergeEndState(files: map<Path, FileData>, existing: Option<Path>, output: Path, d: FileData): (r: map<Path, FileData>)
    ensures output in r && r[output] == d && TmpPath(output) !in r
    ensures existing.Some? && existing.value != output ==> existing.value !in r
    ensures forall q :: q != output && q != TmpPath(output) && (existing.None? || q != existing.value) ==>
      (q in r <==> q in files) && (q in r ==> r[q] == files[q])
  {
    var removed := if existing.Some? && existing.value in files && existing.value != output then {existing.value} else {};
    (files - removed - {TmpPath(output)})[output := d]
  }

  /** A state from which the merged data survives a crash: it is either
      already at the output or complete in the temporary file. */
  predicate Recoverable(files: map<Path, FileData>, output: Path, d: FileData) {
    (output in files && files[output] == d) || (TmpPath(output) in files && files[TmpPath(output)] == d)
  }

  /** `merge_and_write`. An unreadable existing file or a frame without a
      "datetime" column fails before anything is written. Otherwise the
      temporary file is written, the old file removed when it is another
      path, and the temporary file renamed onto the output; every state
      from the first write on keeps the merged data recoverable. */
  method MergeAndWrite(fs: FileSystem, existing: Option<Path>, incoming: Table, output: Path, adjustment: Option<string>)
    returns (r: Result<()>)
    modifies fs
    ensures MergedFile(old(fs.files), existing, incoming, adjustment).Err? ==>
      r == Err(MergedFile(old(fs.files), existing, incoming, adjustment).error) &&
      fs.files == old(fs.files) && fs.history == old(fs.history)
    ensures MergedFile(old(fs.files), existing, incoming, adjustment).Ok? ==>
      var d := MergedFile(old(fs.files), existing, incoming, adjustment).value;
      && |fs.history| > |old(fs.history)|
      && fs.history[|old(fs.history)|] == old(fs.files)[TmpPath(output) := d]
      && (r.Ok? <==> existing != Some(TmpPath(output)))
      && (r.Ok? ==> fs.files == MergeEndState(old(fs.files), existing, output, d))
      && (r.Ok? ==> forall k :: |old(fs.history)| <= k < |fs.history| ==> Recoverable(fs.history[k], output, d))
  {
    var ex := ExistingTable(fs.files, existing);
    if ex.Err? {
      return Err(ex.error);
    }
    var merged := MergedTable(ex.value, incoming);
    if merged.Err? {
      return Err(merged.error);
    }
    var d := Parquet(merged.value, AdjustmentNote(adjustment));
    r := ReplaceWithMerged(fs, existing, output, d);
  }

  /** The writing steps of `merge_and_write`: the temporary file, the
      removal of the old file when it is another path, the rename. The
      rename fails only when the old file was the temporary file itself. */
  method ReplaceWithMerged(fs: FileSystem, existing: Option<Path>, output: Path, d: FileData) returns (r: Result<()>)
    modifies fs
    ensures |fs.history| > |old(fs.history)|
    ensures fs.history[|old(fs.history)|] == old(fs.files)[TmpPath(output) := d]
    ensures r.Ok? <==> existing != Some(TmpPath(output))
    ensures r.Ok? ==> fs.files == MergeEndState(old(fs.files), existing, output, d)
    ensures r.Ok? ==> forall k :: |old(fs.history)| <= k < |fs.history| ==> Recoverable(fs.history[k], output, d)
  {
    var tmp := TmpPath(output);
    ghost var start := fs.files;
    ghost var h := |fs.history|;
    fs.Write(tmp, d);
    ghost var written := fs.files;
    assert fs.history[h] == written;
    var removes := existing.Some? && existing.value in fs.files && existing.value != output;
    if removes {
      fs.Unlink(existing.value);
    }
    ghost var cleared := fs.files;
    if tmp !in fs.files {
      return Err(Exc("FileNotFoundError", "temporary file missing"));
    }
    fs.Replace(tmp, output);
    EndStateOfSteps(start, existing, output, d);
    assert removes ==> fs.history[h + 1] == cleared;
    assert fs.history[|fs.history| - 1] == fs.files;
    r := Ok(());
  }

  /** Writing the temporary file, removing the old file when it is another
      path, and renaming the temporary file give the end state. */
  lemma EndStateOfSteps(start: map<Path, FileData>, existing: Option<Path>, output: Path, d: FileData)
    requires existing != Some(TmpPath(output))
    ensures var tmp := TmpPath(output);
      var written := start[tmp := d];
      var cleared := if existing.Some? && existing.value in written && existing.value != output then written - {existing.value} else written;
      tmp in cleared && (cleared - {tmp})[output := cleared[tmp]] == MergeEndState(start, existing, output, d)
  {
    var tmp := TmpPath(output);
    var written := start[tmp := d];
    var cleared := if existing.Some? && existing.value in written && existing.value != output then written - {existing.value} else written;
    var a := (cleared - {tmp})[output := cleared[tmp]];
    var b := MergeEndState(start, existing, output, d);
    forall q ensures (q in a <==> q in b) && (q in a ==> a[q] == b[q]) {
    }
    assert a == b;
  }
}