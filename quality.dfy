/** `storage/quality.py`: quality issues, the report that collects them, and
    the two report writers.

    The `created_at` default (`datetime.now()`) is a value the caller
    supplies. A dictionary produced by `to_dict` is kept as its ordered
    (key, value) pairs, with None as a missing value, which is also what a
    JSON line holds. Creating parent directories is not modelled (the file
    system has no directories of its own). */
module Quality {
  import opened Wrappers
  import opened FsUtils

  datatype Severity = Warn | Error

  /** `Severity.value`. */
  function SeverityValue(s: Severity): (v: string)
    ensures v == "WARN" || v == "ERROR"
    ensures ParseSeverity(v) == Some(s)
  {
    match s
    case Warn => "WARN"
    case Error => "ERROR"
  }

  /** `Severity(v)`: None for a string that is not a member's value. */
  function ParseSeverity(v: string): (r: Option<Severity>)
    ensures r.Some? <==> v == "WARN" || v == "ERROR"
  {
    if v == "WARN" then Some(Warn)
    else if v == "ERROR" then Some(Error)
    else None
  }

  datatype QualityIssue = QualityIssue(
    ruleId: string,
    severity: Severity,
    message: string,
    path: Option<string>,
    assetType: Option<string>,
    symbol: Option<string>,
    interval: Option<string>,
    details: Option<string>,
    createdAt: string)

  /** The dataclass fields, in declaration order (the key order of `asdict`). */
  const IssueFields: seq<string> :=
    ["rule_id", "severity", "message", "path", "asset_type", "symbol", "interval", "details", "created_at"]

  type Dict = seq<(string, Option<string>)>

  /** The value stored under `key`, or None when the key is absent or null. */
  function Lookup(d: Dict, key: string): Option<string> {
    if d == [] then None
    else if d[0].0 == key then d[0].1
    else Lookup(d[1..], key)
  }

  /** `to_dict`: `asdict` with the severity replaced by its string value. */
  function ToDict(i: QualityIssue): (d: Dict)
    ensures |d| == |IssueFields|
    ensures forall k :: 0 <= k < |d| ==> d[k].0 == IssueFields[k]
  {
    [("rule_id", Some(i.ruleId)),
     ("severity", Some(SeverityValue(i.severity))),
     ("message", Some(i.message)),
     ("path", i.path),
     ("asset_type", i.assetType),
     ("symbol", i.symbol),
     ("interval", i.interval),
     ("details", i.details),
     ("created_at", Some(i.createdAt))]
  }

  /** Reading a dictionary back into an issue: the fields must come in
      declaration order, the required ones must be present and the severity
      must be one of the two values. */
  function FromDict(d: Dict): (r: Option<QualityIssue>)
    ensures r.Some? ==> |d| == |IssueFields| && Lookup(d, "severity") == Some(SeverityValue(r.value.severity))
  {
    if |d| != |IssueFields| || (exists k :: 0 <= k < |d| && d[k].0 != IssueFields[k]) then None
    else if d[0].1.None? || d[1].1.None? || d[2].1.None? || d[8].1.None? then None
    else match ParseSeverity(d[1].1.value)
      case None => None
      case Some(s) => Some(QualityIssue(d[0].1.value, s, d[2].1.value, d[3].1, d[4].1, d[5].1, d[6].1, d[7].1, d[8].1.value))
  }

  /** `to_dict` keeps every field: the issue can be read back from it. */
  lemma ToDictRoundTrip(i: QualityIssue)
    ensures FromDict(ToDict(i)) == Some(i)
  {
    var d := ToDict(i);
    assert d[1].1 == Some(SeverityValue(i.severity));
  }

  /** How many of the issues have the given severity. */
  function CountSeverity(issues: seq<QualityIssue>, s: Severity): (n: nat)
    ensures n <= |issues|
  {
    if issues == [] then 0
    else CountSeverity(issues[..|issues| - 1], s) + (if issues[|issues| - 1].severity == s then 1 else 0)
  }

  /** Counting distributes over concatenation. */
  lemma {:induction false} CountSeverityAppend(a: seq<QualityIssue>, b: seq<QualityIssue>, s: Severity)
    ensures CountSeverity(a + b, s) == CountSeverity(a, s) + CountSeverity(b, s)
    decreases |b|
  {
    if b == [] {
      assert a + b == a;
    } else {
      var b' := b[..|b| - 1];
      assert (a + b)[..|a + b| - 1] == a + b';
      CountSeverityAppend(a, b', s);
    }
  }

  /** Every issue is either an error or a warning. */
  lemma {:induction false} CountsPartition(issues: seq<QualityIssue>)
    ensures CountSeverity(issues, Error) + CountSeverity(issues, Warn) == |issues|
    decreases |issues|
  {
    if issues != [] {
      CountsPartition(issues[..|issues| - 1]);
    }
  }

  class QualityReport {
    var issues: seq<QualityIssue>

    constructor ()
      ensures issues == []
    {
      issues := [];
    }

    /** `error_count`; together with `warn_count` it accounts for every issue. */
    function ErrorCount(): (n: nat)
      reads this
      ensures n + CountSeverity(issues, Warn) == |issues|
    {
      CountsPartition(issues);
      CountSeverity(issues, Error)
    }

    /** `warn_count`. */
    function WarnCount(): (n: nat)
      reads this
      ensures CountSeverity(issues, Error) + n == |issues|
    {
      CountsPartition(issues);
      CountSeverity(issues, Warn)
    }

    /** `extend`: the new issues go after the old ones, in their order. */
    method Extend(more: seq<QualityIssue>)
      modifies this
      ensures issues == old(issues) + more
      ensures ErrorCount() == old(ErrorCount()) + CountSeverity(more, Error)
      ensures WarnCount() == old(WarnCount()) + CountSeverity(more, Warn)
    {
      CountSeverityAppend(issues, more, Error);
      CountSeverityAppend(issues, more, Warn);
      issues := issues + more;
    }
  }

  /** The objects `write_issues_jsonl` writes, one per issue, in order; each
      line reads back as its issue. */
  function JsonlObjects(issues: seq<QualityIssue>): (objs: seq<Dict>)
    ensures |objs| == |issues|
    ensures forall k :: 0 <= k < |issues| ==> FromDict(objs[k]) == Some(issues[k])
  {
    forall k | 0 <= k < |issues| ensures FromDict(ToDict(issues[k])) == Some(issues[k]) {
      ToDictRoundTrip(issues[k]);
    }
    seq(|issues|, k requires 0 <= k < |issues| => ToDict(issues[k]))
  }

  /** `write_issues_jsonl`: the file is truncated, then one line is written per issue. */
  method WriteIssuesJsonl(fs: FileSystem, p: Path, issues: seq<QualityIssue>)
    modifies fs
    ensures fs.files == old(fs.files)[p := JsonLines(JsonlObjects(issues))]
  {
    var lines: seq<Dict> := [];
    fs.Write(p, JsonLines(lines));
    for k := 0 to |issues|
      invariant lines == JsonlObjects(issues[..k])
      invariant fs.files == old(fs.files)[p := JsonLines(lines)]
    {
      lines := lines + [ToDict(issues[k])];
      fs.Write(p, JsonLines(lines));
    }
    assert issues[..|issues|] == issues;
  }

  /** The fixed column order of the CSV report. */
  const CsvColumns: seq<string> :=
    ["created_at", "severity", "rule_id", "asset_type", "symbol", "interval", "path", "message", "details"]

  /** A null field is written as an empty cell. */
  function Cell(v: Option<string>): string {
    v.GetOr("")
  }

  /** One CSV row: the issue's dictionary restricted to the report columns. */
  function CsvRow(i: QualityIssue): (r: map<string, string>)
    ensures r.Keys == set c | c in CsvColumns
    ensures forall c :: c in CsvColumns ==> r[c] == Cell(Lookup(ToDict(i), c))
  {
    map c | c in CsvColumns :: Cell(Lookup(ToDict(i), c))
  }

  /** The report columns are exactly the issue fields: no field is dropped. */
  lemma CsvColumnsAreFields()
    ensures forall c :: c in CsvColumns <==> c in IssueFields
    ensures |CsvColumns| == |IssueFields|
  {
  }

  lemma IssueFieldsDistinct()
    ensures forall j, k :: 0 <= j < k < |IssueFields| ==> IssueFields[j] != IssueFields[k]
  {
  }

  /** A key found at position `k` and nowhere before is looked up there. */
  lemma {:induction false} LookupAt(d: Dict, key: string, k: nat)
    requires k < |d| && d[k].0 == key
    requires forall j :: 0 <= j < k ==> d[j].0 != key
    ensures Lookup(d, key) == d[k].1
    decreases k
  {
    if k > 0 {
      LookupAt(d[1..], key, k - 1);
    }
  }

  /** The CSV cell of each issue field holds that field of `to_dict`, null
      written as empty. */
  lemma CsvRowCell(i: QualityIssue, k: nat)
    requires k < |IssueFields|
    ensures IssueFields[k] in CsvRow(i)
    ensures CsvRow(i)[IssueFields[k]] == Cell(ToDict(i)[k].1)
  {
    IssueFieldsDistinct();
    CsvColumnsAreFields();
    LookupAt(ToDict(i), IssueFields[k], k);
  }

  /** `write_issues_csv`: the header, then one row per issue, in order. */
  method WriteIssuesCsv(fs: FileSystem, p: Path, issues: seq<QualityIssue>)
    modifies fs
    ensures fs.files == old(fs.files)[p := Csv(CsvColumns, seq(|issues|, k requires 0 <= k < |issues| => CsvRow(issues[k])))]
  {
    var rows := seq(|issues|, k requires 0 <= k < |issues| => CsvRow(issues[k]));
    fs.Write(p, Csv(CsvColumns, rows));
  }
}
