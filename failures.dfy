/** The failure ledger's row validation (`validation/failures.py`): each
    CSV row is checked against the record model, its dates are parsed or
    defaulted, and a row whose start lies after its end is normalised. A
    strict run stops at the first bad row; a lenient one turns every
    problem into a warning.

    A row is what `csv.DictReader` yields: a value per header field, `None`
    for a field the line is too short to hold. */
module Failures {
  import opened Wrappers
  import opened Text
  import opened Calendar
  import opened TimeUtils
  import opened FsUtils
  import opened Seqs

  type FailureRow = map<string, Option<string>>

  /** The validated fields of one row (`FailureRecordModel`). */
  datatype FailureRecordModel = FailureRecordModel(
    version: string, symbol: string, interval: string, start: Option<string>, end: Option<string>,
    assetType: string, adjust: string, reason: Option<string>, createdAt: Option<string>)

  datatype ValidatedFailureTask = ValidatedFailureTask(
    symbol: string, interval: string, start: DateTime, end: DateTime, assetType: string, adjust: string)

  const AdjustChoices: set<string> := {"auto", "back", "forward", "none", "front", "backward"}

  // ---------------------------------------------------------------------
  // Field validators

  /** `_not_empty`: the stripped value, which must not be blank. */
  function NotEmpty(value: string): (r: Option<string>)
    ensures r.Some? <==> !AllSpace(value)
    ensures r.Some? ==> r.value != [] && Trimmed(r.value)
  {
    StripEmptyIff(value);
    var v := Strip(value);
    if v == [] then None else Some(v)
  }

  /** `_not_empty` gives the stripped value, and a value it accepts is
      accepted again unchanged. */
  lemma NotEmptySpec(value: string)
    ensures NotEmpty(value).Some? ==> NotEmpty(value).value == Strip(value)
    ensures NotEmpty(value).Some? ==> NotEmpty(NotEmpty(value).value) == NotEmpty(value)
  {
    StripIdempotent(value);
  }

  /** `_normalize_datetime`: null and "" become null, anything else is stripped. */
  function NormalizeDatetime(value: Option<string>): (r: Option<string>)
    ensures value.None? || value == Some("") ==> r.None?
    ensures value.Some? && value != Some("") ==> r == Some(Strip(value.value))
  {
    if value.None? || value.value == "" then None else Some(Strip(value.value))
  }

  /** `_normalize_adjust`: blank becomes "auto", then stripped and
      lower-cased, and it must be one of the six modes. (Blank is given
      "auto" directly: stripping and lowering "auto" leaves it as it is.) */
  function NormalizeAdjust(value: string): (r: Option<string>)
    ensures r.Some? ==> r.value in AdjustChoices
    ensures value == "" ==> r == Some("auto")
    ensures r.Some? <==> value == "" || Lower(Strip(value)) in AdjustChoices
    ensures r.Some? && value != "" ==> r.value == Lower(Strip(value))
  {
    if value == "" then Some("auto")
    else
      var n := Lower(Strip(value));
      if n in AdjustChoices then Some(n) else None
  }

  lemma AutoNormal()
    ensures Lower(Strip("auto")) == "auto"
  {
    StripUnchanged("auto");
    var l := Lower("auto");
    assert l[0] == 'a' && l[1] == 'u' && l[2] == 't' && l[3] == 'o';
  }

  /** A normalised adjust mode normalises to itself. */
  lemma NormalizeAdjustIdempotent(value: string)
    requires NormalizeAdjust(value).Some?
    ensures NormalizeAdjust(NormalizeAdjust(value).value) == NormalizeAdjust(value)
  {
    var m := NormalizeAdjust(value).value;
    if value == "" {
      AutoNormal();
    } else {
      var t := Strip(value);
      assert m == Lower(t);
      StripCase(t);
      StripIdempotent(value);
      assert Strip(m) == m;
      LowerIdempotent(t);
      AdjustChoiceNotBlank(m);
    }
  }

  lemma AdjustChoiceNotBlank(a: string)
    requires a in AdjustChoices
    ensures a != []
  {
  }

  /** A text field with a default: absent takes the default, null is a type error. */
  predicate StrOk(row: FailureRow, key: string) {
    key !in row || row[key].Some?
  }

  /** A required field that `_not_empty` accepts. */
  predicate RequiredOk(row: FailureRow, key: string) {
    key in row && row[key].Some? && NotEmpty(row[key].value).Some?
  }

  predicate AdjustOk(row: FailureRow) {
    "adjust" !in row || (row["adjust"].Some? && NormalizeAdjust(row["adjust"].value).Some?)
  }

  /** The checks of `FailureRecordModel` that a row must pass. */
  predicate RecordOk(row: FailureRow) {
    StrOk(row, "version") && RequiredOk(row, "symbol") && RequiredOk(row, "interval")
    && StrOk(row, "asset_type") && AdjustOk(row)
  }

  /** The fields of a row that fail validation, in model order. */
  function FieldErrors(row: FailureRow): (errs: seq<string>) {
    (if StrOk(row, "version") then [] else ["version"])
    + (if RequiredOk(row, "symbol") then [] else ["symbol"])
    + (if RequiredOk(row, "interval") then [] else ["interval"])
    + (if StrOk(row, "asset_type") then [] else ["asset_type"])
    + (if AdjustOk(row) then [] else ["adjust"])
  }

  /** A row fails validation exactly when some field is named as failing. */
  lemma FieldErrorsSpec(row: FailureRow)
    ensures FieldErrors(row) == [] <==> RecordOk(row)
  {
  }

  function TextOr(row: FailureRow, key: string, default: string): string
    requires StrOk(row, key)
  {
    if key in row then row[key].value else default
  }

  function OptionalText(row: FailureRow, key: string): Option<string> {
    if key in row then row[key] else None
  }

  /** `FailureRecordModel.model_validate(row)`: keys outside the model are
      ignored; the error names the failing fields. */
  function ModelValidate(row: FailureRow): (r: Result<FailureRecordModel>)
    ensures r.Ok? <==> RecordOk(row)
    ensures r.Ok? ==> GoodRecord(r.value)
    ensures r.Ok? ==> Some(r.value.symbol) == NotEmpty(row["symbol"].value) && Some(r.value.interval) == NotEmpty(row["interval"].value)
    ensures r.Ok? ==> r.value.start == (if "start" in row then NormalizeDatetime(row["start"]) else None)
    ensures r.Ok? ==> r.value.end == (if "end" in row then NormalizeDatetime(row["end"]) else None)
    ensures r.Ok? ==> r.value.assetType == TextOr(row, "asset_type", "stock")
    ensures r.Err? ==> r.error.name == "ValidationError"
  {
    if !RecordOk(row) then Err(Exc("ValidationError", Join(FieldErrors(row), ',')))
    else
      Ok(FailureRecordModel(
        TextOr(row, "version", "1"),
        NotEmpty(row["symbol"].value).value,
        NotEmpty(row["interval"].value).value,
        if "start" in row then NormalizeDatetime(row["start"]) else None,
        if "end" in row then NormalizeDatetime(row["end"]) else None,
        TextOr(row, "asset_type", "stock"),
        if "adjust" in row then NormalizeAdjust(row["adjust"].value).value else "auto",
        OptionalText(row, "reason"),
        OptionalText(row, "created_at")))
  }

  // ---------------------------------------------------------------------
  // Dates

  /** `_failure_default_interval`: the year before `now`, up to `now`.
      Subtracting a year overflows in year 1. */
  function FailureDefaultInterval(now: DateTime): (r: Result<DateRange>)
    requires now.offset == Some(BeijingOffset) && Representable(now)
    ensures r.Ok? <==> now.wall >= 365 * SecondsPerDay
    ensures r.Ok? ==> r.value.end == now && r.value.start.offset == now.offset && Representable(r.value.start)
    ensures r.Ok? ==> InstantOf(r.value.end) - InstantOf(r.value.start) == 365 * SecondsPerDay
  {
    var w := now.wall - 365 * SecondsPerDay;
    if w >= 0 then Ok(DateRange(DateTime(w, now.offset), now))
    else Err(Exc("OverflowError", "date value out of range"))
  }

  /** The default range of a run in Beijing time, as `FailureDefaultInterval` gives it. */
  predicate DefaultRange(range: DateRange) {
    range.start.offset == Some(BeijingOffset) && range.end.offset == Some(BeijingOffset)
    && Representable(range.start) && Representable(range.end)
    && InstantOf(range.start) <= InstantOf(range.end)
  }

  /** `"+HH:MM"` for an offset of whole minutes, with `":SS"` when it has seconds. */
  function OffsetText(offset: int): (s: string)
    requires -SecondsPerDay < offset < SecondsPerDay
    ensures |s| == 6 || |s| == 9
  {
    var a := if offset < 0 then -offset else offset;
    var sign := if offset < 0 then "-" else "+";
    var hm := sign + Pad2(a / 3600) + ":" + Pad2(a % 3600 / 60);
    if a % 60 == 0 then hm else hm + ":" + Pad2(a % 60)
  }

  /** `dt.isoformat()` of an aware datetime with whole seconds. */
  function IsoFormat(dt: DateTime): (s: string)
    requires Representable(dt) && Aware(dt) && -SecondsPerDay < dt.offset.value < SecondsPerDay
    ensures |s| > 10 && s[..10] == FormatIso(DateOf(dt)) && s[10] == 'T'
  {
    var t := dt.wall % SecondsPerDay;
    var date := FormatIso(DateOf(dt));
    var time := "T" + Pad2(t / 3600) + ":" + Pad2(t % 3600 / 60) + ":" + Pad2(t % 60) + OffsetText(dt.offset.value);
    assert (date + time)[..10] == date;
    date + time
  }

  /** How a row is named in messages (rows count from 2, after the header). */
  function RowText(index: nat): string {
    "failures row " + NatToDigits(index)
  }

  function RecordError(message: string): Exc {
    Exc("ValidationFailureRecordError", message)
  }

  /** `_parse_failure_datetime`: the parsed date, or, when it does not parse,
      the fallback with one warning (lenient) or an error (strict). */
  function FailureDatetime(raw: string, rowNo: nat, field: string, fallback: DateTime, strict: bool)
    : (r: Result<(DateTime, seq<string>)>)
    requires fallback.offset == Some(BeijingOffset) && Representable(fallback)
    ensures r.Err? <==> strict && ParseDate(raw).Err?
    ensures ParseDate(raw).Ok? ==> r == Ok((ParseDate(raw).value, []))
    ensures ParseDate(raw).Err? && !strict ==>
      r.value.0 == fallback && |r.value.1| == 1 && StartsWith(r.value.1[0], RowText(rowNo))
    ensures r.Err? ==> StartsWith(r.error.message, RowText(rowNo)) && r.error.name == "ValidationFailureRecordError"
    ensures r.Ok? ==> Aware(r.value.0) && Representable(r.value.0)
  {
    match ParseDate(raw)
    case Ok(dt) => Ok((dt, []))
    case Err(_) =>
      var message := RowText(rowNo) + ": invalid " + field + "='" + raw + "', fallback=" + IsoFormat(fallback);
      assert StartsWith(message, RowText(rowNo));
      if strict then Err(RecordError(message)) else Ok((fallback, [message]))
  }

  /** A date field that holds something to parse (`if record.start:`). */
  predicate Given(v: Option<string>) {
    v.Some? && v.value != []
  }

  // ---------------------------------------------------------------------
  // One row

  /** A given date's parse, or the default when it is blank or does not parse. */
  function DateOr(v: Option<string>, default: DateTime): (dt: DateTime)
    requires Aware(default) && Representable(default)
    ensures Aware(dt) && Representable(dt)
  {
    if Given(v) && ParseDate(v.value).Ok? then ParseDate(v.value).value else default
  }

  /** A date field with nothing wrong: blank, or a date that parses. */
  predicate DateClean(v: Option<string>) {
    !Given(v) || ParseDate(v.value).Ok?
  }

  /** One date of a row: parsed when given, otherwise the default. */
  function DateField(v: Option<string>, index: nat, field: string, fallback: DateTime, strict: bool)
    : (r: Result<(DateTime, seq<string>)>)
    requires fallback.offset == Some(BeijingOffset) && Representable(fallback)
    ensures r.Err? <==> strict && !DateClean(v)
    ensures r.Err? ==> StartsWith(r.error.message, RowText(index))
    ensures DateClean(v) ==> r == Ok((DateOr(v, fallback), []))
    ensures !DateClean(v) && !strict ==> r.value.0 == fallback && r.value.1 != []
    ensures r.Ok? ==> Aware(r.value.0) && Representable(r.value.0)
  {
    if Given(v) then FailureDatetime(v.value, index, field, fallback, strict) else Ok((fallback, []))
  }

  function MakeTask(rec: FailureRecordModel, start: DateTime, end: DateTime): ValidatedFailureTask {
    ValidatedFailureTask(rec.symbol, rec.interval, start, end,
                         if rec.assetType == "" then "stock" else rec.assetType,
                         if rec.adjust == "" then "auto" else rec.adjust)
  }

  /** What `ModelValidate` guarantees of a record it returns. */
  predicate GoodRecord(rec: FailureRecordModel) {
    rec.symbol != [] && Trimmed(rec.symbol) && rec.interval != [] && Trimmed(rec.interval)
    && rec.adjust in AdjustChoices
  }

  /** No whitespace at either end, as after `strip()`. */
  predicate Trimmed(s: string) {
    s == [] || (!IsSpace(s[0]) && !IsSpace(s[|s| - 1]))
  }

  /** A record whose dates parse and whose start is not after its end. */
  ghost predicate RecordClean(rec: FailureRecordModel, range: DateRange)
    requires DefaultRange(range)
  {
    DateClean(rec.start) && DateClean(rec.end)
    && InstantOf(DateOr(rec.start, range.start)) <= InstantOf(DateOr(rec.end, range.end))
  }

  const StartAfterEndText := ": start > end, will normalize to default range"

  /** The dates, the start > end check and the task of a validated record. */
  function CheckRecord(rec: FailureRecordModel, index: nat, strict: bool, range: DateRange)
    : (r: Result<(Option<ValidatedFailureTask>, seq<string>)>)
    requires DefaultRange(range)
    ensures r.Ok? ==> r.value.0.Some?
  {
    var s := DateField(rec.start, index, "start", range.start, strict);
    if s.Err? then Err(s.error)
    else
      var e := DateField(rec.end, index, "end", range.end, strict);
      if e.Err? then Err(e.error)
      else if InstantOf(s.value.0) > InstantOf(e.value.0) then
        var warning := RowText(index) + StartAfterEndText;
        if strict then Err(RecordError(warning))
        else Ok((Some(MakeTask(rec, range.start, range.end)), s.value.1 + e.value.1 + [warning]))
      else Ok((Some(MakeTask(rec, s.value.0, e.value.0)), s.value.1 + e.value.1))
  }

  /** The one iteration of `validate_failure_rows` for the row numbered
      `index`: the task it adds, if any, and the warnings it adds, or the
      error that ends a strict run. */
  function CheckRow(row: FailureRow, index: nat, strict: bool, range: DateRange)
    : (r: Result<(Option<ValidatedFailureTask>, seq<string>)>)
    requires DefaultRange(range)
  {
    match ModelValidate(row)
    case Err(e) =>
      var message := RowText(index) + " invalid: " + e.message;
      if strict then Err(RecordError(message)) else Ok((None, [message]))
    case Ok(rec) => CheckRecord(rec, index, strict, range)
  }

  /** A row that passes every check: the record validates, each given
      date parses and the start is not after the end. */
  ghost predicate RowClean(row: FailureRow, range: DateRange)
    requires DefaultRange(range)
  {
    ModelValidate(row).Ok? && RecordClean(ModelValidate(row).value, range)
  }

  /** The task a clean row becomes: its own dates, or the defaults where blank. */
  ghost function CleanTask(row: FailureRow, range: DateRange): ValidatedFailureTask
    requires DefaultRange(range) && RowClean(row, range)
  {
    var rec := ModelValidate(row).value;
    MakeTask(rec, DateOr(rec.start, range.start), DateOr(rec.end, range.end))
  }

  /** A task the ledger may hand to the downloader: named, with a valid
      adjust mode and a range that does not run backwards. */
  ghost predicate GoodTask(t: ValidatedFailureTask) {
    t.symbol != [] && Trimmed(t.symbol) && t.interval != [] && Trimmed(t.interval)
    && t.adjust in AdjustChoices && t.assetType != []
    && Aware(t.start) && Aware(t.end) && Representable(t.start) && Representable(t.end)
    && InstantOf(t.start) <= InstantOf(t.end)
  }

  /** A validated record: clean, it gives its task and no warning; not
      clean, it raises naming the row (strict) or gives its task with at
      least one warning (lenient); the task is always good. */
  lemma CheckRecordSpec(rec: FailureRecordModel, index: nat, strict: bool, range: DateRange)
    requires DefaultRange(range) && GoodRecord(rec)
    ensures RecordClean(rec, range) ==>
      CheckRecord(rec, index, strict, range) == Ok((Some(MakeTask(rec, DateOr(rec.start, range.start), DateOr(rec.end, range.end))), []))
    ensures !RecordClean(rec, range) && strict ==>
      CheckRecord(rec, index, strict, range).Err?
      && StartsWith(CheckRecord(rec, index, strict, range).error.message, RowText(index))
    ensures !RecordClean(rec, range) && !strict ==>
      CheckRecord(rec, index, strict, range).Ok? && CheckRecord(rec, index, strict, range).value.1 != []
    ensures CheckRecord(rec, index, strict, range).Ok? ==> GoodTask(CheckRecord(rec, index, strict, range).value.0.value)
  {
    var s := DateField(rec.start, index, "start", range.start, strict);
    var e := DateField(rec.end, index, "end", range.end, strict);
    var r := CheckRecord(rec, index, strict, range);
    if s.Err? {
      assert r == Err(s.error);
    } else if e.Err? {
      assert r == Err(e.error);
    } else if InstantOf(s.value.0) > InstantOf(e.value.0) {
      var warning := RowText(index) + StartAfterEndText;
      assert StartsWith(warning, RowText(index));
      assert !RecordClean(rec, range);
      if strict {
        assert r == Err(RecordError(warning));
      } else {
        assert r == Ok((Some(MakeTask(rec, range.start, range.end)), s.value.1 + e.value.1 + [warning]));
        MakeTaskGood(rec, range.start, range.end);
      }
    } else {
      assert r == Ok((Some(MakeTask(rec, s.value.0, e.value.0)), s.value.1 + e.value.1));
      MakeTaskGood(rec, s.value.0, e.value.0);
      if RecordClean(rec, range) {
        assert s == Ok((DateOr(rec.start, range.start), []));
        assert e == Ok((DateOr(rec.end, range.end), []));
        assert s.value.1 + e.value.1 == [];
      } else if !DateClean(rec.start) {
        assert s.value.1 != [];
      } else {
        assert e.value.1 != [];
      }
    }
  }

  lemma MakeTaskGood(rec: FailureRecordModel, start: DateTime, end: DateTime)
    requires GoodRecord(rec)
    requires Aware(start) && Aware(end) && Representable(start) && Representable(end)
    requires InstantOf(start) <= InstantOf(end)
    ensures GoodTask(MakeTask(rec, start, end))
  {
  }

  /** What one row does in each mode: the record's behaviour when it
      validates; otherwise an error naming the row (strict) or one warning
      and no task (lenient). */
  lemma CheckRowSpec(row: FailureRow, index: nat, strict: bool, range: DateRange)
    requires DefaultRange(range)
    ensures RowClean(row, range) ==> CheckRow(row, index, strict, range) == Ok((Some(CleanTask(row, range)), []))
    ensures !RowClean(row, range) && strict ==>
      CheckRow(row, index, strict, range).Err?
      && StartsWith(CheckRow(row, index, strict, range).error.message, RowText(index))
    ensures !RowClean(row, range) && !strict ==>
      CheckRow(row, index, strict, range).Ok? && CheckRow(row, index, strict, range).value.1 != []
    ensures !strict ==> (CheckRow(row, index, strict, range).value.0.Some? <==> ModelValidate(row).Ok?)
    ensures CheckRow(row, index, strict, range).Ok? && CheckRow(row, index, strict, range).value.0.Some? ==>
      GoodTask(CheckRow(row, index, strict, range).value.0.value)
  {
    match ModelValidate(row)
    case Err(e) =>
      assert StartsWith(RowText(index) + " invalid: " + e.message, RowText(index));
    case Ok(rec) =>
      CheckRecordSpec(rec, index, strict, range);
  }

  // ---------------------------------------------------------------------
  // All rows

  function TaskList(t: Option<ValidatedFailureTask>): seq<ValidatedFailureTask> {
    if t.Some? then [t.value] else []
  }

  /** `validate_failure_rows` after the default range is fixed: the rows in
      order, numbered from 2, tasks and warnings accumulated, the first
      error ending the run. */
  function ValidateRows(rows: seq<FailureRow>, strict: bool, range: DateRange)
    : (r: Result<(seq<ValidatedFailureTask>, seq<string>)>)
    requires DefaultRange(range)
    ensures r.Ok? ==> |r.value.0| <= |rows|
  {
    if rows == [] then Ok(([], []))
    else
      match ValidateRows(rows[..|rows| - 1], strict, range)
      case Err(e) => Err(e)
      case Ok(acc) =>
        match CheckRow(rows[|rows| - 1], |rows| + 1, strict, range)
        case Err(e) => Err(e)
        case Ok(step) => Ok((acc.0 + TaskList(step.0), acc.1 + step.1))
  }

  /** Once a strict run has raised, later rows change nothing. */
  lemma {:induction false} ErrorStops(rows: seq<FailureRow>, i: nat, strict: bool, range: DateRange)
    requires DefaultRange(range) && i <= |rows| && ValidateRows(rows[..i], strict, range).Err?
    ensures ValidateRows(rows, strict, range) == ValidateRows(rows[..i], strict, range)
    decreases |rows| - i
  {
    if i < |rows| {
      assert rows[..i + 1][..i] == rows[..i];
      ErrorStops(rows, i + 1, strict, range);
    } else {
      assert rows[..i] == rows;
    }
  }

  /** The body of the loop of `validate_failure_rows` for the row numbered
      `index`: what it appends to the tasks and warnings, or what it raises. */
  method ValidateRow(row: FailureRow, index: nat, strict: bool, range: DateRange)
    returns (step: Result<(Option<ValidatedFailureTask>, seq<string>)>)
    requires DefaultRange(range)
    ensures step == CheckRow(row, index, strict, range)
  {
    var record := ModelValidate(row);
    if record.Err? {
      var message := RowText(index) + " invalid: " + record.error.message;
      if strict {
        return Err(RecordError(message));
      }
      return Ok((None, [message]));
    }
    step := ValidateRecord(record.value, index, strict, range);
  }

  /** The dates and the start > end check of a row whose record validated. */
  method ValidateRecord(rec: FailureRecordModel, index: nat, strict: bool, range: DateRange)
    returns (step: Result<(Option<ValidatedFailureTask>, seq<string>)>)
    requires DefaultRange(range)
    ensures step == CheckRecord(rec, index, strict, range)
  {
    var start := DateField(rec.start, index, "start", range.start, strict);
    if start.Err? {
      return Err(start.error);
    }
    var end := DateField(rec.end, index, "end", range.end, strict);
    if end.Err? {
      return Err(end.error);
    }
    var taskStart, taskEnd := start.value.0, end.value.0;
    var warnings := start.value.1 + end.value.1;
    if InstantOf(taskStart) > InstantOf(taskEnd) {
      var warning := RowText(index) + StartAfterEndText;
      if strict {
        return Err(RecordError(warning));
      }
      warnings := warnings + [warning];
      taskStart, taskEnd := range.start, range.end;
    }
    step := Ok((Some(MakeTask(rec, taskStart, taskEnd)), warnings));
  }

  /** `validate_failure_rows(rows, strict)` with `now` the Beijing clock. */
  method ValidateFailureRows(rows: seq<FailureRow>, strict: bool, now: DateTime)
    returns (r: Result<(seq<ValidatedFailureTask>, seq<string>)>)
    requires now.offset == Some(BeijingOffset) && Representable(now)
    ensures FailureDefaultInterval(now).Err? ==> r == Err(FailureDefaultInterval(now).error)
    ensures FailureDefaultInterval(now).Ok? ==> r == ValidateRows(rows, strict, FailureDefaultInterval(now).value)
  {
    var interval := FailureDefaultInterval(now);
    if interval.Err? {
      return Err(interval.error);
    }
    var range := interval.value;
    var failures: seq<ValidatedFailureTask> := [];
    var warnings: seq<string> := [];
    for i := 0 to |rows|
      invariant ValidateRows(rows[..i], strict, range) == Ok((failures, warnings))
    {
      assert rows[..i + 1][..i] == rows[..i];
      var step := ValidateRow(rows[i], i + 2, strict, range);
      if step.Err? {
        ErrorStops(rows, i + 1, strict, range);
        return Err(step.error);
      }
      failures := failures + TaskList(step.value.0);
      warnings := warnings + step.value.1;
    }
    assert rows[..|rows|] == rows;
    r := Ok((failures, warnings));
  }

  // ---------------------------------------------------------------------
  // Properties of a run

  /** A run that succeeds succeeded on all but the last row, and adds that row's task and warnings. */
  lemma ValidateRowsOk(rows: seq<FailureRow>, strict: bool, range: DateRange)
    requires DefaultRange(range) && rows != [] && ValidateRows(rows, strict, range).Ok?
    ensures ValidateRows(rows[..|rows| - 1], strict, range).Ok? && CheckRow(rows[|rows| - 1], |rows| + 1, strict, range).Ok?
    ensures ValidateRows(rows, strict, range).value ==
      (ValidateRows(rows[..|rows| - 1], strict, range).value.0 + TaskList(CheckRow(rows[|rows| - 1], |rows| + 1, strict, range).value.0),
       ValidateRows(rows[..|rows| - 1], strict, range).value.1 + CheckRow(rows[|rows| - 1], |rows| + 1, strict, range).value.1)
  {
  }

  /** A lenient run never raises. */
  lemma {:induction false} LenientNeverRaises(rows: seq<FailureRow>, range: DateRange)
    requires DefaultRange(range)
    ensures ValidateRows(rows, false, range).Ok?
  {
    if rows != [] {
      LenientNeverRaises(rows[..|rows| - 1], range);
      CheckRowSpec(rows[|rows| - 1], |rows| + 1, false, range);
    }
  }

  /** Every task either mode returns is good: in particular its start is
      not after its end. */
  lemma {:induction false} TasksGood(rows: seq<FailureRow>, strict: bool, range: DateRange)
    requires DefaultRange(range)
    requires ValidateRows(rows, strict, range).Ok?
    ensures forall k :: 0 <= k < |ValidateRows(rows, strict, range).value.0| ==>
      GoodTask(ValidateRows(rows, strict, range).value.0[k])
  {
    if rows != [] {
      var init, last := rows[..|rows| - 1], rows[|rows| - 1];
      ValidateRowsOk(rows, strict, range);
      TasksGood(init, strict, range);
      CheckRowGood(last, |rows| + 1, strict, range);
      var acc, step := ValidateRows(init, strict, range).value, CheckRow(last, |rows| + 1, strict, range).value;
      var ts := ValidateRows(rows, strict, range).value.0;
      forall k | 0 <= k < |ts| ensures GoodTask(ts[k]) {
        if k < |acc.0| {
          assert ts[k] == acc.0[k];
        } else {
          assert ts[k] == step.0.value;
        }
      }
    }
  }

  /** Row cleanliness as a predicate on rows. */
  ghost function CleanIn(range: DateRange): FailureRow -> bool
    requires DefaultRange(range)
  {
    row => RowClean(row, range)
  }

  /** The position of the first row that is not clean, or the number of
      rows when all are. */
  ghost function FirstBad(rows: seq<FailureRow>, range: DateRange): (j: nat)
    requires DefaultRange(range)
    ensures j <= |rows|
  {
    FirstFailing(rows, CleanIn(range))
  }

  /** Every row before `FirstBad` is clean and the one at it is not. */
  lemma FirstBadSpec(rows: seq<FailureRow>, range: DateRange)
    requires DefaultRange(range)
    ensures forall k :: 0 <= k < FirstBad(rows, range) ==> RowClean(rows[k], range)
    ensures FirstBad(rows, range) < |rows| ==> !RowClean(rows[FirstBad(rows, range)], range)
  {
    FirstFailingSpec(rows, CleanIn(range));
  }

  /** The tasks of clean rows, in order. */
  ghost function CleanTasks(rows: seq<FailureRow>, range: DateRange): (ts: seq<ValidatedFailureTask>)
    requires DefaultRange(range) && FirstBad(rows, range) == |rows|
    ensures |ts| == |rows|
  {
    if rows == [] then []
    else CleanTasks(rows[..|rows| - 1], range) + [CleanTask(rows[|rows| - 1], range)]
  }

  /** The `k`-th clean task is the task of the `k`-th row. */
  lemma {:induction false} CleanTasksAt(rows: seq<FailureRow>, range: DateRange, k: nat)
    requires DefaultRange(range) && FirstBad(rows, range) == |rows| && k < |rows|
    ensures RowClean(rows[k], range) && CleanTasks(rows, range)[k] == CleanTask(rows[k], range)
  {
    if k < |rows| - 1 {
      CleanTasksAt(rows[..|rows| - 1], range, k);
      assert rows[..|rows| - 1][k] == rows[k];
    }
  }

  /** On clean rows both modes return one task per row, in row order, and
      no warning. */
  lemma {:induction false} CleanRowsInOrder(rows: seq<FailureRow>, strict: bool, range: DateRange)
    requires DefaultRange(range) && FirstBad(rows, range) == |rows|
    ensures ValidateRows(rows, strict, range) == Ok((CleanTasks(rows, range), []))
  {
    if rows != [] {
      var init, last := rows[..|rows| - 1], rows[|rows| - 1];
      assert FirstFailing(rows, CleanIn(range)) == |rows|;
      assert FirstBad(init, range) == |init| && CleanIn(range)(last);
      CleanRowsInOrder(init, strict, range);
      CheckRowClean(last, |rows| + 1, strict, range);
      assert CleanTasks(rows, range) == CleanTasks(init, range) + [CleanTask(last, range)];
    }
  }

  /** The last fact of `CheckRowSpec` alone. */
  lemma CheckRowGood(row: FailureRow, index: nat, strict: bool, range: DateRange)
    requires DefaultRange(range)
    ensures CheckRow(row, index, strict, range).Ok? && CheckRow(row, index, strict, range).value.0.Some? ==>
      GoodTask(CheckRow(row, index, strict, range).value.0.value)
  {
    CheckRowSpec(row, index, strict, range);
  }

  /** The first fact of `CheckRowSpec` alone. */
  lemma CheckRowClean(row: FailureRow, index: nat, strict: bool, range: DateRange)
    requires DefaultRange(range) && RowClean(row, range)
    ensures CheckRow(row, index, strict, range) == Ok((Some(CleanTask(row, range)), []))
  {
    CheckRowSpec(row, index, strict, range);
  }

  /** A strict run succeeds exactly when every row is clean; when it fails,
      its message names the first row that is not. */
  lemma {:induction false} StrictFailsAtFirstBadRow(rows: seq<FailureRow>, range: DateRange)
    requires DefaultRange(range)
    ensures ValidateRows(rows, true, range).Ok? <==> FirstBad(rows, range) == |rows|
    ensures ValidateRows(rows, true, range).Err? ==>
      StartsWith(ValidateRows(rows, true, range).error.message, RowText(FirstBad(rows, range) + 2))
  {
    if rows != [] {
      StrictFailsAtFirstBadRow(rows[..|rows| - 1], range);
      CheckRowSpec(rows[|rows| - 1], |rows| + 1, true, range);
    }
  }
  /** The number of rows whose record validates. */
  function ValidRecords(rows: seq<FailureRow>): (n: nat)
    ensures n <= |rows|
  {
    if rows == [] then 0
    else ValidRecords(rows[..|rows| - 1]) + (if ModelValidate(rows[|rows| - 1]).Ok? then 1 else 0)
  }

  /** A lenient run returns one task per row whose record validates, and it
      warns exactly when some row is not clean. */
  lemma {:induction false} LenientCounts(rows: seq<FailureRow>, range: DateRange)
    requires DefaultRange(range)
    ensures ValidateRows(rows, false, range).Ok?
    ensures |ValidateRows(rows, false, range).value.0| == ValidRecords(rows)
    ensures ValidateRows(rows, false, range).value.1 == [] <==> FirstBad(rows, range) == |rows|
  {
    LenientNeverRaises(rows, range);
    if rows != [] {
      LenientCounts(rows[..|rows| - 1], range);
      CheckRowSpec(rows[|rows| - 1], |rows| + 1, false, range);
    }
  }

  /** A row with blank dates gets the default range, the year before `now`. */
  lemma BlankDatesDefault(row: FailureRow, range: DateRange)
    requires DefaultRange(range) && RowClean(row, range)
    requires !Given(ModelValidate(row).value.start) && !Given(ModelValidate(row).value.end)
    ensures CleanTask(row, range).start == range.start && CleanTask(row, range).end == range.end
  {
  }

  // ---------------------------------------------------------------------
  // Writing the ledger

  const FailureFields: seq<string> :=
    ["version", "symbol", "interval", "start", "end", "asset_type", "adjust", "reason", "created_at"]

  /** `out.setdefault("version", "1")` and `out.setdefault("created_at", now)`. */
  function WithDefaults(row: map<string, string>, now: string): (out: map<string, string>)
    ensures out.Keys == row.Keys + {"version", "created_at"}
    ensures forall k :: k in row ==> out[k] == row[k]
    ensures "version" !in row ==> out["version"] == "1"
    ensures "created_at" !in row ==> out["created_at"] == now
  {
    var v := if "version" in row then row else row["version" := "1"];
    if "created_at" in v then v else v["created_at" := now]
  }

  /** Filling in the defaults a second time, at any clock reading, changes nothing. */
  lemma WithDefaultsIdempotent(row: map<string, string>, now: string, later: string)
    ensures WithDefaults(WithDefaults(row, now), later) == WithDefaults(row, now)
  {
  }

  /** `DictWriter.writerow` refuses a row with a key outside the header. */
  predicate HasExtraKey(row: map<string, string>) {
    !(row.Keys <= FailureFieldSet)
  }

  const FailureFieldSet: set<string> := set f | f in FailureFields

  /** How many rows are written before the first one with an extra key. */
  function WrittenCount(rows: seq<map<string, string>>): (n: nat)
    ensures n <= |rows|
    ensures forall k :: 0 <= k < n ==> !HasExtraKey(rows[k])
    ensures n < |rows| ==> HasExtraKey(rows[n])
  {
    if rows == [] then 0
    else if HasExtraKey(rows[0]) then 0
    else
      var n := WrittenCount(rows[1..]);
      assert forall k :: 1 <= k < n + 1 ==> rows[k] == rows[1..][k - 1];
      n + 1
  }

  function Defaulted(rows: seq<map<string, string>>, now: string): (out: seq<map<string, string>>)
    ensures |out| == |rows|
    ensures forall k :: 0 <= k < |rows| ==> out[k] == WithDefaults(rows[k], now)
  {
    seq(|rows|, k requires 0 <= k < |rows| => WithDefaults(rows[k], now))
  }

  /** `WrittenCount` is the one position with clean rows before it and a
      row with an extra key, or the end, at it. */
  lemma WrittenCountAt(rows: seq<map<string, string>>, i: nat)
    requires i <= |rows| && forall k :: 0 <= k < i ==> !HasExtraKey(rows[k])
    requires i < |rows| ==> HasExtraKey(rows[i])
    ensures WrittenCount(rows) == i
  {
  }

  /** The defaults are header fields, so they add no extra key. */
  lemma ExtraKeyDefaults(row: map<string, string>, now: string)
    ensures HasExtraKey(WithDefaults(row, now)) == HasExtraKey(row)
  {
    assert "version" in FailureFieldSet && "created_at" in FailureFieldSet;
  }

  lemma NoExtraKeySnoc(rows: seq<map<string, string>>, i: nat)
    requires i < |rows| && !HasExtraKey(rows[i])
    requires forall k :: 0 <= k < i ==> !HasExtraKey(rows[k])
    ensures forall k :: 0 <= k < i + 1 ==> !HasExtraKey(rows[k])
  {
  }

  lemma DefaultedSnoc(rows: seq<map<string, string>>, i: nat, now: string)
    requires i < |rows|
    ensures Defaulted(rows[..i + 1], now) == Defaulted(rows[..i], now) + [WithDefaults(rows[i], now)]
  {
    var a, b := Defaulted(rows[..i + 1], now), Defaulted(rows[..i], now) + [WithDefaults(rows[i], now)];
    assert |a| == |b|;
    forall k | 0 <= k < |a| ensures a[k] == b[k] {
      assert rows[..i + 1][k] == rows[k];
    }
  }

  /** `write_failures_rows`: the file is truncated, the header written, and
      the rows written one by one with their defaults, until a row holds a
      key outside the header, which raises with the earlier rows kept. */
  method WriteFailuresRows(fs: FileSystem, path: Path, rows: seq<map<string, string>>, now: string)
    returns (err: Option<Exc>)
    modifies fs
    ensures fs.files == old(fs.files)[path := Csv(FailureFields, Defaulted(rows[..WrittenCount(rows)], now))]
    ensures err.Some? <==> WrittenCount(rows) < |rows|
  {
    var written: seq<map<string, string>> := [];
    fs.Write(path, Csv(FailureFields, written));
    for i := 0 to |rows|
      invariant forall k :: 0 <= k < i ==> !HasExtraKey(rows[k])
      invariant written == Defaulted(rows[..i], now)
      invariant fs.files == old(fs.files)[path := Csv(FailureFields, written)]
    {
      var out := WithDefaults(rows[i], now);
      ExtraKeyDefaults(rows[i], now);
      if HasExtraKey(out) {
        WrittenCountAt(rows, i);
        return Some(ValueError("dict contains fields not in fieldnames"));
      }
      DefaultedSnoc(rows, i, now);
      NoExtraKeySnoc(rows, i);
      written := written + [out];
      fs.Write(path, Csv(FailureFields, written));
    }
    WrittenCountAt(rows, |rows|);
    assert rows[..|rows|] == rows;
    err := None;
  }
}
