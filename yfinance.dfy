/** `sources/yfinance_source.py`: the Yahoo Finance source.

    The provider calls are outside this model: for each attempt of the
    retry loop, `outcome(k)` tells what `yf.download` answers and what
    `Ticker.history` answers (the same answer each time it is called
    within that attempt). An answer is an exception, something that is
    not a frame, or a frame given by its column names, its row count and
    whether a datetime column was found in it. The sleeps are returned as
    the list of delays asked for. */
module YFinance {
  import opened Wrappers
  import opened Text
  import opened Seqs
  import opened RateLimiting
  import Schema

  // ---------------------------------------------------------------------
  // The adjust policy

  const AdjustPolicyError := ValueError(
    "yfinance strict adjust policy only supports auto|none for non-ashare assets. "
    + "If you need back/forward/repaired adjustments, use --asset-type ashare.")

  /** The adjust check of `fetch_ohlcv`: the lowercased value (not
      stripped) must be "auto" or "none"; the result is `auto_adjust`. */
  function AutoAdjust(adjust: string): (r: Result<bool>)
    ensures r.Ok? <==> Lower(adjust) == "auto" || Lower(adjust) == "none"
    ensures r.Ok? ==> (r.value <==> Lower(adjust) == "auto")
    ensures r.Err? ==> r.error == AdjustPolicyError
  {
    var a := Lower(adjust);
    if a != "auto" && a != "none" then Err(AdjustPolicyError) else Ok(a == "auto")
  }

  /** Letter case does not matter, but surrounding whitespace is refused. */
  lemma AutoAdjustCases()
    ensures AutoAdjust("AUTO") == Ok(true) && AutoAdjust("None") == Ok(false)
    ensures AutoAdjust(" auto").Err?
  {
    assert Lower("AUTO") == "auto";
    assert Lower("None") == "none";
    assert Lower(" auto")[0] == ' ';
  }

  // ---------------------------------------------------------------------
  // Empty-chart errors

  /** `_is_empty_chart_error`: the message holds one of four tell-tale texts. */
  predicate IsEmptyChartError(message: string) {
    Contains(message, "'NoneType' object is not subscriptable")
    || Contains(message, "chart']['result'] is None")
    || Contains(message, "No data found, symbol may be delisted")
    || Contains(message, "No data found")
  }

  /** A piece that starts with `p` and is found in `s` makes `p` found in `s`. */
  lemma ContainsPrefix(s: string, sub: string, p: string)
    requires Contains(s, sub) && |p| <= |sub| && sub[..|p|] == p
    ensures Contains(s, p)
  {
    var i := ContainsWitness(s, sub);
    assert s[i..i + |p|] == s[i..i + |sub|][..|p|];
    ContainsAt(s, p, i);
  }

  /** The third text contains the fourth, so three texts decide the test. */
  lemma EmptyChartThreeTexts(message: string)
    ensures IsEmptyChartError(message) <==>
      Contains(message, "'NoneType' object is not subscriptable")
      || Contains(message, "chart']['result'] is None")
      || Contains(message, "No data found")
  {
    var long := "No data found, symbol may be delisted";
    if Contains(message, long) {
      ContainsPrefix(message, long, "No data found");
    }
  }

  /** Whether the message reports HTTP 429. */
  predicate IsRateLimited(message: string) {
    Contains(message, "429") || Contains(message, "Too Many Requests")
  }

  // ---------------------------------------------------------------------
  // Column de-duplication

  /** The stripped name, or "col" for a blank one. */
  function BaseName(raw: string): (b: string)
    ensures b != ""
  {
    var b := Strip(raw);
    if b == "" then "col" else b
  }

  /** The name for the `idx`-th repeat of a base name (0 for the first). */
  function NumberedName(base: string, idx: nat): string {
    if idx == 0 then base else base + "_" + NatToDigits(idx)
  }

  /** The base names of the columns. */
  function Bases(columns: seq<string>): (r: seq<string>)
    ensures |r| == |columns| && forall i :: 0 <= i < |columns| ==> r[i] == BaseName(columns[i])
  {
    seq(|columns|, i requires 0 <= i < |columns| => BaseName(columns[i]))
  }

  /** How often `base` occurs among the first `i` names. */
  function Occurrences(names: seq<string>, i: nat, base: string): nat
    requires i <= |names|
  {
    if i == 0 then 0
    else Occurrences(names, i - 1, base) + (if names[i - 1] == base then 1 else 0)
  }

  /** The name column `i` gets: its base name, numbered by how often that
      base name occurred before. */
  function UniqueName(bases: seq<string>, i: nat): string
    requires i < |bases|
  {
    NumberedName(bases[i], Occurrences(bases, i, bases[i]))
  }

  /** The new names of the first `n` columns, one after the other. */
  function Renamed(bases: seq<string>, n: nat): seq<string>
    requires n <= |bases|
  {
    if n == 0 then [] else Renamed(bases, n - 1) + [UniqueName(bases, n - 1)]
  }

  /** Column by column, `Renamed` gives each column its unique name. */
  lemma {:induction false} RenamedAt(bases: seq<string>, n: nat)
    requires n <= |bases|
    ensures |Renamed(bases, n)| == n
    ensures forall i :: 0 <= i < n ==> Renamed(bases, n)[i] == UniqueName(bases, i)
  {
    if n > 0 {
      RenamedAt(bases, n - 1);
    }
  }

  /** The column names after de-duplication. */
  function UniqueColumns(columns: seq<string>): (r: seq<string>)
    ensures |r| == |columns|
    ensures forall i :: 0 <= i < |columns| ==> r[i] == UniqueName(Bases(columns), i)
  {
    RenamedAt(Bases(columns), |columns|);
    Renamed(Bases(columns), |columns|)
  }

  /** The entry of `seen` for a base name, 0 when absent (`seen.get(base, 0)`). */
  function Get(seen: map<string, nat>, base: string): nat {
    if base in seen then seen[base] else 0
  }

  /** The `seen` map after the first `i` names: each name with its number
      of occurrences. */
  function Counts(names: seq<string>, i: nat): map<string, nat>
    requires i <= |names|
  {
    if i == 0 then map[]
    else
      var seen := Counts(names, i - 1);
      seen[names[i - 1] := Get(seen, names[i - 1]) + 1]
  }

  /** `seen.get(b, 0)` after the first `i` names counts `b` among them. */
  lemma {:induction false} CountsOccurrences(names: seq<string>, i: nat, b: string)
    requires i <= |names|
    ensures Get(Counts(names, i), b) == Occurrences(names, i, b)
  {
    if i > 0 {
      CountsOccurrences(names, i - 1, b);
    }
  }

  /** One step of the loop: the next name is numbered by `seen`, which
      then counts it. */
  lemma DedupStep(bases: seq<string>, i: nat, seen: map<string, nat>)
    requires i < |bases| && seen == Counts(bases, i)
    ensures Renamed(bases, i + 1) == Renamed(bases, i) + [NumberedName(bases[i], Get(seen, bases[i]))]
    ensures Counts(bases, i + 1) == seen[bases[i] := Get(seen, bases[i]) + 1]
  {
    CountsOccurrences(bases, i, bases[i]);
  }

  /** The de-duplication loop over the base names: `seen` counts each
      base name met so far. */
  method NumberNames(bases: seq<string>) returns (unique: seq<string>)
    ensures unique == Renamed(bases, |bases|)
  {
    var seen: map<string, nat> := map[];
    unique := [];
    var i := 0;
    while i < |bases|
      invariant 0 <= i <= |bases|
      invariant unique == Renamed(bases, i)
      invariant seen == Counts(bases, i)
    {
      var base := bases[i];
      var idx := Get(seen, base);
      DedupStep(bases, i, seen);
      seen := seen[base := idx + 1];
      unique := unique + [NumberedName(base, idx)];
      i := i + 1;
    }
  }

  /** The column renaming of `fetch_ohlcv`: base names, then numbering. */
  method DedupColumns(columns: seq<string>) returns (unique: seq<string>)
    ensures unique == UniqueColumns(columns)
  {
    unique := NumberNames(Bases(columns));
  }

  /** A name absent from the first `i` names has not been counted. */
  lemma {:induction false} NotSeenBefore(names: seq<string>, i: nat, base: string)
    requires i <= |names|
    requires forall j :: 0 <= j < i ==> names[j] != base
    ensures Occurrences(names, i, base) == 0
  {
    if i > 0 {
      NotSeenBefore(names, i - 1, base);
    }
  }

  /** Counting past an occurrence counts it. */
  lemma {:induction false} OccurrencesGrow(names: seq<string>, i: nat, j: nat)
    requires i < j <= |names|
    ensures Occurrences(names, j, names[i]) >= Occurrences(names, i, names[i]) + 1
    decreases j - i
  {
    if j > i + 1 {
      OccurrencesGrow(names, i, j - 1);
    }
  }

  /** A base name met for the first time keeps its name. */
  lemma FirstOccurrenceKept(columns: seq<string>, i: nat)
    requires i < |columns|
    requires forall j :: 0 <= j < i ==> BaseName(columns[j]) != BaseName(columns[i])
    ensures UniqueColumns(columns)[i] == BaseName(columns[i])
  {
    NotSeenBefore(Bases(columns), i, BaseName(columns[i]));
  }

  /** Two occurrences of the same base name get different names. */
  lemma SameBaseDistinctNames(columns: seq<string>, i: nat, j: nat)
    requires i < j < |columns| && BaseName(columns[i]) == BaseName(columns[j])
    ensures UniqueColumns(columns)[i] != UniqueColumns(columns)[j]
  {
    var bases := Bases(columns);
    var b := bases[i];
    OccurrencesGrow(bases, i, j);
    NumberedNamesDiffer(b, Occurrences(bases, i, b), Occurrences(bases, j, b));
  }

  /** Different repeat numbers give different names. */
  lemma NumberedNamesDiffer(base: string, m: nat, n: nat)
    requires m < n
    ensures NumberedName(base, m) != NumberedName(base, n)
  {
    if m > 0 {
      var x := NumberedName(base, m);
      var y := NumberedName(base, n);
      if x == y {
        var dm := NatToDigits(m);
        var dn := NatToDigits(n);
        assert |dm| == |dn|;
        assert dm == x[|base| + 1..] && dn == y[|base| + 1..];
        DigitsRoundTrip(m);
        DigitsRoundTrip(n);
        assert false;
      }
    }
  }

  /** The numbering can clash with a name already present: ["a", "a", "a_1"]
      becomes ["a", "a_1", "a_1"], so the result is not always free of
      repeats. */
  lemma DedupCanRepeat()
    ensures UniqueColumns(["a", "a", "a_1"]) == ["a", "a_1", "a_1"]
  {
    var cols := ["a", "a", "a_1"];
    PrintableNotSpace('a');
    PrintableNotSpace('1');
    StripUnchanged("a");
    StripUnchanged("a_1");
    assert BaseName("a") == "a" && BaseName("a_1") == "a_1";
    assert Bases(cols) == ["a", "a", "a_1"];
    assert NatToDigits(1) == "1";
    var r := UniqueColumns(cols);
    assert r[0] == "a" && r[1] == "a_1" && r[2] == "a_1";
  }

  // ---------------------------------------------------------------------
  // The retry loop

  /** What a provider call answers: an exception, `None`, or a frame. A
      frame is given by its column names after the datetime column has
      been renamed, its row count after rows without a datetime are
      dropped, and whether a datetime column was found. */
  datatype Answer = Raised(error: Exc) | NoFrame | Frame(columns: seq<string>, rows: nat, hasDatetime: bool)

  /** The answers of `yf.download` and of `Ticker.history` in one attempt. */
  datatype YAttempt = YAttempt(download: Answer, history: Answer)

  /** The data a fetch returns: its columns after de-duplication and
      `normalize_ohlcv_columns`, and its row count; no columns and no rows
      for an empty frame. */
  datatype Fetched = Fetched(columns: seq<string>, rows: nat)

  const NoData := Fetched([], 0)

  /** `OhlcvResult`: the data and the (lowercased) adjustment. */
  datatype OhlcvResult = OhlcvResult(data: Fetched, adjustment: string)

  /** `df is None or df.empty`. */
  /** A frame with rows: not `df is None or df.empty`. */
  predicate HasRows(a: Answer) {
    a.Frame? && a.rows > 0
  }

  /** What the `try` block of one attempt does: return data, or raise. */
  datatype TryOutcome = Returned(data: Fetched) | Threw(error: Exc)

  const DatetimeMissing := Exc("RuntimeError", "datetime not found in yfinance result columns")

  /** A frame with a datetime column as `pl.from_pandas` and
      `normalize_ohlcv_columns` leave it: its de-duplicated column names
      normalised, or the error raised when two of them normalise to one
      name. */
  function Normalised(columns: seq<string>, rows: nat): Result<Fetched> {
    var n := Schema.NormalizeOhlcvColumns(UniqueColumns(columns));
    if n.Err? then Err(n.error) else Ok(Fetched(n.value, rows))
  }

  /** The `try` block: `download`, or `history` when that gave no frame; for
      a symbol with "=" an empty answer is replaced by a non-empty
      `history` answer (an empty-chart error there counts as no answer);
      an empty frame returns no data; a frame without a datetime column
      raises; otherwise the frame's columns are de-duplicated and
      normalised, which raises when two of them normalise to one name. */
  function TryBlock(symbol: string, a: YAttempt): (r: TryOutcome)
    ensures r.Returned? ==> r.data == NoData || (r.data.rows > 0 && Schema.Distinct(r.data.columns))
    ensures (if a.download.NoFrame? then a.history else a.download).Raised? ==> r.Threw?
    ensures a.download.Frame? && a.download.rows == 0 && '=' !in symbol ==> r == Returned(NoData)
    ensures HasRows(a.download) && !a.download.hasDatetime ==> r == Threw(DatetimeMissing)
  {
    var first := if a.download.NoFrame? then a.history else a.download;
    if first.Raised? then Threw(first.error)
    else if !HasRows(first) && '=' in symbol && a.history.Raised? && !IsEmptyChartError(a.history.error.message) then
      Threw(a.history.error)
    else
      var df := if !HasRows(first) && '=' in symbol && HasRows(a.history) then a.history else first;
      if !HasRows(df) then Returned(NoData)
      else if !df.hasDatetime then Threw(DatetimeMissing)
      else
        var n := Normalised(df.columns, df.rows);
        if n.Err? then Threw(n.error) else Returned(n.value)
  }

  /** A downloaded frame with rows and a datetime column comes back with
      its de-duplicated columns normalised, or raises normalisation's
      error. */
  lemma TryBlockNormalises(symbol: string, a: YAttempt)
    ensures HasRows(a.download) && a.download.hasDatetime ==>
      var n := Schema.NormalizeOhlcvColumns(UniqueColumns(a.download.columns));
      && (n.Ok? ==> TryBlock(symbol, a) == Returned(Fetched(n.value, a.download.rows)))
      && (n.Err? ==> TryBlock(symbol, a) == Threw(n.error))
  {
  }

  /** The same holds for the `history` frame that replaces an empty
      download for a symbol with "=". */
  lemma FallbackNormalises(symbol: string, a: YAttempt)
    ensures a.download.Frame? && a.download.rows == 0 && '=' in symbol && HasRows(a.history) && a.history.hasDatetime ==>
      var n := Schema.NormalizeOhlcvColumns(UniqueColumns(a.history.columns));
      && (n.Ok? ==> TryBlock(symbol, a) == Returned(Fetched(n.value, a.history.rows)))
      && (n.Err? ==> TryBlock(symbol, a) == Threw(n.error))
  {
    if a.download.Frame? && a.download.rows == 0 && '=' in symbol && HasRows(a.history) && a.history.hasDatetime {
      assert !a.history.Raised? && !HasRows(a.download);
    }
  }

  /** What the `except` block does with an error: return, retry after a
      delay, or raise. */
  datatype Handled = Return(data: Fetched) | RetryAfter(delay: real) | Reraise(error: Exc)

  /** The `except` block of attempt `k`. An empty-chart error falls back to
      `history`: its own empty-chart error, an empty frame or a frame
      without datetime give no data, another error is retried before the
      last attempt and raised on it. A rate-limit error always backs off
      and continues, even on the last attempt. Any other error backs off
      before the last attempt and is raised on it. */
  function Handle(config: RateLimitConfig, e: Exc, k: nat, maxRetries: int, history: Answer): (h: Handled)
    ensures h.RetryAfter? ==> h.delay == Backoff(config, k + 1)
    ensures h.Return? ==> h.data == NoData || (h.data.rows > 0 && Schema.Distinct(h.data.columns))
    ensures !IsEmptyChartError(e.message) && IsRateLimited(e.message) ==> h.RetryAfter?
    ensures !IsEmptyChartError(e.message) && !IsRateLimited(e.message) ==>
      h == (if k >= maxRetries then Reraise(e) else RetryAfter(Backoff(config, k + 1)))
  {
    if IsEmptyChartError(e.message) then
      match history
      case Raised(fe) =>
        if IsEmptyChartError(fe.message) then Return(NoData)
        else if k < maxRetries then RetryAfter(Backoff(config, k + 1))
        else Reraise(fe)
      case NoFrame => Return(NoData)
      case Frame(columns, rows, hasDatetime) =>
        if rows == 0 || !hasDatetime then Return(NoData)
        else
          var n := Normalised(columns, rows);
          if n.Err? then Reraise(n.error) else Return(n.value)
    else if IsRateLimited(e.message) then RetryAfter(Backoff(config, k + 1))
    else if k >= maxRetries then Reraise(e)
    else RetryAfter(Backoff(config, k + 1))
  }

  /** Names that are already stripped, not blank and distinct come out of
      the de-duplication unchanged. */
  lemma DistinctNamesKept(columns: seq<string>)
    requires forall i :: 0 <= i < |columns| ==> BaseName(columns[i]) == columns[i]
    requires Distinct(columns)
    ensures UniqueColumns(columns) == columns
  {
    forall i | 0 <= i < |columns|
      ensures UniqueColumns(columns)[i] == columns[i]
    {
      FirstOccurrenceKept(columns, i);
    }
  }

  /** The column names of a yfinance frame after `reset_index`, with the
      date index renamed. */
  const YahooColumns: seq<string> := ["datetime", "Adj Close", "Volume"]

  /** A name starting and ending with a printable character is its own
      base name. */
  lemma PlainName(c: string)
    requires c != [] && '!' <= c[0] <= '~' && '!' <= c[|c| - 1] <= '~'
    ensures Strip(c) == c && BaseName(c) == c
  {
    PrintableNotSpace(c[0]);
    PrintableNotSpace(c[|c| - 1]);
    StripUnchanged(c);
  }

  /** A stripped name without spaces normalises to its lowercase form. */
  lemma NormalizedPlain(c: string, l: string)
    requires Strip(c) == c && ' ' !in c && l == Lower(c)
    ensures Schema.NormalizeName(c) == l
  {
  }

  /** The names lowercased, with the space of "Adj Close" made an
      underscore. */
  const YahooLowered: seq<string> := ["datetime", "adj_close", "volume"]

  /** The names as stored. */
  const YahooStored: seq<string> := ["datetime", "adjusted_close", "volume"]

  /** Three names normalised one by one give the normalised list. */
  lemma NormalizedThree(a: string, b: string, c: string, wa: string, wb: string, wc: string)
    requires Schema.NormalizeName(a) == wa && Schema.NormalizeName(b) == wb && Schema.NormalizeName(c) == wc
    ensures Schema.NormalizedNames([a, b, c]) == [wa, wb, wc]
  {
    var n := Schema.NormalizedNames([a, b, c]);
    assert n[0] == wa && n[1] == wb && n[2] == wc;
  }

  /** The plain names are lowercased. */
  lemma DatetimeLowered()
    ensures Schema.NormalizeName("datetime") == "datetime"
  {
    PlainName("datetime");
    NormalizedPlain("datetime", "datetime");
  }

  lemma CloseLowered()
    ensures Schema.NormalizeName("Close") == "close"
    ensures Schema.NormalizeName("close") == "close"
  {
    PlainName("Close");
    NormalizedPlain("Close", "close");
    PlainName("close");
    NormalizedPlain("close", "close");
  }

  lemma VolumeLowered()
    ensures Schema.NormalizeName("Volume") == "volume"
  {
    PlainName("Volume");
    NormalizedPlain("Volume", "volume");
  }

  /** The space of "Adj Close" becomes an underscore. */
  lemma AdjCloseLowered()
    ensures Schema.NormalizeName("Adj Close") == "adj_close"
  {
    PlainName("Adj Close");
    assert Lower("Adj Close") == "adj close";
  }

  lemma {:induction false} YahooColumnsLowered()
    ensures Schema.NormalizedNames(YahooColumns) == YahooLowered
  {
    DatetimeLowered();
    AdjCloseLowered();
    VolumeLowered();
    NormalizedThree("datetime", "Adj Close", "Volume", "datetime", "adj_close", "volume");
  }

  /** The lowered names start with three different letters. */
  lemma YahooLoweredDistinct()
    ensures Schema.Distinct(YahooLowered)
  {
    assert forall i :: 0 <= i < |YahooLowered| ==> YahooLowered[i] != [] && YahooLowered[i][0] == "dav"[i];
  }

  /** Names that lower to these are renamed "adj_close" to
      "adjusted_close" and otherwise left alone. */
  lemma {:induction false} NormalizeYahooLowered(cols: seq<string>)
    requires Schema.NormalizedNames(cols) == YahooLowered
    ensures Schema.NormalizeOhlcvColumns(cols) == Ok(YahooStored)
  {
    YahooLoweredDistinct();
    assert "date" !in YahooLowered;
    assert Schema.RenameIfAbsent(YahooLowered, "date", Schema.DatetimeColumn) == YahooLowered;
    assert "adjusted_close" !in YahooLowered;
    assert Schema.RenameIfAbsent(YahooLowered, "adj_close", Schema.AdjustedColumn) == YahooStored;
  }

  /** `normalize_ohlcv_columns` renames "adj_close" to "adjusted_close"
      and lowercases the other names. */
  lemma {:induction false} YahooColumnsRenamed()
    ensures Schema.NormalizeOhlcvColumns(YahooColumns) == Ok(YahooStored)
  {
    YahooColumnsLowered();
    NormalizeYahooLowered(YahooColumns);
  }

  /** yfinance's names are distinct, so de-duplication keeps them. */
  lemma {:induction false} YahooColumnsKept()
    ensures UniqueColumns(YahooColumns) == YahooColumns
  {
    PlainName("datetime");
    PlainName("Adj Close");
    PlainName("Volume");
    DistinctNamesKept(YahooColumns);
  }

  /** yfinance's capitalised names come back as the stored ones, with
      "Adj Close" as "adjusted_close". */
  lemma {:induction false} YahooColumnsNormalised(rows: nat)
    ensures Normalised(YahooColumns, rows) == Ok(Fetched(YahooStored, rows))
  {
    YahooColumnsKept();
    YahooColumnsRenamed();
  }

  /** So a yfinance frame with rows is returned under the stored names. */
  lemma YahooFrameReturned(symbol: string, rows: nat)
    requires rows > 0
    ensures TryBlock(symbol, YAttempt(Frame(YahooColumns, rows, true), NoFrame)) == Returned(Fetched(YahooStored, rows))
  {
    YahooColumnsNormalised(rows);
    TryBlockNormalises(symbol, YAttempt(Frame(YahooColumns, rows, true), NoFrame));
  }

  /** Two names that normalise to one make normalisation raise. */
  lemma CollidingNamesRaise(cols: seq<string>, i: nat, j: nat)
    requires i < j < |cols| && Schema.NormalizeName(cols[i]) == Schema.NormalizeName(cols[j])
    ensures Schema.NormalizeOhlcvColumns(cols) == Err(Exc("DuplicateError", "column names must be unique"))
  {
    assert Schema.NormalizedNames(cols)[i] == Schema.NormalizedNames(cols)[j];
  }

  /** A frame with both "Close" and "close". */
  const CloseTwice: seq<string> := ["datetime", "Close", "close"]

  /** Its names are plain and distinct, so de-duplication keeps them. */
  lemma {:induction false} CloseTwiceKept()
    ensures UniqueColumns(CloseTwice) == CloseTwice
  {
    PlainName("datetime");
    PlainName("Close");
    PlainName("close");
    DistinctNamesKept(CloseTwice);
  }

  /** "Close" and "close" are two names to the de-duplication but one after
      normalisation. */
  lemma {:induction false} CloseTwiceNormalised(rows: nat)
    ensures Normalised(CloseTwice, rows) == Err(Exc("DuplicateError", "column names must be unique"))
  {
    CloseTwiceKept();
    CloseLowered();
    CollidingNamesRaise(CloseTwice, 1, 2);
  }

  /** So a frame holding both "Close" and "close" raises, in the `try`
      block and in the history fallback of the `except` block alike. */
  lemma CloseTwiceRaises(config: RateLimitConfig, e: Exc, k: nat, maxRetries: int, rows: nat)
    requires rows > 0 && IsEmptyChartError(e.message)
    ensures TryBlock("AAPL", YAttempt(Frame(CloseTwice, rows, true), NoFrame))
      == Threw(Exc("DuplicateError", "column names must be unique"))
    ensures Handle(config, e, k, maxRetries, Frame(CloseTwice, rows, true))
      == Reraise(Exc("DuplicateError", "column names must be unique"))
  {
    CloseTwiceNormalised(rows);
    TryBlockNormalises("AAPL", YAttempt(Frame(CloseTwice, rows, true), NoFrame));
    HandleNormalises(config, e, k, maxRetries, Frame(CloseTwice, rows, true));
  }

  /** After an empty-chart error, a history frame with rows and a datetime
      column is returned with its de-duplicated columns normalised; the
      error normalisation raises escapes, since it is outside the inner
      `try`. */
  lemma HandleNormalises(config: RateLimitConfig, e: Exc, k: nat, maxRetries: int, history: Answer)
    ensures IsEmptyChartError(e.message) && HasRows(history) && history.hasDatetime ==>
      var n := Schema.NormalizeOhlcvColumns(UniqueColumns(history.columns));
      && (n.Ok? ==> Handle(config, e, k, maxRetries, history) == Return(Fetched(n.value, history.rows)))
      && (n.Err? ==> Handle(config, e, k, maxRetries, history) == Reraise(n.error))
  {
  }

  /** The end of the loop from some attempt on. */
  datatype YRun = YRun(result: Result<Fetched>, delays: seq<real>, attempts: nat)

  /** The attempts of `fetch_ohlcv` from `k` on; when every attempt has been
      used up without returning or raising, the result is no data. */
  function YRetry(config: RateLimitConfig, maxRetries: int, symbol: string, outcome: nat -> YAttempt, k: nat): (run: YRun)
    decreases maxRetries + 1 - k
  {
    if k > maxRetries then YRun(Ok(NoData), [], 0)
    else
      match TryBlock(symbol, outcome(k))
      case Returned(d) => YRun(Ok(d), [], 1)
      case Threw(e) =>
        match Handle(config, e, k, maxRetries, outcome(k).history)
        case Return(d) => YRun(Ok(d), [], 1)
        case Reraise(x) => YRun(Err(x), [], 1)
        case RetryAfter(delay) =>
          var rest := YRetry(config, maxRetries, symbol, outcome, k + 1);
          YRun(rest.result, [delay] + rest.delays, rest.attempts + 1)
  }

  /** `n` backoffs, for attempts `from`, `from + 1`, … */
  function Backoffs(config: RateLimitConfig, from: int, n: nat): (r: seq<real>)
    ensures |r| == n
    decreases n
  {
    if n == 0 then [] else [Backoff(config, from)] + Backoffs(config, from + 1, n - 1)
  }

  /** The `i`-th of them is the backoff of attempt `from + i`. */
  lemma {:induction false} BackoffsAt(config: RateLimitConfig, from: int, d: seq<real>)
    requires d == Backoffs(config, from, |d|)
    ensures forall i :: 0 <= i < |d| ==> d[i] == Backoff(config, from + i)
    decreases |d|
  {
    if d != [] {
      BackoffsAt(config, from + 1, d[1..]);
    }
  }

  /** At most `max_retries + 1 - k` attempts, at most one backoff each,
      the backoffs being those of attempts `k + 1`, `k + 2`, … */
  lemma {:induction false} YRetryShape(config: RateLimitConfig, maxRetries: int, symbol: string,
                                       outcome: nat -> YAttempt, k: nat)
    ensures var run := YRetry(config, maxRetries, symbol, outcome, k);
      && (k > maxRetries ==> run == YRun(Ok(NoData), [], 0))
      && (k <= maxRetries ==> 1 <= run.attempts <= maxRetries + 1 - k)
      && |run.delays| <= run.attempts
      && run.delays == Backoffs(config, k + 1, |run.delays|)
    decreases maxRetries + 1 - k
  {
    if k <= maxRetries {
      YRetryStep(config, maxRetries, symbol, outcome, k);
      YRetryShape(config, maxRetries, symbol, outcome, k + 1);
    }
  }

  /** The `i`-th backoff of the run from attempt `k` is `backoff(k + i + 1)`. */
  lemma YRetryBackoffAt(config: RateLimitConfig, maxRetries: int, symbol: string,
                        outcome: nat -> YAttempt, k: nat, i: nat)
    requires i < |YRetry(config, maxRetries, symbol, outcome, k).delays|
    ensures YRetry(config, maxRetries, symbol, outcome, k).delays[i] == Backoff(config, k + i + 1)
  {
    var d := YRetry(config, maxRetries, symbol, outcome, k).delays;
    YRetryShape(config, maxRetries, symbol, outcome, k);
    BackoffsAt(config, k + 1, d);
  }

  /** Every backoff of the run, by position. */
  lemma YRetryBackoffs(config: RateLimitConfig, maxRetries: int, symbol: string,
                       outcome: nat -> YAttempt, k: nat)
    ensures var run := YRetry(config, maxRetries, symbol, outcome, k);
      forall i :: 0 <= i < |run.delays| ==> run.delays[i] == Backoff(config, k + i + 1)
  {
    forall i | 0 <= i < |YRetry(config, maxRetries, symbol, outcome, k).delays|
      ensures YRetry(config, maxRetries, symbol, outcome, k).delays[i] == Backoff(config, k + i + 1)
    {
      YRetryBackoffAt(config, maxRetries, symbol, outcome, k, i);
    }
  }

  /** One attempt either ends the fetch or backs off by `backoff(k + 1)`
      before the next. */
  lemma YRetryStep(config: RateLimitConfig, maxRetries: int, symbol: string, outcome: nat -> YAttempt, k: nat)
    requires k <= maxRetries
    ensures var run := YRetry(config, maxRetries, symbol, outcome, k);
      var rest := YRetry(config, maxRetries, symbol, outcome, k + 1);
      || (run.delays == [] && run.attempts == 1)
      || (run.delays == [Backoff(config, k + 1)] + rest.delays && run.attempts == rest.attempts + 1)
  {
    var t := TryBlock(symbol, outcome(k));
    if t.Threw? {
      var h := Handle(config, t.error, k, maxRetries, outcome(k).history);
      assert h.RetryAfter? ==> h.delay == Backoff(config, k + 1);
    }
  }

  /** When every attempt is rate limited, every attempt backs off and the
      fetch ends with no data instead of an error. */
  lemma {:induction false} RateLimitedEndsEmpty(config: RateLimitConfig, maxRetries: int, symbol: string,
                                                outcome: nat -> YAttempt, k: nat)
    requires forall j :: k <= j <= maxRetries ==>
      TryBlock(symbol, outcome(j)).Threw?
      && !IsEmptyChartError(TryBlock(symbol, outcome(j)).error.message)
      && IsRateLimited(TryBlock(symbol, outcome(j)).error.message)
    ensures YRetry(config, maxRetries, symbol, outcome, k).result == Ok(NoData)
    ensures k <= maxRetries ==> |YRetry(config, maxRetries, symbol, outcome, k).delays| == maxRetries + 1 - k
    decreases maxRetries + 1 - k
  {
    if k <= maxRetries {
      RateLimitedEndsEmpty(config, maxRetries, symbol, outcome, k + 1);
    }
  }

  /** When every attempt fails with an error that is neither an empty chart
      nor a rate limit, the last attempt's error is raised after a backoff
      for each earlier one. */
  lemma {:induction false} OtherErrorsRaise(config: RateLimitConfig, maxRetries: int, symbol: string,
                                            outcome: nat -> YAttempt, k: nat)
    requires k <= maxRetries
    requires forall j :: k <= j <= maxRetries ==>
      TryBlock(symbol, outcome(j)).Threw?
      && !IsEmptyChartError(TryBlock(symbol, outcome(j)).error.message)
      && !IsRateLimited(TryBlock(symbol, outcome(j)).error.message)
    ensures YRetry(config, maxRetries, symbol, outcome, k).result == Err(TryBlock(symbol, outcome(maxRetries)).error)
    ensures |YRetry(config, maxRetries, symbol, outcome, k).delays| == maxRetries - k
    decreases maxRetries + 1 - k
  {
    var t := TryBlock(symbol, outcome(k));
    assert t.Threw? && !IsEmptyChartError(t.error.message) && !IsRateLimited(t.error.message);
    var h := Handle(config, t.error, k, maxRetries, outcome(k).history);
    if k < maxRetries {
      assert h == RetryAfter(Backoff(config, k + 1));
      OtherErrorsRaise(config, maxRetries, symbol, outcome, k + 1);
    } else {
      assert h == Reraise(t.error);
    }
  }

  /** An empty-chart error whose `history` fallback also reports an empty
      chart, or answers an empty frame, ends the fetch with no data. */
  lemma EmptyChartFallbackEmpty(config: RateLimitConfig, maxRetries: int, symbol: string,
                                outcome: nat -> YAttempt, k: nat)
    requires k <= maxRetries
    requires TryBlock(symbol, outcome(k)).Threw? && IsEmptyChartError(TryBlock(symbol, outcome(k)).error.message)
    requires (outcome(k).history.Raised? && IsEmptyChartError(outcome(k).history.error.message))
             || (!outcome(k).history.Raised? && !HasRows(outcome(k).history))
    ensures YRetry(config, maxRetries, symbol, outcome, k) == YRun(Ok(NoData), [], 1)
  {
  }

  /** `fetch_ohlcv`: the adjust check (a ValueError before any request),
      then the attempts. */
  function Fetch(config: RateLimitConfig, maxRetries: int, symbol: string, adjust: string,
                 outcome: nat -> YAttempt): (r: Result<OhlcvResult>)
    ensures AutoAdjust(adjust).Err? ==> r == Err(AdjustPolicyError)
    ensures r.Ok? ==> r.value.adjustment == Lower(adjust)
  {
    if AutoAdjust(adjust).Err? then Err(AdjustPolicyError)
    else
      var run := YRetry(config, maxRetries, symbol, outcome, 0);
      if run.result.Err? then Err(run.result.error) else Ok(OhlcvResult(run.result.value, Lower(adjust)))
  }

  /** The loop of `fetch_ohlcv` as the program runs it. */
  method FetchOhlcv(config: RateLimitConfig, maxRetries: int, symbol: string, adjust: string, outcome: nat -> YAttempt)
    returns (r: Result<OhlcvResult>, delays: seq<real>)
    ensures r == Fetch(config, maxRetries, symbol, adjust, outcome)
    ensures AutoAdjust(adjust).Ok? ==> delays == YRetry(config, maxRetries, symbol, outcome, 0).delays
  {
    var policy := AutoAdjust(adjust);
    if policy.Err? {
      return Err(AdjustPolicyError), [];
    }
    var a := Lower(adjust);
    delays := [];
    var attempt := 0;
    while attempt < maxRetries + 1
      invariant 0 <= attempt && (maxRetries >= 0 ==> attempt <= maxRetries + 1)
      invariant YRetry(config, maxRetries, symbol, outcome, 0)
        == var rest := YRetry(config, maxRetries, symbol, outcome, attempt);
           YRun(rest.result, delays + rest.delays, attempt + rest.attempts)
      decreases maxRetries + 1 - attempt
    {
      var answers := outcome(attempt);
      var tried := TryBlock(symbol, answers);
      if tried.Returned? {
        return Ok(OhlcvResult(tried.data, a)), delays;
      }
      var handled := Handle(config, tried.error, attempt, maxRetries, answers.history);
      match handled {
        case Return(d) =>
          return Ok(OhlcvResult(d, a)), delays;
        case Reraise(x) =>
          return Err(x), delays;
        case RetryAfter(delay) =>
          var rest := YRetry(config, maxRetries, symbol, outcome, attempt + 1);
          assert delays + ([delay] + rest.delays) == delays + [delay] + rest.delays;
          delays := delays + [delay];
      }
      attempt := attempt + 1;
    }
    r := Ok(OhlcvResult(NoData, a));
  }
}
