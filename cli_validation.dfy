/** `validation/cli.py`: the semantic checks applied to parsed command-line
    arguments before any command runs.

    The two fixed regular expressions are written out by hand, with `\d`
    read as an ASCII digit. pydantic runs every field validator and collects
    the failures; the model keeps one message per failing field, in field
    order, and joins them with newlines into the `CliValidationError` it
    raises. The model validator `_cross_checks` runs only when every field
    passed. Arguments that are passed through unchanged (config, verbose,
    failures_file and the other flags) are not part of the model. */
module CliValidation {
  import opened Wrappers
  import opened Text
  import opened Seqs
  import opened TimeUtils
  import opened FsUtils

  const LogLevels: set<string> := {"DEBUG", "INFO", "WARNING", "ERROR", "CRITICAL"}

  const AdjustModes: set<string> := {"auto", "back", "forward", "none", "backward", "front"}

  /** The unit alternatives of INTERVAL_RE. */
  const IntervalUnits: set<string> := {"d", "wk", "w", "mo", "m", "h", "y", "s"}

  const MaxSymbolLength := 128

  // ---------------------------------------------------------------------
  // Intervals

  /** How many ASCII digits `s` starts with. */
  function LeadingDigits(s: string): (n: nat)
    ensures n <= |s| && (forall k :: 0 <= k < n ==> IsDigit(s[k])) && (n < |s| ==> !IsDigit(s[n]))
  {
    if s != [] && IsDigit(s[0]) then
      var m := LeadingDigits(s[1..]);
      assert forall k :: 1 <= k < m + 1 ==> s[k] == s[1..][k - 1];
      1 + m
    else 0
  }

  /** A unit never starts with a digit. */
  lemma UnitStartsWithLetter(u: string)
    requires u in IntervalUnits
    ensures u != [] && !IsDigit(u[0])
  {
    assert u == "d" || u == "wk" || u == "w" || u == "mo" || u == "m" || u == "h" || u == "y" || u == "s";
  }

  /** INTERVAL_RE.fullmatch on a lower-cased value: a non-empty run of
      digits, then one of the units. */
  predicate IntervalShape(v: string) {
    exists k :: 0 < k < |v| && AllDigits(v[..k]) && v[k..] in IntervalUnits
  }

  /** The digits of a well-formed interval are exactly its leading digits. */
  lemma IntervalSplitUnique(v: string, k: nat)
    requires 0 < k < |v| && AllDigits(v[..k]) && v[k..] in IntervalUnits
    ensures k == LeadingDigits(v)
  {
    UnitStartsWithLetter(v[k..]);
    assert v[k..][0] == v[k];
    forall i | 0 <= i < k ensures IsDigit(v[i]) {
      assert v[..k][i] == v[i];
    }
  }

  /** The count and the unit of an interval, when it has the shape. */
  function SplitInterval(v: string): (r: Option<(string, string)>)
    ensures r.Some? <==> IntervalShape(v)
    ensures r.Some? ==>
      v == r.value.0 + r.value.1 && 0 < |r.value.0| && AllDigits(r.value.0)
      && r.value.0 == v[..LeadingDigits(v)] && r.value.1 in IntervalUnits
  {
    var n := LeadingDigits(v);
    if IntervalShape(v) then
      var k :| 0 < k < |v| && AllDigits(v[..k]) && v[k..] in IntervalUnits;
      IntervalSplitUnique(v, k);
      assert v == v[..n] + v[n..];
      Some((v[..n], v[n..]))
    else
      None
  }

  /** An accepted interval: digits with a positive value, then a unit. */
  predicate IsIntervalToken(v: string) {
    exists k :: 0 < k < |v| && AllDigits(v[..k]) && DigitsValue(v[..k]) > 0 && v[k..] in IntervalUnits
  }

  lemma IntervalTokenSplit(v: string)
    ensures IsIntervalToken(v) <==> SplitInterval(v).Some? && DigitsValue(SplitInterval(v).value.0) > 0
  {
    if IsIntervalToken(v) {
      var k :| 0 < k < |v| && AllDigits(v[..k]) && DigitsValue(v[..k]) > 0 && v[k..] in IntervalUnits;
      IntervalSplitUnique(v, k);
    }
    if SplitInterval(v).Some? && DigitsValue(SplitInterval(v).value.0) > 0 {
      var n := LeadingDigits(v);
      assert v[n..] == SplitInterval(v).value.1;
      assert 0 < n < |v| && AllDigits(v[..n]) && DigitsValue(v[..n]) > 0 && v[n..] in IntervalUnits;
    }
  }

  /** `_normalize_interval`: the stripped, lower-cased value when it is an
      interval token, else a ValueError naming what is wrong. */
  function NormalizeInterval(value: string): (r: Result<string>)
    ensures r.Ok? <==> IsIntervalToken(Lower(Strip(value)))
    ensures r.Ok? ==> r.value == Lower(Strip(value))
    ensures r.Err? ==> r.error.name == "ValueError"
  {
    var v := Lower(Strip(value));
    IntervalTokenSplit(v);
    if v == [] then Err(ValueError("interval is empty"))
    else
      match SplitInterval(v)
      case None => Err(ValueError("invalid interval format: " + v))
      case Some(p) =>
        if DigitsValue(p.0) <= 0 then Err(ValueError("interval must be > 0: " + v))
        else Ok(v)
  }

  /** Normalising an accepted interval again gives it back unchanged. */
  lemma NormalizeIntervalIdempotent(value: string)
    requires NormalizeInterval(value).Ok?
    ensures NormalizeInterval(NormalizeInterval(value).value) == NormalizeInterval(value)
  {
    CaseStripIdempotent(value);
  }

  /** Any text that strips and lower-cases to digits of positive value
      followed by a unit is accepted. */
  lemma NormalizeIntervalAccepts(value: string, d: string, u: string)
    requires Lower(Strip(value)) == d + u
    requires 0 < |d| && AllDigits(d) && DigitsValue(d) > 0 && u in IntervalUnits
    ensures NormalizeInterval(value) == Ok(d + u)
  {
    var v := d + u;
    UnitStartsWithLetter(u);
    assert v[..|d|] == d && v[|d|..] == u;
  }

  // ---------------------------------------------------------------------
  // Symbols

  /** A character of SYMBOL_SAFE_RE's class `[A-Za-z0-9._+=#@$%&^-]`. */
  predicate SymbolChar(c: char) {
    'A' <= c <= 'Z' || 'a' <= c <= 'z' || '0' <= c <= '9' || c in "._+=#@$%&^-"
  }

  /** INVALID_SYMBOL_SUBSTRINGS. */
  const InvalidSymbolSubstrings: seq<string> := ["\\", "/", "..", ":", "|", "?", "*", "\"", "<", ">", ";"]

  predicate HasInvalidSubstring(token: string) {
    exists i :: 0 <= i < |InvalidSymbolSubstrings| && Contains(token, InvalidSymbolSubstrings[i])
  }

  predicate AllSymbolChars(token: string) {
    forall k :: 0 <= k < |token| ==> SymbolChar(token[k])
  }

  /** An accepted symbol: 1 to 128 safe characters with no "..". */
  predicate SafeSymbol(token: string) {
    0 < |token| <= MaxSymbolLength && AllSymbolChars(token) && !Contains(token, "..")
  }

  /** Of the forbidden pieces only ".." can occur in safe characters. */
  lemma InvalidPieceOfSafe(token: string)
    requires AllSymbolChars(token) && HasInvalidSubstring(token)
    ensures Contains(token, "..")
  {
    var i :| 0 <= i < |InvalidSymbolSubstrings| && Contains(token, InvalidSymbolSubstrings[i]);
    var bad := InvalidSymbolSubstrings[i];
    if i != 2 {
      assert |bad| == 1 && !SymbolChar(bad[0]);
      var j := ContainsWitness(token, bad);
      assert false;
    }
  }

  /** `_validate_symbol`: the stripped token when it is safe, else a
      ValueError naming the field. */
  function ValidateSymbol(symbol: string, field: string): (r: Result<string>)
    ensures r.Ok? <==> SafeSymbol(Strip(symbol))
    ensures r.Ok? ==> r.value == Strip(symbol)
    ensures r.Err? ==> r.error.name == "ValueError"
  {
    var token := Strip(symbol);
    if token == [] then Err(ValueError(field + " is empty"))
    else if |token| > MaxSymbolLength then Err(ValueError(field + " too long: " + token))
    else if HasInvalidSubstring(token) then
      assert !SafeSymbol(token) by {
        if AllSymbolChars(token) { InvalidPieceOfSafe(token); }
      }
      Err(ValueError("unsafe " + field + ": " + token))
    else if !AllSymbolChars(token) then Err(ValueError("unsafe " + field + ": " + token))
    else
      assert Contains(token, "..") ==> HasInvalidSubstring(token) by {
        assert InvalidSymbolSubstrings[2] == "..";
      }
      Ok(token)
  }

  /** Validating an accepted symbol again gives it back unchanged. */
  lemma ValidateSymbolIdempotent(symbol: string, field: string)
    requires ValidateSymbol(symbol, field).Ok?
    ensures ValidateSymbol(ValidateSymbol(symbol, field).value, field) == ValidateSymbol(symbol, field)
  {
    StripIdempotent(symbol);
  }

  /** An accepted symbol never holds a comma. */
  lemma SafeSymbolNoComma(token: string)
    requires SafeSymbol(token)
    ensures ',' !in token
  {
    if ',' in token {
      assert false;
    }
  }

  // ---------------------------------------------------------------------
  // The argument model

  /** What argparse leaves in a list-valued field: nothing, one string, or a
      list of strings. */
  datatype ArgValue = NoValue | Text(text: string) | Items(items: seq<string>)

  /** The raw arguments the validator reads. */
  datatype CliInput = CliInput(
    command: string,
    logLevel: string,
    assetType: Option<string>,
    limit: Option<int>,
    workers: Option<int>,
    adjust: Option<string>,
    dataRoot: Option<string>,
    downloadLogFile: Option<string>,
    intervals: ArgValue,
    symbols: ArgValue,
    symbol: ArgValue,
    start: Option<string>,
    end: Option<string>)

  /** `CliArgsModel` after validation. */
  datatype CliArgs = CliArgs(
    command: string,
    logLevel: string,
    assetType: Option<string>,
    limit: Option<int>,
    workers: Option<int>,
    adjust: Option<string>,
    dataRoot: Option<string>,
    downloadLogFile: Option<string>,
    intervals: seq<string>,
    symbols: seq<string>,
    symbol: seq<string>,
    start: Option<DateTime>,
    end: Option<DateTime>)

  /** `_log_level`: stripped and upper-cased, and one of LOG_LEVELS. */
  function LogLevelField(value: string): (r: Result<string>)
    ensures r.Ok? <==> Upper(Strip(value)) in LogLevels
    ensures r.Ok? ==> r.value == Upper(Strip(value)) && r.value in LogLevels
  {
    var level := Upper(Strip(value));
    if level !in LogLevels then Err(ValueError("unsupported log_level: " + value)) else Ok(level)
  }

  /** `_asset_type`: unchanged, and one of the configured asset types when
      that list is not empty. */
  function AssetTypeField(value: Option<string>, assetTypes: seq<string>): (r: Result<Option<string>>)
    ensures r.Ok? <==> value.None? || assetTypes == [] || value.value in assetTypes
    ensures r.Ok? ==> r.value == value
  {
    match value
    case None => Ok(None)
    case Some(v) =>
      if assetTypes != [] && v !in assetTypes then Err(ValueError("unsupported asset_type: " + v))
      else Ok(value)
  }

  /** The `ge`/`le` bounds pydantic puts on limit (at least 1) and on
      workers (1 to 256). */
  function BoundedField(value: Option<int>, upper: Option<int>): (r: Result<Option<int>>)
    ensures r.Ok? <==> value.None? || (value.value >= 1 && (upper.None? || value.value <= upper.value))
    ensures r.Ok? ==> r.value == value
  {
    match value
    case None => Ok(None)
    case Some(n) =>
      if n < 1 then Err(ValueError("Input should be greater than or equal to 1"))
      else if upper.Some? && n > upper.value then Err(ValueError("Input should be less than or equal to 256"))
      else Ok(value)
  }

  /** `_adjust`: stripped and lower-cased, and one of ADJUST_MODES. */
  function AdjustField(value: Option<string>): (r: Result<Option<string>>)
    ensures r.Ok? <==> value.None? || Lower(Strip(value.value)) in AdjustModes
    ensures r.Ok? ==> r.value == (if value.None? then None else Some(Lower(Strip(value.value))))
  {
    match value
    case None => Ok(None)
    case Some(v) =>
      var normalized := Lower(Strip(v));
      if normalized !in AdjustModes then Err(ValueError("unsupported adjust: " + v)) else Ok(Some(normalized))
  }

  /** `_non_empty_path`: stripped, and None when nothing is left. */
  function PathField(value: Option<string>): (r: Option<string>)
    ensures r.Some? <==> value.Some? && Strip(value.value) != ""
    ensures r.Some? ==> r.value == Strip(value.value)
  {
    match value
    case None => None
    case Some(v) => if Strip(v) == "" then None else Some(Strip(v))
  }

  /** `_parse_datetime`: None for a missing or empty value, else `parse_date`. */
  function DatetimeField(value: Option<string>): (r: Result<Option<DateTime>>)
    ensures value.None? || value.value == "" ==> r == Ok(None)
    ensures r.Ok? && r.value.Some? ==> value.Some? && ParseDate(value.value) == Ok(r.value.value) && Aware(r.value.value)
  {
    match value
    case None => Ok(None)
    case Some(v) =>
      if v == "" then Ok(None)
      else
        match ParseDate(v)
        case Err(e) => Err(e)
        case Ok(dt) => Ok(Some(dt))
  }

  /** The comma-separated pieces of a text, stripped, blanks dropped. */
  function CommaItems(text: string): (r: seq<string>)
    ensures forall i :: 0 <= i < |r| ==> r[i] != ""
  {
    IterNonempty(SplitCsvLine(text))
  }

  /** `_split_intervals`: a list is used as it is, a text is split on
      commas; every item must be an interval token. */
  function IntervalsField(value: ArgValue): (r: Result<seq<string>>)
    ensures r.Ok? ==> forall i :: 0 <= i < |r.value| ==> IsIntervalToken(r.value[i])
    ensures value.Items? ==> r == MapResults(value.items, NormalizeInterval)
    ensures value.Text? ==> r == MapResults(CommaItems(value.text), NormalizeInterval)
  {
    var r := match value
      case NoValue => Ok([])
      case Items(xs) => MapResults(xs, NormalizeInterval)
      case Text(s) => MapResults(CommaItems(s), NormalizeInterval);
    assert r.Ok? ==> forall i :: 0 <= i < |r.value| ==> NormalizeInterval(r.value[i]).Ok? by {
      if r.Ok? {
        forall i | 0 <= i < |r.value| ensures NormalizeInterval(r.value[i]).Ok? {
          var src := match value case Items(xs) => xs case Text(s) => CommaItems(s) case NoValue => [];
          NormalizeIntervalIdempotent(src[i]);
        }
      }
    }
    r
  }

  /** Every item of a list validated as a symbol of `field`. */
  function SymbolItems(items: seq<string>, field: string): (r: Result<seq<string>>)
    ensures r.Ok? ==> |r.value| == |items| && forall i :: 0 <= i < |items| ==> r.value[i] == Strip(items[i]) && SafeSymbol(r.value[i])
    ensures r.Err? <==> exists i :: 0 <= i < |items| && !SafeSymbol(Strip(items[i]))
  {
    var f := (s: string) => ValidateSymbol(s, field);
    var r := MapResults(items, f);
    assert r.Err? ==> exists i :: 0 <= i < |items| && !SafeSymbol(Strip(items[i])) by {
      if r.Err? {
        var i :| 0 <= i < |items| && f(items[i]) == Err(r.error);
      }
    }
    r
  }

  /** The pieces of a comma-separated text that are not blank, unstripped:
      `[item for item in value.split(",") if item.strip()]`. */
  function NonBlankPieces(text: string): (r: seq<string>)
    ensures forall i :: 0 <= i < |r| ==> Strip(r[i]) != "" && ',' !in r[i]
  {
    var r := Filter(Split(text, ','), NonBlank);
    forall i | 0 <= i < |r| ensures ',' !in r[i] {
      FilterMembers(Split(text, ','), NonBlank, r[i]);
    }
    r
  }

  /** `_symbol`: a list as it is; a text split on commas, blank pieces
      dropped; every item validated as a symbol. */
  function SymbolField(value: ArgValue): (r: Result<seq<string>>)
    ensures value.NoValue? ==> r == Ok([])
    ensures value.Items? ==> r == SymbolItems(value.items, "symbol")
    ensures value.Text? ==> r == SymbolItems(NonBlankPieces(value.text), "symbol")
  {
    match value
    case NoValue => Ok([])
    case Items(xs) => SymbolItems(xs, "symbol")
    case Text(s) => SymbolItems(NonBlankPieces(s), "symbol")
  }

  /** `_symbols` AS WRITTEN: a text is wrapped as a one-item list, not split,
      so the comma-separated value of `--symbols` is one token. */
  function SymbolsFieldAsWritten(value: ArgValue): (r: Result<seq<string>>)
    ensures value.NoValue? ==> r == Ok([])
    ensures value.Items? ==> r == SymbolItems(value.items, "symbols")
    ensures value.Text? ==> r == SymbolItems([value.text], "symbols")
  {
    match value
    case NoValue => Ok([])
    case Items(xs) => if xs == [] then Ok([]) else SymbolItems(xs, "symbols")
    case Text(s) => SymbolItems([s], "symbols")
  }

  /** `_symbols` as evidently intended: a text is split on commas like
      `_symbol` does, so a comma-separated list of safe symbols is accepted. */
  function SymbolsField(value: ArgValue): (r: Result<seq<string>>)
    ensures value.NoValue? ==> r == Ok([])
    ensures value.Items? ==> r == SymbolItems(value.items, "symbols")
    ensures value.Text? ==> r == SymbolItems(NonBlankPieces(value.text), "symbols")
  {
    match value
    case NoValue => Ok([])
    case Items(xs) => if xs == [] then Ok([]) else SymbolItems(xs, "symbols")
    case Text(s) => SymbolItems(NonBlankPieces(s), "symbols")
  }

  /** Splitting the comma-joined text of comma-free, non-blank items gives
      the items back. */
  lemma NonBlankPiecesJoin(symbols: seq<string>)
    requires symbols != []
    requires forall i :: 0 <= i < |symbols| ==> Strip(symbols[i]) != "" && ',' !in symbols[i]
    ensures NonBlankPieces(Join(symbols, ',')) == symbols
  {
    SplitJoin(symbols, ',');
    FilterAll(symbols, NonBlank);
  }

  /** Validating items that are already accepted and stripped changes nothing. */
  lemma SymbolItemsAccepted(symbols: seq<string>, field: string)
    requires forall i :: 0 <= i < |symbols| ==> SafeSymbol(symbols[i]) && Strip(symbols[i]) == symbols[i]
    ensures SymbolItems(symbols, field) == Ok(symbols)
  {
    var r := SymbolItems(symbols, field);
    assert r.Ok?;
    SameElements(r.value, symbols);
  }

  /** Joining accepted symbols with commas and validating the text gives the
      symbols back. */
  lemma SymbolsFieldRoundTrip(symbols: seq<string>)
    requires symbols != []
    requires forall i :: 0 <= i < |symbols| ==> SafeSymbol(symbols[i]) && Strip(symbols[i]) == symbols[i]
    ensures SymbolsField(Text(Join(symbols, ','))) == Ok(symbols)
  {
    forall i | 0 <= i < |symbols| ensures ',' !in symbols[i] {
      SafeSymbolNoComma(symbols[i]);
    }
    NonBlankPiecesJoin(symbols);
    SymbolItemsAccepted(symbols, "symbols");
  }

  /** Four capital letters make an accepted symbol that strips to itself. */
  lemma CapitalsSafe(a: char, b: char, c: char, d: char)
    requires 'A' <= a <= 'Z' && 'A' <= b <= 'Z' && 'A' <= c <= 'Z' && 'A' <= d <= 'Z'
    ensures SafeSymbol([a, b, c, d]) && Strip([a, b, c, d]) == [a, b, c, d]
  {
    var t := [a, b, c, d];
    assert AllSymbolChars(t) by {
      forall k | 0 <= k < 4 ensures SymbolChar(t[k]) {
        assert 'A' <= t[k] <= 'Z';
      }
    }
    PrintableNotSpace(a);
    PrintableNotSpace(d);
    StripUnchanged(t);
    ContainsFirstChar(t, "..");
    assert '.' !in t;
  }

  /** As written, `--symbols AAPL,MSFT` (the form its help text asks for) is
      rejected, because "," is not a safe symbol character. */
  lemma SymbolsCommaRejected()
    ensures SymbolsFieldAsWritten(Text("AAPL,MSFT")).Err?
  {
    var s := "AAPL,MSFT";
    PrintableNotSpace(s[0]);
    PrintableNotSpace(s[8]);
    StripUnchanged(s);
    assert [s][0] == s;
    assert s[4] == ',' && !SymbolChar(',');
    assert !AllSymbolChars(s);
  }

  /** The corrected field accepts the same text as two symbols. */
  lemma SymbolsCommaAccepted()
    ensures SymbolsField(Text("AAPL,MSFT")) == Ok(["AAPL", "MSFT"])
  {
    assert "AAPL,MSFT" == Join(["AAPL", "MSFT"], ',');
    CapitalsSafe('A', 'A', 'P', 'L');
    CapitalsSafe('M', 'S', 'F', 'T');
    SymbolsFieldRoundTrip(["AAPL", "MSFT"]);
  }

  // ---------------------------------------------------------------------
  // Cross checks and the whole model

  /** `_cross_checks`: an error message, or None. `contextAssetType` is the
      raw `asset_type` argument the caller puts in the validation context,
      which takes precedence over the validated field. */
  function CrossCheck(m: CliArgs, contextAssetType: Option<string>): (r: Option<string>)
    requires m.start.Some? ==> Aware(m.start.value)
    requires m.end.Some? ==> Aware(m.end.value)
    ensures r.None? <==>
      !(m.start.Some? && m.end.Some? && InstantOf(m.start.value) > InstantOf(m.end.value))
      && !(m.command in {"download", "wizard"} && contextAssetType.Some? && contextAssetType.value != ""
           && contextAssetType.value != "ashare" && m.adjust.GetOr("auto") !in {"auto", "none"})
  {
    if m.start.Some? && m.end.Some? && InstantOf(m.start.value) > InstantOf(m.end.value) then
      Some("start must be <= end")
    else if m.command in {"download", "wizard"} && contextAssetType.Some? && contextAssetType.value != ""
      && contextAssetType.value != "ashare" && m.adjust.GetOr("auto") !in {"auto", "none"} then
      Some("for non-ashare asset_type, adjust supports only auto or none; use --asset-type ashare for back/forward")
    else None
  }

  /** The message of a failed field, if it failed. */
  function ErrorOf<T>(r: Result<T>): (e: seq<string>)
    ensures e == [] <==> r.Ok?
  {
    if r.Err? then [r.error.message] else []
  }

  /** The `--symbols` validator in use: the program's `_symbols` as written
      when `splitSymbols` is false, the corrected one when it is true. */
  function SymbolsOf(value: ArgValue, splitSymbols: bool): Result<seq<string>> {
    if splitSymbols then SymbolsField(value) else SymbolsFieldAsWritten(value)
  }

  /** Every field validates on its own. */
  predicate FieldsOk(input: CliInput, assetTypes: seq<string>, splitSymbols: bool) {
    LogLevelField(input.logLevel).Ok? && AssetTypeField(input.assetType, assetTypes).Ok?
    && BoundedField(input.limit, None).Ok? && BoundedField(input.workers, Some(256)).Ok?
    && AdjustField(input.adjust).Ok? && IntervalsField(input.intervals).Ok?
    && SymbolsOf(input.symbols, splitSymbols).Ok? && SymbolField(input.symbol).Ok?
    && DatetimeField(input.start).Ok? && DatetimeField(input.end).Ok?
  }

  /** The messages of the failing fields, in field order: empty exactly
      when every field validates. */
  function FieldErrors(input: CliInput, assetTypes: seq<string>, splitSymbols: bool): (e: seq<string>)
    ensures e == [] <==> FieldsOk(input, assetTypes, splitSymbols)
  {
    ErrorOf(LogLevelField(input.logLevel)) + ErrorOf(AssetTypeField(input.assetType, assetTypes))
    + ErrorOf(BoundedField(input.limit, None)) + ErrorOf(BoundedField(input.workers, Some(256)))
    + ErrorOf(AdjustField(input.adjust)) + ErrorOf(IntervalsField(input.intervals))
    + ErrorOf(SymbolsOf(input.symbols, splitSymbols)) + ErrorOf(SymbolField(input.symbol))
    + ErrorOf(DatetimeField(input.start)) + ErrorOf(DatetimeField(input.end))
  }

  /** The model built from the validated fields, before the cross checks. */
  function Assembled(input: CliInput, assetTypes: seq<string>, splitSymbols: bool): (m: CliArgs)
    requires FieldsOk(input, assetTypes, splitSymbols)
    ensures m.logLevel in LogLevels
    ensures m.adjust.None? || m.adjust.value in AdjustModes
    ensures input.assetType.Some? && assetTypes != [] ==> input.assetType.value in assetTypes
    ensures forall i :: 0 <= i < |m.intervals| ==> IsIntervalToken(m.intervals[i])
    ensures forall i :: 0 <= i < |m.symbols| ==> SafeSymbol(m.symbols[i])
    ensures forall i :: 0 <= i < |m.symbol| ==> SafeSymbol(m.symbol[i])
    ensures m.start.Some? ==> Aware(m.start.value)
    ensures m.end.Some? ==> Aware(m.end.value)
  {
    CliArgs(input.command, LogLevelField(input.logLevel).value, input.assetType, input.limit, input.workers,
      AdjustField(input.adjust).value, PathField(input.dataRoot), PathField(input.downloadLogFile),
      IntervalsField(input.intervals).value, SymbolsOf(input.symbols, splitSymbols).value, SymbolField(input.symbol).value,
      DatetimeField(input.start).value, DatetimeField(input.end).value)
  }

  /** `validate_cli_args`: the validated arguments, or a CliValidationError
      listing every failing field, or the cross-check failure. */
  function ValidateCliArgs(input: CliInput, assetTypes: seq<string>, splitSymbols: bool): (r: Result<CliArgs>)
    ensures r.Ok? <==> FieldsOk(input, assetTypes, splitSymbols) && CrossCheck(Assembled(input, assetTypes, splitSymbols), input.assetType).None?
    ensures r.Ok? ==> r.value == Assembled(input, assetTypes, splitSymbols)
    ensures r.Err? ==> r.error.name == "CliValidationError"
    ensures !FieldsOk(input, assetTypes, splitSymbols) ==> r.error.message == Join(FieldErrors(input, assetTypes, splitSymbols), '\n')
    ensures r.Ok? && r.value.start.Some? && r.value.end.Some? ==>
      InstantOf(r.value.start.value) <= InstantOf(r.value.end.value)
    ensures r.Ok? && input.command in {"download", "wizard"} && input.assetType.Some?
              && input.assetType.value != "" && input.assetType.value != "ashare" ==>
            r.value.adjust in {None, Some("auto"), Some("none")}
  {
    if !FieldsOk(input, assetTypes, splitSymbols) then
      Err(Exc("CliValidationError", Join(FieldErrors(input, assetTypes, splitSymbols), '\n')))
    else
      var m := Assembled(input, assetTypes, splitSymbols);
      match CrossCheck(m, input.assetType)
      case Some(msg) => Err(Exc("CliValidationError", msg))
      case None => Ok(m)
  }

  /** The two validators differ only on `--symbols` text: for a list, no
      value, or a non-blank text without a comma, the program's validator
      and the corrected one give the same answer. */
  lemma ValidateCliArgsAgree(input: CliInput, assetTypes: seq<string>)
    requires input.symbols.Text? ==> ',' !in input.symbols.text && Strip(input.symbols.text) != ""
    ensures ValidateCliArgs(input, assetTypes, false) == ValidateCliArgs(input, assetTypes, true)
  {
    if input.symbols.Text? {
      var t := input.symbols.text;
      assert Join([t], ',') == t;
      NonBlankPiecesJoin([t]);
    }
    assert SymbolsOf(input.symbols, false) == SymbolsOf(input.symbols, true);
  }

  /** "INFO" is accepted as a log level as it stands. */
  lemma InfoLevel()
    ensures LogLevelField("INFO") == Ok("INFO")
  {
    var t := "INFO";
    PrintableNotSpace(t[0]);
    PrintableNotSpace(t[3]);
    StripUnchanged(t);
    assert Upper(t) == t by {
      forall k | 0 <= k < 4 ensures Upper(t)[k] == t[k] {
        assert 'A' <= t[k] <= 'Z';
      }
    }
  }

  /** `datagrab download --symbols AAPL,MSFT`: the program's validator raises
      CliValidationError, naming the `--symbols` failure, while the corrected
      one accepts the two symbols. */
  lemma ValidateCliArgsCommaSymbols()
    ensures var input := CliInput("download", "INFO", None, None, None, None, None, None,
                                  NoValue, Text("AAPL,MSFT"), NoValue, None, None);
            && ValidateCliArgs(input, [], false).Err?
            && ValidateCliArgs(input, [], false).error.name == "CliValidationError"
            && ValidateCliArgs(input, [], true).Ok?
            && ValidateCliArgs(input, [], true).value.symbols == ["AAPL", "MSFT"]
  {
    var input := CliInput("download", "INFO", None, None, None, None, None, None,
                          NoValue, Text("AAPL,MSFT"), NoValue, None, None);
    SymbolsCommaRejected();
    assert !FieldsOk(input, [], false);
    SymbolsCommaAccepted();
    InfoLevel();
    assert FieldsOk(input, [], true);
    var m := Assembled(input, [], true);
    assert m.symbols == ["AAPL", "MSFT"];
    assert CrossCheck(m, None).None?;
  }
}
