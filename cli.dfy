/** `cli.py`: the helpers that turn command-line values into lists and
    filters, the wizard's interval check, and the exit codes of the
    `doctor`, `validate` and `download` commands.

    What the commands print and log, the interactive prompts and the work
    the commands start are outside this model: the exit-code rules take
    what that work reports as parameters. */
module Cli {
  import opened Wrappers
  import opened Text
  import opened Seqs
  import opened Config
  import CliValidation
  import Quality

  // ---------------------------------------------------------------------
  // Comma-separated values

  /** An item as the helpers produce it: non-empty, stripped, without a comma. */
  predicate Clean(item: string) {
    item != "" && Strip(item) == item && ',' !in item
  }

  /** `[s.strip() for s in text.split(",") if s.strip()]`. */
  function CommaItems(text: string): (r: seq<string>)
    ensures forall i :: 0 <= i < |r| ==> Clean(r[i])
  {
    var pieces := CliValidation.NonBlankPieces(text);
    assert forall i :: 0 <= i < |pieces| ==> Clean(Strip(pieces[i])) by {
      forall i | 0 <= i < |pieces| ensures Clean(Strip(pieces[i])) {
        StripKeepsOut(pieces[i], ',');
        StripIdempotent(pieces[i]);
      }
    }
    MapSeq(pieces, Strip)
  }

  /** Joining clean items with commas and splitting again gives them back. */
  lemma CommaItemsJoin(items: seq<string>)
    requires items != [] && forall i :: 0 <= i < |items| ==> Clean(items[i])
    ensures CommaItems(Join(items, ',')) == items
  {
    CliValidation.NonBlankPiecesJoin(items);
  }

  /** A clean item splits into itself. */
  lemma CommaItemsOfClean(item: string)
    requires Clean(item)
    ensures CommaItems(item) == [item]
  {
    CommaItemsJoin([item]);
  }

  /** `_split_values`: the comma-separated items of every value, in order. */
  function SplitAll(values: seq<string>): (r: seq<string>)
    ensures forall i :: 0 <= i < |r| ==> Clean(r[i])
  {
    if values == [] then [] else SplitAll(values[..|values| - 1]) + CommaItems(values[|values| - 1])
  }

  /** The loop of `_split_values`, extending the result value by value. */
  method SplitValues(values: seq<string>) returns (result: seq<string>)
    ensures result == SplitAll(values)
  {
    result := [];
    var i := 0;
    while i < |values|
      invariant 0 <= i <= |values|
      invariant result == SplitAll(values[..i])
    {
      assert values[..i + 1][..i] == values[..i];
      result := result + CommaItems(values[i]);
      i := i + 1;
    }
    assert values[..i] == values;
  }

  /** The items of one more value follow those of the earlier ones. */
  lemma SplitAllSnoc(init: seq<string>, last: string)
    ensures SplitAll(init + [last]) == SplitAll(init) + CommaItems(last)
  {
    assert (init + [last])[..|init|] == init;
  }

  /** Clean items pass through unchanged. */
  lemma {:induction false} SplitAllClean(items: seq<string>)
    requires AllClean(items)
    ensures SplitAll(items) == items
  {
    if items != [] {
      var init, last := items[..|items| - 1], items[|items| - 1];
      assert items == init + [last];
      assert AllClean(init) by {
        forall i | 0 <= i < |init| ensures Clean(init[i]) {
          assert init[i] == items[i];
        }
      }
      SplitAllClean(init);
      CommaItemsOfClean(last);
      SplitAllSnoc(init, last);
    }
  }

  /** Splitting the result again changes nothing. */
  lemma SplitValuesIdempotent(values: seq<string>)
    ensures SplitAll(SplitAll(values)) == SplitAll(values)
  {
    SplitAllClean(SplitAll(values));
  }

  /** The `--symbol` values, stripped, blank ones dropped. */
  function StrippedNonBlank(values: seq<string>): (r: seq<string>)
    ensures forall i :: 0 <= i < |r| ==> r[i] != "" && Strip(r[i]) == r[i]
  {
    var kept := Filter(values, NonBlank);
    assert forall i :: 0 <= i < |kept| ==> Strip(Strip(kept[i])) == Strip(kept[i]) by {
      forall i | 0 <= i < |kept| ensures Strip(Strip(kept[i])) == Strip(kept[i]) {
        StripIdempotent(kept[i]);
      }
    }
    MapSeq(kept, Strip)
  }

  /** Values already stripped and non-blank pass through unchanged. */
  lemma StrippedNonBlankKeeps(values: seq<string>)
    requires forall i :: 0 <= i < |values| ==> values[i] != "" && Strip(values[i]) == values[i]
    ensures StrippedNonBlank(values) == values
  {
    assert forall i :: 0 <= i < |values| ==> NonBlank(values[i]);
    FilterAll(values, NonBlank);
  }

  /** `_parse_symbols`: the items of `--symbols`, then the stripped, non-blank
      `--symbol` values, which are not split on commas. */
  function ParseSymbols(symbols: Option<string>, symbol: seq<string>): (r: seq<string>)
    ensures forall i :: 0 <= i < |r| ==> r[i] != "" && Strip(r[i]) == r[i]
  {
    (if symbols.Some? then CommaItems(symbols.value) else []) + StrippedNonBlank(symbol)
  }

  /** Items given as one `--symbols` text and as repeated `--symbol` values
      come back in that order, unchanged. */
  lemma ParseSymbolsRoundTrip(listed: seq<string>, repeated: seq<string>)
    requires listed != [] && forall i :: 0 <= i < |listed| ==> Clean(listed[i])
    requires forall i :: 0 <= i < |repeated| ==> repeated[i] != "" && Strip(repeated[i]) == repeated[i]
    ensures ParseSymbols(Some(Join(listed, ',')), repeated) == listed + repeated
  {
    CommaItemsJoin(listed);
    StrippedNonBlankKeeps(repeated);
  }

  // ---------------------------------------------------------------------
  // Asset types

  /** The value `_normalize_asset_types` is given: nothing, a list, or text. */
  datatype AssetTypesArg = NoAssetTypes | AssetTypeList(items: seq<string>) | AssetTypeText(text: string)

  const KnownAssetTypes: set<string> := {"stock", "ashare"}

  const DefaultAssetTypes: seq<string> := ["stock", "ashare"]

  /** `item.strip().lower()`. */
  function Folded(item: string): string {
    Lower(Strip(item))
  }

  /** The raw values before folding. */
  function RawValues(arg: AssetTypesArg): seq<string> {
    match arg
    case NoAssetTypes => DefaultAssetTypes
    case AssetTypeList(items) => MapSeq(items, Strip)
    case AssetTypeText(text) => CommaItems(text)
  }

  /** The folded values that are known asset types, repeats included. */
  function KnownFolded(raw: seq<string>): seq<string> {
    if raw == [] then []
    else
      var x := Folded(raw[|raw| - 1]);
      KnownFolded(raw[..|raw| - 1]) + (if x in KnownAssetTypes then [x] else [])
  }

  /** The list the loop builds: each known folded value, once, in order. */
  function Kept(raw: seq<string>): (r: seq<string>)
    ensures forall i :: 0 <= i < |r| ==> r[i] in KnownAssetTypes
  {
    if raw == [] then []
    else
      var prev := Kept(raw[..|raw| - 1]);
      var x := Folded(raw[|raw| - 1]);
      if x in KnownAssetTypes && x !in prev then prev + [x] else prev
  }

  /** The list the loop builds is the known folded values without repeats. */
  lemma {:induction false} KeptIsDedup(raw: seq<string>)
    ensures Kept(raw) == Dedup(KnownFolded(raw))
  {
    if raw != [] {
      var init := raw[..|raw| - 1];
      KeptIsDedup(init);
      var x := Folded(raw[|raw| - 1]);
      var k := KnownFolded(init);
      assert Kept(raw) == if x in KnownAssetTypes && x !in Kept(init) then Kept(init) + [x] else Kept(init);
      if x in KnownAssetTypes {
        assert KnownFolded(raw) == k + [x];
        DedupSnoc(k, x);
      } else {
        assert KnownFolded(raw) == k;
      }
    }
  }

  /** `_normalize_asset_types` as a result: the kept values, or both known
      asset types when none is kept. */
  function AssetTypes(arg: AssetTypesArg): seq<string> {
    var kept := Kept(RawValues(arg));
    if kept == [] then DefaultAssetTypes else kept
  }

  /** The loop of `_normalize_asset_types`: each known folded value, once. */
  method KeepKnown(raw: seq<string>) returns (normalized: seq<string>)
    ensures normalized == Kept(raw)
  {
    normalized := [];
    var i := 0;
    while i < |raw|
      invariant 0 <= i <= |raw|
      invariant normalized == Kept(raw[..i])
    {
      assert raw[..i + 1][..i] == raw[..i];
      var item := Folded(raw[i]);
      if item in KnownAssetTypes && item !in normalized {
        normalized := normalized + [item];
      }
      i := i + 1;
    }
    assert raw[..i] == raw;
  }

  /** `_normalize_asset_types`. */
  method NormalizeAssetTypes(arg: AssetTypesArg) returns (result: seq<string>)
    ensures result == AssetTypes(arg)
  {
    var normalized := KeepKnown(RawValues(arg));
    result := if normalized == [] then DefaultAssetTypes else normalized;
  }

  /** The result is never empty, holds only known asset types, none twice,
      in the order they first appear; it is both known types when no value
      is one of them. */
  lemma AssetTypesShape(arg: AssetTypesArg)
    ensures var r := AssetTypes(arg);
      && r != []
      && (forall i :: 0 <= i < |r| ==> r[i] in KnownAssetTypes)
      && Distinct(r)
      && (KnownFolded(RawValues(arg)) == [] ==> r == DefaultAssetTypes)
      && (KnownFolded(RawValues(arg)) != [] ==> SubseqOf(r, KnownFolded(RawValues(arg))))
      && (KnownFolded(RawValues(arg)) != [] ==> r == Dedup(KnownFolded(RawValues(arg))))
      && (KnownFolded(RawValues(arg)) != [] ==> forall x :: x in r <==> x in KnownFolded(RawValues(arg)))
  {
    var known := KnownFolded(RawValues(arg));
    KeptIsDedup(RawValues(arg));
    DedupDistinct(known);
    DedupSubseq(known);
    if known != [] {
      DedupMembers(known, known[0]);
      forall x ensures x in Dedup(known) <==> x in known {
        DedupMembers(known, x);
      }
    } else {
      assert "stock" != "ashare" by { assert |"stock"| != |"ashare"|; }
    }
  }

  // ---------------------------------------------------------------------
  // Filters

  /** The filter options of a command, each list option as given (absent
      options are empty lists). */
  datatype FilterArgs = FilterArgs(
    includeRegex: seq<string>, excludeRegex: seq<string>,
    includePrefix: seq<string>, excludePrefix: seq<string>,
    includeSymbols: seq<string>, excludeSymbols: seq<string>,
    includeName: seq<string>, excludeName: seq<string>,
    includeExchange: seq<string>, excludeExchange: seq<string>,
    includeMarket: seq<string>, excludeMarket: seq<string>,
    onlyEtf: bool, excludeEtf: bool, onlyFund: bool, excludeFund: bool,
    includeFundCategory: seq<string>, excludeFundCategory: seq<string>)

  /** A pair of switches: the first wins, the second gives False, neither
      leaves the setting unset. */
  function Switch(only: bool, exclude: bool): (r: Option<bool>)
    ensures r == Some(true) <==> only
    ensures r == Some(false) <==> !only && exclude
    ensures r.None? <==> !only && !exclude
  {
    if only then Some(true) else if exclude then Some(false) else None
  }

  /** `_filters_from_args`. */
  function FiltersFromArgs(a: FilterArgs): (f: FilterConfig)
    ensures f.onlyEtf == Switch(a.onlyEtf, a.excludeEtf) && f.onlyFund == Switch(a.onlyFund, a.excludeFund)
  {
    FilterConfig(
      SplitAll(a.includeRegex), SplitAll(a.excludeRegex),
      SplitAll(a.includePrefix), SplitAll(a.excludePrefix),
      SplitAll(a.includeSymbols), SplitAll(a.excludeSymbols),
      SplitAll(a.includeName), SplitAll(a.excludeName),
      SplitAll(a.includeExchange), SplitAll(a.excludeExchange),
      SplitAll(a.includeMarket), SplitAll(a.excludeMarket),
      Switch(a.onlyEtf, a.excludeEtf), Switch(a.onlyFund, a.excludeFund),
      SplitAll(a.includeFundCategory), SplitAll(a.excludeFundCategory))
  }

  /** Giving no filter option at all gives the empty filter configuration. */
  lemma NoFilterArgs()
    ensures FiltersFromArgs(FilterArgs([], [], [], [], [], [], [], [], [], [], [], [],
                                       false, false, false, false, [], [])) == NoFilters
  {
  }

  /** Every item of the list is clean. */
  predicate AllClean(items: seq<string>) {
    forall i :: 0 <= i < |items| ==> Clean(items[i])
  }

  /** The options that rebuild a filter configuration: its lists as given,
      and the switch that gives each of its two settings. */
  function ArgsOf(f: FilterConfig): FilterArgs {
    FilterArgs(
      f.includeRegex, f.excludeRegex, f.includePrefixes, f.excludePrefixes,
      f.includeSymbols, f.excludeSymbols, f.includeNameRegex, f.excludeNameRegex,
      f.includeExchanges, f.excludeExchanges, f.includeMarketCategories, f.excludeMarketCategories,
      f.onlyEtf == Some(true), f.onlyEtf == Some(false), f.onlyFund == Some(true), f.onlyFund == Some(false),
      f.includeFundCategories, f.excludeFundCategories)
  }

  /** Each setting comes from the switches that select it. */
  lemma SwitchOf(setting: Option<bool>)
    ensures Switch(setting == Some(true), setting == Some(false)) == setting
  {
    match setting
    case None =>
    case Some(b) => assert b ==> setting == Some(true);
  }

  /** Passing the lists of a filter configuration back as options, with
      the switches set to match, rebuilds it. */
  lemma FiltersRoundTrip(f: FilterConfig)
    requires AllClean(f.includeRegex) && AllClean(f.excludeRegex)
    requires AllClean(f.includePrefixes) && AllClean(f.excludePrefixes)
    requires AllClean(f.includeSymbols) && AllClean(f.excludeSymbols)
    requires AllClean(f.includeNameRegex) && AllClean(f.excludeNameRegex)
    requires AllClean(f.includeExchanges) && AllClean(f.excludeExchanges)
    requires AllClean(f.includeMarketCategories) && AllClean(f.excludeMarketCategories)
    requires AllClean(f.includeFundCategories) && AllClean(f.excludeFundCategories)
    ensures FiltersFromArgs(ArgsOf(f)) == f
  {
    SwitchOf(f.onlyEtf);
    SwitchOf(f.onlyFund);
    SplitAllClean(f.includeRegex);
    SplitAllClean(f.excludeRegex);
    SplitAllClean(f.includePrefixes);
    SplitAllClean(f.excludePrefixes);
    SplitAllClean(f.includeSymbols);
    SplitAllClean(f.excludeSymbols);
    SplitAllClean(f.includeNameRegex);
    SplitAllClean(f.excludeNameRegex);
    SplitAllClean(f.includeExchanges);
    SplitAllClean(f.excludeExchanges);
    SplitAllClean(f.includeMarketCategories);
    SplitAllClean(f.excludeMarketCategories);
    SplitAllClean(f.includeFundCategories);
    SplitAllClean(f.excludeFundCategories);
  }

  // ---------------------------------------------------------------------
  // Wizard input

  /** The answers that take the wizard one step back. */
  const BackWords: set<string> := {"b", "back", "上一步", "返回"}

  /** `_is_wizard_back`. */
  predicate IsWizardBack(value: string) {
    Folded(value) in BackWords
  }

  /** Whitespace around the answer and letter case do not matter. */
  lemma WizardBackFolded(value: string)
    ensures IsWizardBack(value) <==> IsWizardBack(Folded(value))
  {
    CaseStripIdempotent(value);
  }

  /** `_WIZARD_INTERVALS`. */
  const WizardIntervals: seq<string> :=
    ["1m", "2m", "5m", "15m", "30m", "60m", "90m", "1h", "1d", "5d", "1wk", "1mo", "3mo"]

  /** Not one of the wizard's intervals. */
  predicate NotWizardInterval(item: string) {
    item !in WizardIntervals
  }

  /** The error for intervals the wizard does not offer. */
  function IntervalsError(invalid: seq<string>): Exc {
    ValueError("不支持的周期：" + Join(invalid, ',') + "，可用值: " + JoinWith(WizardIntervals, ", "))
  }

  /** `_validate_intervals`: the lower-cased items, joined by commas, when
      every one is a wizard interval; "" for blank input. */
  function ValidateIntervals(value: string): (r: Result<string>)
    ensures r.Err? <==> exists i :: 0 <= i < |CommaItems(Folded(value))| && CommaItems(Folded(value))[i] !in WizardIntervals
    ensures r.Err? ==> r.error == IntervalsError(Filter(CommaItems(Folded(value)), NotWizardInterval))
    ensures r.Ok? ==> r.value == Join(CommaItems(Folded(value)), ',')
  {
    var raw := Folded(value);
    var items := CommaItems(raw);
    var invalid := Filter(items, NotWizardInterval);
    assert invalid == [] <==> forall i :: 0 <= i < |items| ==> items[i] in WizardIntervals by {
      if invalid != [] {
        FilterMembers(items, NotWizardInterval, invalid[0]);
      } else {
        forall i | 0 <= i < |items| ensures items[i] in WizardIntervals {
          FilterMembers(items, NotWizardInterval, items[i]);
        }
      }
    }
    if raw == "" then
      assert items == [] by { CommaItemsEmpty(); }
      Ok("")
    else if invalid != [] then Err(IntervalsError(invalid))
    else Ok(Join(items, ','))
  }

  /** A character of some wizard interval. */
  predicate IntervalChar(c: char) {
    '0' <= c <= '9' || c == 'd' || c == 'h' || c == 'k' || c == 'm' || c == 'o' || c == 'w'
  }

  /** Every character of a wizard interval is a digit or a lower-case letter. */
  lemma WizardIntervalChars(item: string)
    requires item in WizardIntervals
    ensures forall k :: 0 <= k < |item| ==> IntervalChar(item[k])
  {
  }

  /** The characters of a joined text come from the parts and the separator. */
  lemma {:induction false} JoinChars(parts: seq<string>, sep: char)
    requires forall i :: 0 <= i < |parts| ==> forall k :: 0 <= k < |parts[i]| ==> parts[i][k] == sep || IntervalChar(parts[i][k])
    ensures forall k :: 0 <= k < |Join(parts, sep)| ==> Join(parts, sep)[k] == sep || IntervalChar(Join(parts, sep)[k])
  {
    if |parts| > 1 {
      JoinChars(parts[1..], sep);
    }
  }

  /** A comma-joined list of wizard intervals holds only commas, digits and
      lower-case letters. */
  lemma IntervalsJoinChars(items: seq<string>)
    requires forall i :: 0 <= i < |items| ==> items[i] in WizardIntervals
    ensures forall k :: 0 <= k < |Join(items, ',')| ==> Join(items, ',')[k] == ',' || IntervalChar(Join(items, ',')[k])
  {
    forall i | 0 <= i < |items|
      ensures forall k :: 0 <= k < |items[i]| ==> items[i][k] == ',' || IntervalChar(items[i][k])
    {
      WizardIntervalChars(items[i]);
    }
    JoinChars(items, ',');
  }

  /** Text made of commas, digits and the letters of the wizard intervals. */
  predicate IntervalText(r: string) {
    forall k :: 0 <= k < |r| ==> r[k] == ',' || IntervalChar(r[k])
  }

  /** Such text is already stripped and lower-case. */
  lemma IntervalTextFolded(r: string)
    requires IntervalText(r)
    ensures Folded(r) == r
  {
    if r != "" {
      PrintableNotSpace(r[0]);
      PrintableNotSpace(r[|r| - 1]);
      StripUnchanged(r);
    } else {
      EmptyFacts();
    }
    LowerUnchanged(r);
  }

  /** A comma-joined list of wizard intervals is already stripped and
      lower-case. */
  lemma JoinedIntervalsFolded(items: seq<string>)
    requires forall i :: 0 <= i < |items| ==> items[i] in WizardIntervals
    ensures Folded(Join(items, ',')) == Join(items, ',')
  {
    IntervalsJoinChars(items);
    IntervalTextFolded(Join(items, ','));
  }

  /** Blank text has no items. */
  lemma CommaItemsEmpty()
    ensures CommaItems("") == []
  {
    EmptyFacts();
  }

  /** Validating the result again gives it back. */
  lemma ValidateIntervalsIdempotent(value: string)
    requires ValidateIntervals(value).Ok?
    ensures ValidateIntervals(ValidateIntervals(value).value) == ValidateIntervals(value)
  {
    var items := CommaItems(Folded(value));
    JoinedIntervalsFolded(items);
    if items != [] {
      CommaItemsJoin(items);
    } else {
      CommaItemsEmpty();
    }
  }

  // ---------------------------------------------------------------------
  // doctor

  /** The status of one check. */
  datatype Level = CheckOk | CheckWarn | CheckFail

  /** What `checks[name]` holds. */
  datatype CheckEntry = CheckEntry(status: Level, message: string, detail: Option<string>)

  /** One `_set_check` call. */
  datatype CheckCall = CheckCall(name: string, entry: CheckEntry, blocksStrict: bool)

  /** The state `_run_doctor` keeps while it runs its checks. */
  class Doctor {
    var checks: map<string, CheckEntry>
    var anyFail: bool
    var anyWarn: bool
    var anyWarnBlocksStrict: bool
    const strict: bool

    /** No check run yet. */
    constructor (strict: bool)
      ensures this.strict == strict && checks == map[]
      ensures !anyFail && !anyWarn && !anyWarnBlocksStrict
    {
      this.strict := strict;
      checks := map[];
      anyFail := false;
      anyWarn := false;
      anyWarnBlocksStrict := false;
    }

    /** `_set_check`: record the entry under its name (replacing an earlier
        one) and raise the flags, which are never lowered again. */
    method SetCheck(call: CheckCall)
      modifies this
      ensures checks == old(checks)[call.name := call.entry]
      ensures anyFail == (old(anyFail) || call.entry.status == CheckFail)
      ensures anyWarn == (old(anyWarn) || call.entry.status == CheckWarn)
      ensures anyWarnBlocksStrict == (old(anyWarnBlocksStrict) || (call.entry.status == CheckWarn && call.blocksStrict))
    {
      checks := checks[call.name := call.entry];
      if call.entry.status == CheckFail {
        anyFail := true;
      } else if call.entry.status == CheckWarn {
        anyWarn := true;
        if call.blocksStrict {
          anyWarnBlocksStrict := true;
        }
      }
    }

    /** The report's status. */
    function Status(): Level
      reads this
    {
      if anyFail then CheckFail else if anyWarn then CheckWarn else CheckOk
    }

    /** The exit code. */
    function ExitCode(): int
      reads this
    {
      if strict && (anyFail || anyWarnBlocksStrict) then 2 else 0
    }
  }

  /** Some call recorded this status. */
  predicate AnyWith(calls: seq<CheckCall>, status: Level) {
    exists i :: 0 <= i < |calls| && calls[i].entry.status == status
  }

  /** Some call recorded a warning that blocks strict mode. */
  predicate AnyBlockingWarn(calls: seq<CheckCall>) {
    exists i :: 0 <= i < |calls| && calls[i].entry.status == CheckWarn && calls[i].blocksStrict
  }

  /** The report's status after these checks: fail over warn over ok. */
  function ReportStatus(calls: seq<CheckCall>): Level {
    if AnyWith(calls, CheckFail) then CheckFail else if AnyWith(calls, CheckWarn) then CheckWarn else CheckOk
  }

  /** The exit code after these checks. */
  function DoctorExit(calls: seq<CheckCall>, strict: bool): int {
    if strict && (AnyWith(calls, CheckFail) || AnyBlockingWarn(calls)) then 2 else 0
  }

  /** The `checks` map after these checks: the last entry per name. */
  function FinalChecks(calls: seq<CheckCall>): map<string, CheckEntry> {
    if calls == [] then map[]
    else FinalChecks(calls[..|calls| - 1])[calls[|calls| - 1].name := calls[|calls| - 1].entry]
  }

  /** What one more check adds to the map and the flags. */
  lemma DoctorStep(calls: seq<CheckCall>, i: nat)
    requires i < |calls|
    ensures FinalChecks(calls[..i + 1]) == FinalChecks(calls[..i])[calls[i].name := calls[i].entry]
    ensures AnyWith(calls[..i + 1], CheckFail) == (AnyWith(calls[..i], CheckFail) || calls[i].entry.status == CheckFail)
    ensures AnyWith(calls[..i + 1], CheckWarn) == (AnyWith(calls[..i], CheckWarn) || calls[i].entry.status == CheckWarn)
    ensures AnyBlockingWarn(calls[..i + 1]) == (AnyBlockingWarn(calls[..i]) || (calls[i].entry.status == CheckWarn && calls[i].blocksStrict))
  {
    var prefix := calls[..i + 1];
    assert prefix[..i] == calls[..i];
    assert forall j :: 0 <= j < i ==> prefix[j] == calls[..i][j];
    assert prefix[i] == calls[i];
  }

  /** `_run_doctor` over a sequence of checks: its report status, its
      `checks` map and its exit code. */
  method RunDoctor(calls: seq<CheckCall>, strict: bool) returns (status: Level, checks: map<string, CheckEntry>, code: int)
    ensures status == ReportStatus(calls)
    ensures checks == FinalChecks(calls)
    ensures code == DoctorExit(calls, strict)
  {
    var doctor := new Doctor(strict);
    var i := 0;
    while i < |calls|
      invariant 0 <= i <= |calls|
      invariant doctor.strict == strict
      invariant doctor.checks == FinalChecks(calls[..i])
      invariant doctor.anyFail == AnyWith(calls[..i], CheckFail)
      invariant doctor.anyWarn == AnyWith(calls[..i], CheckWarn)
      invariant doctor.anyWarnBlocksStrict == AnyBlockingWarn(calls[..i])
    {
      DoctorStep(calls, i);
      doctor.SetCheck(calls[i]);
      i := i + 1;
    }
    assert calls[..i] == calls;
    status := doctor.Status();
    checks := doctor.checks;
    code := doctor.ExitCode();
  }

  /** Exit code 2 needs strict mode, and a failure or a blocking warning. */
  lemma DoctorExitCases(calls: seq<CheckCall>, strict: bool)
    ensures DoctorExit(calls, strict) in {0, 2}
    ensures !strict ==> DoctorExit(calls, strict) == 0
    ensures DoctorExit(calls, strict) == 2 ==> ReportStatus(calls) != CheckOk
    ensures ReportStatus(calls) == CheckFail && strict ==> DoctorExit(calls, strict) == 2
  {
  }

  /** A failed check keeps the report failed even when a later check of the
      same name replaces its entry with a success. */
  lemma FailureOutlivesEntry(earlier: seq<CheckCall>, name: string, later: CheckEntry)
    requires AnyWith(earlier, CheckFail)
    ensures ReportStatus(earlier + [CheckCall(name, later, true)]) == CheckFail
    ensures FinalChecks(earlier + [CheckCall(name, later, true)])[name] == later
  {
    var all := earlier + [CheckCall(name, later, true)];
    var i :| 0 <= i < |earlier| && earlier[i].entry.status == CheckFail;
    assert all[i] == earlier[i];
    assert all[..|all| - 1] == earlier;
  }

  // ---------------------------------------------------------------------
  // validate and download

  /** How many issues are errors. */
  function ErrorCount(severities: seq<Quality.Severity>): (n: nat)
    ensures n <= |severities|
    ensures n > 0 <==> Quality.Error in severities
  {
    if severities == [] then 0
    else
      var init := severities[..|severities| - 1];
      assert severities == init + [severities[|severities| - 1]];
      ErrorCount(init) + (if severities[|severities| - 1] == Quality.Error then 1 else 0)
  }

  /** The exit code of `_run_validate`. */
  function ValidateExitCode(fileCount: nat, severities: seq<Quality.Severity>): int {
    if fileCount == 0 then 0 else if ErrorCount(severities) > 0 then 1 else 0
  }

  /** `_run_validate` after the batch: no file found gives 0, otherwise the
      issues are counted as `_on_issue` does and any error gives 1. */
  method RunValidateExit(fileCount: nat, severities: seq<Quality.Severity>) returns (code: int)
    ensures code == ValidateExitCode(fileCount, severities)
    ensures code == 1 <==> fileCount > 0 && Quality.Error in severities
    ensures code in {0, 1}
  {
    if fileCount == 0 {
      return 0;
    }
    var issueCount := 0;
    var errorCount := 0;
    var i := 0;
    while i < |severities|
      invariant 0 <= i <= |severities|
      invariant issueCount == i && errorCount == ErrorCount(severities[..i])
    {
      assert severities[..i + 1][..i] == severities[..i];
      issueCount := issueCount + 1;
      if severities[i] == Quality.Error {
        errorCount := errorCount + 1;
      }
      i := i + 1;
    }
    assert severities[..i] == severities;
    code := if errorCount > 0 then 1 else 0;
  }

  /** How `downloader.run` ended: the failures file could not be parsed, or
      the run finished with some failures recorded. */
  datatype DownloadOutcome = LedgerParseError(message: string) | Finished(failureCount: nat)

  /** The exit code of `_run_download`. */
  function DownloadExitCode(outcome: DownloadOutcome): (code: int)
    ensures code == 2 <==> outcome.LedgerParseError?
    ensures code == 1 <==> outcome.Finished? && outcome.failureCount > 0
    ensures code == 0 <==> outcome.Finished? && outcome.failureCount == 0
  {
    match outcome
    case LedgerParseError(_) => 2
    case Finished(n) => if n > 0 then 1 else 0
  }
}
