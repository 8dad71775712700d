/** `validation/config.py`: the checks a parsed configuration document goes
    through before it becomes an `AppConfig`.

    The document arrives here already coerced to typed sections (the
    pydantic coercion of YAML/TOML scalars and the filling in of missing
    keys with defaults are not modelled). Each section contributes one
    message per failing field; the whole payload is accepted iff no section
    has any. Whether a zone name exists in the time-zone database is the
    parameter `knownZone`. */
module ConfigValidation {
  import opened Wrappers
  import opened Text
  import opened Seqs
  import opened RateLimiting
  import opened Config

  /** `[msg]` when the check fails, else nothing. */
  function Check(ok: bool, msg: string): (e: seq<string>)
    ensures e == [] <==> ok
    ensures !ok ==> msg in e
  {
    if ok then [] else [msg]
  }

  // ---------------------------------------------------------------------
  // The numeric sections

  /** `RateLimitConfigModel`: the field validators, then `_jitter_range`,
      which pydantic runs only once every field has validated. */
  function RateLimitErrors(c: RateLimitConfig): (e: seq<string>)
    ensures e == [] <==>
      c.requestsPerSecond >= 0.0 && c.jitterMin >= 0.0 && c.jitterMax >= 0.0
      && c.backoffBase >= 0.0 && c.backoffMax >= 0.0 && c.jitterMin <= c.jitterMax
    ensures c.requestsPerSecond < 0.0 ==> "requests_per_second must be >= 0" in e
    ensures c.requestsPerSecond >= 0.0 && c.jitterMin >= 0.0 && c.jitterMax >= 0.0
              && c.backoffBase >= 0.0 && c.backoffMax >= 0.0 && c.jitterMin > c.jitterMax ==>
            e == ["jitter_min cannot be greater than jitter_max"]
  {
    var fields := Check(c.requestsPerSecond >= 0.0, "requests_per_second must be >= 0")
      + Check(c.jitterMin >= 0.0, "rate_limit.jitter_min: must be >= 0")
      + Check(c.jitterMax >= 0.0, "rate_limit.jitter_max: must be >= 0")
      + Check(c.backoffBase >= 0.0, "rate_limit.backoff_base: must be >= 0")
      + Check(c.backoffMax >= 0.0, "rate_limit.backoff_max: must be >= 0");
    if fields != [] then fields
    else Check(c.jitterMin <= c.jitterMax, "jitter_min cannot be greater than jitter_max")
  }

  /** `CatalogConfigModel`: retries and limit at least 1, sleep and backoff
      not negative. */
  function CatalogErrors(c: CatalogConfig): (e: seq<string>)
    ensures e == [] <==> c.retries >= 1 && c.limit >= 1 && c.sleepSec >= 0.0 && c.retryBackoff >= 0.0
  {
    Check(c.retries >= 1, "catalog.retries: must be >= 1")
    + Check(c.sleepSec >= 0.0, "catalog.sleep_sec: must be >= 0")
    + Check(c.retryBackoff >= 0.0, "catalog.retry_backoff: must be >= 0")
    + Check(c.limit >= 1, "catalog.limit: must be >= 1")
  }

  /** `DownloadConfigModel`: concurrency, batch_days and max_retries at
      least 1, startup jitter not negative. */
  function DownloadErrors(c: DownloadConfig): (e: seq<string>)
    ensures e == [] <==>
      c.concurrency >= 1 && c.batchDays >= 1 && c.maxRetries >= 1 && c.startupJitterMax >= 0.0
  {
    Check(c.concurrency >= 1, "download.concurrency: must be >= 1")
    + Check(c.batchDays >= 1, "download.batch_days: must be >= 1")
    + Check(c.maxRetries >= 1, "download.max_retries: must be >= 1")
    + Check(c.startupJitterMax >= 0.0, "download.startup_jitter_max: must be >= 0")
  }

  /** `StorageConfigModel`: the data root is not the empty string. */
  function StorageErrors(c: StorageConfig): (e: seq<string>)
    ensures e == [] <==> c.dataRoot != ""
  {
    Check(c.dataRoot != "", "storage.data_root is empty")
  }

  // ---------------------------------------------------------------------
  // The adjust defaults

  /** The six spellings both adjust defaults accept. */
  const AdjustDefaultModes: set<string> := {"auto", "back", "forward", "none", "front", "backward"}

  /** `_adjust_default` of the yfinance and Baostock sections: the stripped,
      lowercased value when it is one of the six modes, else a ValueError
      naming the field. */
  function NormalizeAdjustDefault(value: string, field: string): (r: Result<string>)
    ensures r.Ok? <==> Lower(Strip(value)) in AdjustDefaultModes
    ensures r.Ok? ==> r.value == Lower(Strip(value))
    ensures r.Err? ==> r.error == ValueError(field + " invalid")
  {
    var normalized := Lower(Strip(value));
    if normalized in AdjustDefaultModes then Ok(normalized) else Err(ValueError(field + " invalid"))
  }

  /** A normalised adjust default normalises to itself. */
  lemma NormalizeAdjustDefaultIdempotent(value: string, field: string)
    requires NormalizeAdjustDefault(value, field).Ok?
    ensures NormalizeAdjustDefault(NormalizeAdjustDefault(value, field).value, field)
      == NormalizeAdjustDefault(value, field)
  {
    CaseStripIdempotent(value);
  }

  // ---------------------------------------------------------------------
  // asset_types, intervals_default, timezone

  /** Every item stripped, in order. */
  function Stripped(value: seq<string>): (r: seq<string>)
    ensures |r| == |value| && forall i :: 0 <= i < |value| ==> r[i] == Strip(value[i])
  {
    MapSeq(value, Strip)
  }

  /** `_asset_types`: the list must not be empty and no item may be blank;
      the result is the stripped items, first occurrences only. */
  function AssetTypesField(value: seq<string>): (r: Result<seq<string>>)
    ensures r.Err? <==> value == [] || exists i :: 0 <= i < |value| && Strip(value[i]) == ""
    ensures r.Ok? ==> r.value == Dedup(Stripped(value))
    ensures value == [] ==> r == Err(ValueError("asset_types 不能为空"))
    ensures value != [] && r.Err? ==> r == Err(ValueError("asset_types 包含空值"))
  {
    if value == [] then Err(ValueError("asset_types 不能为空"))
    else if exists i :: 0 <= i < |value| && Strip(value[i]) == "" then Err(ValueError("asset_types 包含空值"))
    else Ok(Dedup(Stripped(value)))
  }

  /** `_asset_types` as the program runs it: a loop that strips each item and
      stops at the first blank one, then a loop that keeps the items not
      seen before. */
  method ValidateAssetTypes(value: seq<string>) returns (r: Result<seq<string>>)
    ensures r == AssetTypesField(value)
  {
    if value == [] {
      return Err(ValueError("asset_types 不能为空"));
    }
    var normalized: seq<string> := [];
    var i := 0;
    while i < |value|
      invariant 0 <= i <= |value|
      invariant normalized == Stripped(value[..i])
      invariant forall k :: 0 <= k < i ==> Strip(value[k]) != ""
    {
      var token := Strip(value[i]);
      if token == "" {
        return Err(ValueError("asset_types 包含空值"));
      }
      normalized := normalized + [token];
      i := i + 1;
    }
    assert value[..i] == value;
    var uniq: seq<string> := [];
    var seen: set<string> := {};
    var j := 0;
    while j < |normalized|
      invariant 0 <= j <= |normalized|
      invariant uniq == Dedup(normalized[..j])
      invariant forall x :: x in seen <==> x in uniq
    {
      var item := normalized[j];
      DedupPrefix(normalized, j);
      if item !in seen {
        uniq := uniq + [item];
        seen := seen + {item};
      }
      j := j + 1;
    }
    assert normalized[..j] == normalized;
    return Ok(uniq);
  }

  /** An accepted asset-type list is not empty, has no repeats, holds
      exactly the stripped items, keeps their first-occurrence order, and
      validates to itself. */
  lemma AssetTypesFieldShape(value: seq<string>)
    requires AssetTypesField(value).Ok?
    ensures var r := AssetTypesField(value).value;
      r != [] && Distinct(r) && SubseqOf(r, Stripped(value))
      && (forall x :: x in r <==> x in Stripped(value))
      && StrippedItems(r)
      && AssetTypesField(r) == Ok(r)
  {
    var s := Stripped(value);
    var r := Dedup(s);
    DedupDistinct(s);
    DedupSubseq(s);
    forall x ensures x in r <==> x in s {
      DedupMembers(s, x);
    }
    assert s[0] in r;
    forall k | 0 <= k < |r| ensures Strip(r[k]) == r[k] && r[k] != "" {
      assert r[k] in s;
      var i :| 0 <= i < |s| && s[i] == r[k];
      StripIdempotent(value[i]);
    }
    SameElements(Stripped(r), r);
    DedupOfDistinct(r);
  }

  /** `_intervals_default`: an empty list becomes `["1d"]`; otherwise the
      stripped items that are not blank. */
  function IntervalsDefault(value: seq<string>): (r: seq<string>)
    ensures value == [] ==> r == ["1d"]
    ensures value != [] ==> r == Stripped(Filter(value, NonBlank))
  {
    if value == [] then ["1d"] else Stripped(Filter(value, NonBlank))
  }

  /** Every default interval is stripped and not blank; an input with only
      blank items yields an empty list, not `["1d"]`. */
  lemma IntervalsDefaultShape(value: seq<string>)
    ensures StrippedItems(IntervalsDefault(value))
    ensures value != [] && (forall k :: 0 <= k < |value| ==> Strip(value[k]) == "") ==> IntervalsDefault(value) == []
  {
    if value != [] {
      var kept := Filter(value, NonBlank);
      forall k | 0 <= k < |kept| ensures Strip(kept[k]) != "" && Strip(Strip(kept[k])) == Strip(kept[k]) {
        StripIdempotent(kept[k]);
      }
      if forall k :: 0 <= k < |value| ==> Strip(value[k]) == "" {
        if kept != [] {
          FilterMembers(value, NonBlank, kept[0]);
          assert kept[0] in value;
        }
      }
    }
  }

  /** A non-empty validated list validates to itself. */
  lemma IntervalsDefaultStable(value: seq<string>)
    ensures IntervalsDefault(value) != [] ==> IntervalsDefault(IntervalsDefault(value)) == IntervalsDefault(value)
  {
    var r := IntervalsDefault(value);
    IntervalsDefaultShape(value);
    if r != [] {
      IntervalsFixed(r);
    }
  }

  /** A list whose items are all blank becomes empty, and then `["1d"]` on a
      second pass, so the validator is not idempotent there. */
  lemma IntervalsDefaultAllBlank()
    ensures IntervalsDefault(["  "]) == []
    ensures IntervalsDefault(IntervalsDefault(["  "])) == ["1d"]
  {
    StripEmptyIff("  ");
    IntervalsDefaultShape(["  "]);
  }

  /** `_timezone`: the stripped value, or "Asia/Shanghai" when it is missing
      or blank, which must name a known zone. The message quotes the value
      as given. */
  function TimezoneField(value: Option<string>, knownZone: string -> bool): (r: Result<string>)
    ensures r.Ok? <==> knownZone(if value.Some? && Strip(value.value) != "" then Strip(value.value) else "Asia/Shanghai")
    ensures r.Ok? ==> r.value == if value.Some? && Strip(value.value) != "" then Strip(value.value) else "Asia/Shanghai"
    ensures r.Err? ==> r.error == ValueError("invalid timezone: " + (if value.Some? then value.value else "None"))
  {
    var zone := if value.Some? && Strip(value.value) != "" then Strip(value.value) else "Asia/Shanghai";
    if knownZone(zone) then Ok(zone)
    else Err(ValueError("invalid timezone: " + (if value.Some? then value.value else "None")))
  }

  // ---------------------------------------------------------------------
  // The whole payload

  /** A configuration document after coercion. `filterExtraKeys` are the
      keys of the `filters` table that are not filter fields, which that
      section forbids; unknown keys elsewhere are ignored. */
  datatype ConfigPayload = ConfigPayload(
    rateLimit: RateLimitConfig,
    catalog: CatalogConfig,
    filters: FilterConfig,
    filterExtraKeys: seq<string>,
    download: DownloadConfig,
    storage: StorageConfig,
    yfinanceProxy: Option<string>,
    yfinanceAdjustDefault: string,
    baostockAdjustDefault: string,
    timezone: Option<string>,
    intervalsDefault: seq<string>,
    assetTypes: seq<string>)

  /** The messages of a failed field, if it failed. */
  function ErrorsOf<T>(r: Result<T>): (e: seq<string>)
    ensures e == [] <==> r.Ok?
  {
    if r.Ok? then [] else [r.error.message]
  }

  /** The `filters` section forbids keys it does not know: one message each. */
  function ExtraKeyErrors(keys: seq<string>): (e: seq<string>)
    ensures |e| == |keys|
    ensures forall i :: 0 <= i < |keys| ==> e[i] == "filters." + keys[i] + ": Extra inputs are not permitted"
  {
    if keys == [] then []
    else ["filters." + keys[0] + ": Extra inputs are not permitted"] + ExtraKeyErrors(keys[1..])
  }

  /** Every message the payload raises, section by section. */
  function PayloadErrors(p: ConfigPayload, knownZone: string -> bool): (e: seq<string>)
    ensures e == [] <==>
      RateLimitErrors(p.rateLimit) == [] && CatalogErrors(p.catalog) == [] && p.filterExtraKeys == []
      && DownloadErrors(p.download) == [] && StorageErrors(p.storage) == []
      && NormalizeAdjustDefault(p.yfinanceAdjustDefault, "yfinance.auto_adjust_default").Ok?
      && NormalizeAdjustDefault(p.baostockAdjustDefault, "baostock.adjust_default").Ok?
      && TimezoneField(p.timezone, knownZone).Ok? && AssetTypesField(p.assetTypes).Ok?
  {
    RateLimitErrors(p.rateLimit) + CatalogErrors(p.catalog)
    + ExtraKeyErrors(p.filterExtraKeys)
    + DownloadErrors(p.download) + StorageErrors(p.storage)
    + ErrorsOf(NormalizeAdjustDefault(p.yfinanceAdjustDefault, "yfinance.auto_adjust_default"))
    + ErrorsOf(NormalizeAdjustDefault(p.baostockAdjustDefault, "baostock.adjust_default"))
    + ErrorsOf(TimezoneField(p.timezone, knownZone)) + ErrorsOf(AssetTypesField(p.assetTypes))
  }

  /** What every accepted configuration guarantees. */
  predicate ValidConfig(c: AppConfig, knownZone: string -> bool) {
    RateLimitErrors(c.rateLimit) == [] && CatalogErrors(c.catalog) == []
    && DownloadErrors(c.download) == [] && StorageErrors(c.storage) == []
    && c.yfinance.autoAdjustDefault in AdjustDefaultModes && c.baostock.adjustDefault in AdjustDefaultModes
    && knownZone(c.timezone) && Strip(c.timezone) == c.timezone && c.timezone != ""
    && StrippedItems(c.intervalsDefault)
    && c.assetTypes != [] && Distinct(c.assetTypes) && StrippedItems(c.assetTypes)
  }

  /** Every item is stripped and not blank. */
  predicate StrippedItems(xs: seq<string>) {
    forall k :: 0 <= k < |xs| ==> xs[k] != "" && Strip(xs[k]) == xs[k]
  }

  /** The configuration an accepted payload becomes (`build_config_model`). */
  function BuildConfig(p: ConfigPayload, knownZone: string -> bool): (c: AppConfig)
    requires PayloadErrors(p, knownZone) == []
    ensures ValidConfig(c, knownZone)
    ensures c.rateLimit == p.rateLimit && c.catalog == p.catalog && c.filters == p.filters
    ensures c.download == p.download && c.storage == p.storage && c.yfinance.proxy == p.yfinanceProxy
    ensures c.assetTypes == Dedup(Stripped(p.assetTypes))
    ensures c.intervalsDefault == IntervalsDefault(p.intervalsDefault)
  {
    var zone := TimezoneField(p.timezone, knownZone).value;
    AssetTypesFieldShape(p.assetTypes);
    IntervalsDefaultShape(p.intervalsDefault);
    assert Strip(zone) == zone && zone != "" by {
      if p.timezone.Some? && Strip(p.timezone.value) != "" {
        StripIdempotent(p.timezone.value);
      } else {
        ShanghaiStripped();
      }
    }
    AppConfig(p.rateLimit, p.catalog, p.filters, p.download, p.storage,
      YFinanceConfig(p.yfinanceProxy, NormalizeAdjustDefault(p.yfinanceAdjustDefault, "yfinance.auto_adjust_default").value),
      BaostockConfig(NormalizeAdjustDefault(p.baostockAdjustDefault, "baostock.adjust_default").value),
      zone, IntervalsDefault(p.intervalsDefault), AssetTypesField(p.assetTypes).value)
  }

  /** The default zone name has no surrounding whitespace. */
  lemma ShanghaiStripped()
    ensures Strip("Asia/Shanghai") == "Asia/Shanghai"
  {
    PrintableNotSpace('A');
    PrintableNotSpace('i');
    StripUnchanged("Asia/Shanghai");
  }

  /** `validate_config_payload` followed by `build_config_model`: the
      configuration, or a ValidationConfigError carrying every message. */
  function ValidateConfigPayload(p: ConfigPayload, knownZone: string -> bool): (r: Result<AppConfig>)
    ensures r.Ok? <==> PayloadErrors(p, knownZone) == []
    ensures r.Ok? ==> r.value == BuildConfig(p, knownZone) && ValidConfig(r.value, knownZone)
    ensures r.Err? ==> r.error == Exc("ValidationConfigError", Join(PayloadErrors(p, knownZone), '\n'))
  {
    if PayloadErrors(p, knownZone) == [] then Ok(BuildConfig(p, knownZone))
    else Err(Exc("ValidationConfigError", Join(PayloadErrors(p, knownZone), '\n')))
  }

  /** The payload a configuration is written back as. */
  function PayloadOf(c: AppConfig): ConfigPayload {
    ConfigPayload(c.rateLimit, c.catalog, c.filters, [], c.download, c.storage, c.yfinance.proxy,
      c.yfinance.autoAdjustDefault, c.baostock.adjustDefault, Some(c.timezone), c.intervalsDefault, c.assetTypes)
  }

  /** Writing an accepted configuration back out and validating it again
      gives the same configuration, provided its default intervals are not
      empty (an empty list comes back as `["1d"]`). */
  lemma RevalidateConfig(c: AppConfig, knownZone: string -> bool)
    requires ValidConfig(c, knownZone) && c.intervalsDefault != []
    ensures ValidateConfigPayload(PayloadOf(c), knownZone) == Ok(c)
  {
    WrittenBackAccepted(c, knownZone);
    WrittenBackBuilds(c, knownZone);
  }

  /** The written-back payload of an accepted configuration has no errors. */
  lemma WrittenBackAccepted(c: AppConfig, knownZone: string -> bool)
    requires ValidConfig(c, knownZone) && c.intervalsDefault != []
    ensures PayloadErrors(PayloadOf(c), knownZone) == []
  {
    ModeFixed(c.yfinance.autoAdjustDefault);
    ModeFixed(c.baostock.adjustDefault);
    AssetTypesFixed(c.assetTypes);
    IntervalsFixed(c.intervalsDefault);
  }

  /** The written-back payload of an accepted configuration builds it. */
  lemma WrittenBackBuilds(c: AppConfig, knownZone: string -> bool)
    requires ValidConfig(c, knownZone) && c.intervalsDefault != []
    requires PayloadErrors(PayloadOf(c), knownZone) == []
    ensures BuildConfig(PayloadOf(c), knownZone) == c
  {
    ModeFixed(c.yfinance.autoAdjustDefault);
    ModeFixed(c.baostock.adjustDefault);
    AssetTypesFixed(c.assetTypes);
    IntervalsFixed(c.intervalsDefault);
  }

  /** A list of distinct, stripped, non-blank asset types validates to itself. */
  lemma AssetTypesFixed(xs: seq<string>)
    requires xs != [] && Distinct(xs) && StrippedItems(xs)
    ensures AssetTypesField(xs) == Ok(xs)
  {
    SameElements(Stripped(xs), xs);
    DedupOfDistinct(xs);
  }

  /** A non-empty list of stripped, non-blank intervals validates to itself. */
  lemma IntervalsFixed(xs: seq<string>)
    requires xs != [] && StrippedItems(xs)
    ensures IntervalsDefault(xs) == xs
  {
    FilterAll(xs, NonBlank);
    SameElements(Stripped(xs), xs);
  }

  /** Every adjust mode is already stripped and lowercase. */
  lemma ModeFixed(m: string)
    requires m in AdjustDefaultModes
    ensures Lower(Strip(m)) == m
  {
    PrintableNotSpace(m[0]);
    PrintableNotSpace(m[|m| - 1]);
    StripUnchanged(m);
    LowerUnchanged(m);
  }

  // ---------------------------------------------------------------------
  // What the pacing code relies on

  /** A base that is not negative has a power that is not negative. */
  lemma {:induction false} PowerNonNegative(base: real, k: nat)
    requires base >= 0.0
    ensures Power(base, k) >= 0.0
    decreases k
  {
    if k > 0 {
      PowerNonNegative(base, k - 1);
    }
  }

  /** A validated rate limit draws no negative jitter, so every slot the
      limiter hands out respects the minimum spacing, and its backoff
      delays are never negative. */
  lemma ValidatedPacing(c: AppConfig, knownZone: string -> bool, last: real, now: real, jitter: real, attempt: int)
    requires ValidConfig(c, knownZone)
    requires JitterDraw(c.rateLimit, jitter)
    ensures jitter >= 0.0
    ensures now + SleepFor(c.rateLimit, last, now, jitter) >= last + MinInterval(c.rateLimit)
    ensures Backoff(c.rateLimit, attempt) >= 0.0
  {
    SlotSpacing(c.rateLimit, last, now, jitter);
    var k: nat := if attempt < 1 then 1 else attempt;
    PowerNonNegative(c.rateLimit.backoffBase, k);
  }

  /** A word of lowercase ASCII letters has no surrounding whitespace. */
  lemma LowercaseWordStripped(w: string)
    requires w != [] && forall k :: 0 <= k < |w| ==> 'a' <= w[k] <= 'z'
    ensures Strip(w) == w && w != ""
  {
    PrintableNotSpace(w[0]);
    PrintableNotSpace(w[|w| - 1]);
    StripUnchanged(w);
  }

  /** The default asset types are distinct, stripped words. */
  lemma DefaultAssetTypesValid()
    ensures DefaultAssetTypes != [] && Distinct(DefaultAssetTypes) && StrippedItems(DefaultAssetTypes)
  {
    var types := DefaultAssetTypes;
    forall k | 0 <= k < |types| ensures types[k] != "" && Strip(types[k]) == types[k] {
      LowercaseWordStripped(types[k]);
    }
    forall i, j | 0 <= i < j < |types| ensures types[i] != types[j] {
      assert |types[i]| != |types[j]| || types[i][0] != types[j][0];
    }
  }

  /** The default interval list is stripped. */
  lemma DefaultIntervalsValid()
    ensures StrippedItems(["1d"])
  {
    PrintableNotSpace('1');
    PrintableNotSpace('d');
    StripUnchanged("1d");
  }

  /** The defaults of every section satisfy every validator. */
  lemma DefaultsValid(knownZone: string -> bool)
    requires knownZone("Asia/Shanghai")
    ensures ValidConfig(DefaultApp, knownZone)
  {
    DefaultAssetTypesValid();
    DefaultIntervalsValid();
    ShanghaiStripped();
  }

  /** Writing the defaults out and validating them gives the defaults back. */
  lemma DefaultsValidate(knownZone: string -> bool)
    requires knownZone("Asia/Shanghai")
    ensures ValidateConfigPayload(PayloadOf(DefaultApp), knownZone) == Ok(DefaultApp)
  {
    DefaultsValid(knownZone);
    RevalidateConfig(DefaultApp, knownZone);
  }
}
