/** `config.py`: the configuration records, `merge_filters` and `_deep_merge`.

    Floats are reals. A parsed YAML/TOML document is a `Doc`: a scalar (kept
    as its text) or a table of named documents. */
module Config {
  import opened Wrappers
  import opened RateLimiting

  /** The catalog filter lists and the ETF/fund switches. */
  datatype FilterConfig = FilterConfig(
    includeRegex: seq<string>,
    excludeRegex: seq<string>,
    includePrefixes: seq<string>,
    excludePrefixes: seq<string>,
    includeSymbols: seq<string>,
    excludeSymbols: seq<string>,
    includeNameRegex: seq<string>,
    excludeNameRegex: seq<string>,
    includeExchanges: seq<string>,
    excludeExchanges: seq<string>,
    includeMarketCategories: seq<string>,
    excludeMarketCategories: seq<string>,
    onlyEtf: Option<bool>,
    onlyFund: Option<bool>,
    includeFundCategories: seq<string>,
    excludeFundCategories: seq<string>)

  /** `FilterConfig()`: every list empty, both switches unset. */
  const NoFilters := FilterConfig([], [], [], [], [], [], [], [], [], [], [], [], None, None, [], [])

  datatype CatalogConfig = CatalogConfig(retries: int, sleepSec: real, retryBackoff: real, limit: int)

  const DefaultCatalog := CatalogConfig(3, 0.6, 1.5, 500)

  datatype DownloadConfig = DownloadConfig(concurrency: int, batchDays: int, maxRetries: int, startupJitterMax: real)

  const DefaultDownload := DownloadConfig(4, 60, 2, 0.6)

  datatype StorageConfig = StorageConfig(dataRoot: string, mergeOnIncremental: bool)

  const DefaultStorage := StorageConfig("./data", true)

  datatype YFinanceConfig = YFinanceConfig(proxy: Option<string>, autoAdjustDefault: string)

  const DefaultYFinance := YFinanceConfig(None, "auto")

  datatype BaostockConfig = BaostockConfig(adjustDefault: string)

  const DefaultBaostock := BaostockConfig("back")

  /** The whole configuration. */
  datatype AppConfig = AppConfig(
    rateLimit: RateLimitConfig,
    catalog: CatalogConfig,
    filters: FilterConfig,
    download: DownloadConfig,
    storage: StorageConfig,
    yfinance: YFinanceConfig,
    baostock: BaostockConfig,
    timezone: string,
    intervalsDefault: seq<string>,
    assetTypes: seq<string>)

  const DefaultAssetTypes := ["stock", "ashare", "forex", "crypto", "commodity"]

  const DefaultApp := AppConfig(DefaultRateLimit, DefaultCatalog, NoFilters, DefaultDownload, DefaultStorage,
    DefaultYFinance, DefaultBaostock, "Asia/Shanghai", ["1d"], DefaultAssetTypes)

  /** The switch of `extra` when it is set, else the one of `base`. */
  function Override(base: Option<bool>, extra: Option<bool>): (r: Option<bool>)
    ensures r == (if extra.Some? then extra else base)
  {
    if extra.Some? then extra else base
  }

  /** `merge_filters`: no extra filters leave the base as it is; otherwise
      each list of the result is the base list followed by the extra list,
      and each switch is the extra one when it is set. */
  function MergeFilters(base: FilterConfig, extra: Option<FilterConfig>): (r: FilterConfig)
    ensures extra.None? ==> r == base
    ensures extra.Some? ==>
      var e := extra.value;
      r.includeRegex == base.includeRegex + e.includeRegex
      && r.excludeRegex == base.excludeRegex + e.excludeRegex
      && r.includePrefixes == base.includePrefixes + e.includePrefixes
      && r.excludePrefixes == base.excludePrefixes + e.excludePrefixes
      && r.includeSymbols == base.includeSymbols + e.includeSymbols
      && r.excludeSymbols == base.excludeSymbols + e.excludeSymbols
      && r.includeNameRegex == base.includeNameRegex + e.includeNameRegex
      && r.excludeNameRegex == base.excludeNameRegex + e.excludeNameRegex
      && r.includeExchanges == base.includeExchanges + e.includeExchanges
      && r.excludeExchanges == base.excludeExchanges + e.excludeExchanges
      && r.includeMarketCategories == base.includeMarketCategories + e.includeMarketCategories
      && r.excludeMarketCategories == base.excludeMarketCategories + e.excludeMarketCategories
      && r.onlyEtf == (if e.onlyEtf.Some? then e.onlyEtf else base.onlyEtf)
      && r.onlyFund == (if e.onlyFund.Some? then e.onlyFund else base.onlyFund)
      && r.includeFundCategories == base.includeFundCategories + e.includeFundCategories
      && r.excludeFundCategories == base.excludeFundCategories + e.excludeFundCategories
  {
    match extra
    case None => base
    case Some(e) =>
      FilterConfig(
        base.includeRegex + e.includeRegex,
        base.excludeRegex + e.excludeRegex,
        base.includePrefixes + e.includePrefixes,
        base.excludePrefixes + e.excludePrefixes,
        base.includeSymbols + e.includeSymbols,
        base.excludeSymbols + e.excludeSymbols,
        base.includeNameRegex + e.includeNameRegex,
        base.excludeNameRegex + e.excludeNameRegex,
        base.includeExchanges + e.includeExchanges,
        base.excludeExchanges + e.excludeExchanges,
        base.includeMarketCategories + e.includeMarketCategories,
        base.excludeMarketCategories + e.excludeMarketCategories,
        Override(base.onlyEtf, e.onlyEtf),
        Override(base.onlyFund, e.onlyFund),
        base.includeFundCategories + e.includeFundCategories,
        base.excludeFundCategories + e.excludeFundCategories)
  }

  /** Merging in the empty filter set changes nothing, on either side. */
  lemma MergeNoFilters(f: FilterConfig)
    ensures MergeFilters(f, Some(NoFilters)) == f
    ensures MergeFilters(NoFilters, Some(f)) == f
  {
    var r := MergeFilters(f, Some(NoFilters));
    assert r.includeRegex == f.includeRegex + [];
  }

  /** Merging twice in a row is merging the merged extras once. */
  lemma MergeAssociative(a: FilterConfig, b: FilterConfig, c: FilterConfig)
    ensures MergeFilters(MergeFilters(a, Some(b)), Some(c)) == MergeFilters(a, Some(MergeFilters(b, Some(c))))
  {
    var l := MergeFilters(MergeFilters(a, Some(b)), Some(c));
    var r := MergeFilters(a, Some(MergeFilters(b, Some(c))));
    assert l.includeRegex == r.includeRegex;
  }

  /** A parsed configuration document. */
  datatype Doc = Scalar(text: string) | Table(entries: map<string, Doc>)

  /** The value `_deep_merge` gives one key present in `override`: a merge
      of both sides when both are tables, else the override. */
  function MergedEntry(base: map<string, Doc>, key: string, value: Doc): (r: Doc)
    decreases value, 1
  {
    if value.Table? && key in base && base[key].Table? then
      Table(DeepMerged(base[key].entries, value.entries))
    else value
  }

  /** What `_deep_merge(base, override)` returns. */
  function DeepMerged(base: map<string, Doc>, override: map<string, Doc>): (r: map<string, Doc>)
    decreases Table(override), 0
  {
    map k | k in base.Keys + override.Keys ::
      if k in override then MergedEntry(base, k, override[k]) else base[k]
  }

  /** `_deep_merge`: the result starts as a copy of `base` (a value, so the
      caller's `base` is never touched) and each override entry is stored in
      turn. The keys are those of both sides; override values win, except
      that two tables under the same key are merged recursively. */
  method DeepMerge(base: map<string, Doc>, override: map<string, Doc>) returns (result: map<string, Doc>)
    ensures result.Keys == base.Keys + override.Keys
    ensures forall k :: k in base && k !in override ==> result[k] == base[k]
    ensures forall k :: k in override && !(override[k].Table? && k in base && base[k].Table?) ==>
      result[k] == override[k]
    ensures forall k :: k in override && override[k].Table? && k in base && base[k].Table? ==>
      result[k] == Table(DeepMerged(base[k].entries, override[k].entries))
    ensures result == DeepMerged(base, override)
    decreases Table(override)
  {
    result := base;
    var todo := override.Keys;
    while todo != {}
      invariant todo <= override.Keys
      invariant result.Keys == base.Keys + (override.Keys - todo)
      invariant forall k :: k in result && k !in override.Keys - todo ==> result[k] == base[k]
      invariant forall k :: k in override.Keys - todo ==> result[k] == MergedEntry(base, k, override[k])
      decreases todo
    {
      var key :| key in todo;
      var value := override[key];
      if value.Table? && key in result && result[key].Table? {
        assert result[key] == base[key];
        var inner := DeepMerge(result[key].entries, value.entries);
        result := result[key := Table(inner)];
      } else {
        result := result[key := value];
      }
      todo := todo - {key};
    }
  }

  /** Merging an empty override gives the base back. */
  lemma DeepMergeNothing(base: map<string, Doc>)
    ensures DeepMerged(base, map[]) == base
  {
  }

  /** Merging into an empty base gives the override back. */
  lemma DeepMergeIntoNothing(override: map<string, Doc>)
    ensures DeepMerged(map[], override) == override
  {
  }

  /** Merging a document with itself gives it back, at every depth. */
  lemma {:induction false} DeepMergeSelf(m: map<string, Doc>)
    ensures DeepMerged(m, m) == m
    decreases Table(m)
  {
    forall k | k in m ensures DeepMerged(m, m)[k] == m[k] {
      if m[k].Table? {
        DeepMergeSelf(m[k].entries);
      }
    }
  }
}
