/** `sources/router.py`: the data source that forwards each call to the
    source registered for an asset type.

    A source is known here by its name only; what it answers is outside this
    model, so the forwarding calls return the source they forward to. */
module Router {
  import opened Wrappers

  /** A data source, by name. */
  datatype DataSource = DataSource(name: string)

  /** What `_select` raises when nothing is registered and there is no
      default; `None` prints as "None". */
  function NoSourceError(assetType: Option<string>): Exc {
    ValueError("no source for asset_type=" + (if assetType.Some? then assetType.value else "None"))
  }

  class SourceRouter {
    const defaultSource: Option<DataSource>
    const sourceByAsset: map<string, DataSource>
    var currentAssetType: Option<string>

    /** `__init__`: no asset type chosen yet. */
    constructor (defaultSource: Option<DataSource>, sourceByAsset: map<string, DataSource>)
      ensures this.defaultSource == defaultSource && this.sourceByAsset == sourceByAsset
      ensures currentAssetType == None
    {
      this.defaultSource := defaultSource;
      this.sourceByAsset := sourceByAsset;
      currentAssetType := None;
    }

    /** `set_asset_type`: later `fetch_ohlcv` calls go by this asset type. */
    method SetAssetType(assetType: string)
      modifies this
      ensures currentAssetType == Some(assetType)
    {
      currentAssetType := Some(assetType);
    }

    /** `_select`: the source registered for a non-empty asset type, else the
        default one, else a ValueError. */
    function Select(assetType: Option<string>): (r: Result<DataSource>)
      ensures r.Ok? <==> (assetType.Some? && assetType.value != "" && assetType.value in sourceByAsset)
                          || defaultSource.Some?
      ensures r.Ok? ==> r.value in sourceByAsset.Values || Some(r.value) == defaultSource
      ensures r.Err? ==> r.error == NoSourceError(assetType)
    {
      if assetType.Some? && assetType.value != "" && assetType.value in sourceByAsset then
        Ok(sourceByAsset[assetType.value])
      else if defaultSource.None? then
        Err(NoSourceError(assetType))
      else
        Ok(defaultSource.value)
    }

    /** `list_symbols`: forwarded by the asset type it is given, whatever
        `set_asset_type` chose. */
    method ListSymbols(assetType: string) returns (r: Result<DataSource>)
      ensures r == Select(Some(assetType))
    {
      r := Select(Some(assetType));
    }

    /** `fetch_ohlcv`: forwarded by the asset type last set. */
    method FetchOhlcv(symbol: string, interval: string) returns (r: Result<DataSource>)
      ensures r == Select(currentAssetType)
    {
      r := Select(currentAssetType);
    }
  }

  /** A registered asset type always reaches its own source. */
  lemma SelectRegistered(router: SourceRouter, assetType: string)
    requires assetType != "" && assetType in router.sourceByAsset
    ensures router.Select(Some(assetType)) == Ok(router.sourceByAsset[assetType])
  {
  }

  /** An unregistered asset type, no asset type, and the empty asset type
      (even when it is registered) all fall back to the default source. */
  lemma SelectFallsBack(router: SourceRouter, assetType: Option<string>)
    requires assetType.None? || assetType.value == "" || assetType.value !in router.sourceByAsset
    ensures router.defaultSource.Some? ==> router.Select(assetType) == Ok(router.defaultSource.value)
    ensures router.defaultSource.None? ==> router.Select(assetType) == Err(NoSourceError(assetType))
  {
  }

  /** A fresh router sends `fetch_ohlcv` to the default source; after
      `set_asset_type(a)` it sends it where `list_symbols(a)` goes. */
  method RoutingScenario(defaultSource: DataSource, sourceByAsset: map<string, DataSource>, a: string)
    returns (before: Result<DataSource>, after: Result<DataSource>, listed: Result<DataSource>)
    ensures before == Ok(defaultSource)
    ensures after == listed
    ensures a != "" && a in sourceByAsset ==> after == Ok(sourceByAsset[a])
  {
    var router := new SourceRouter(Some(defaultSource), sourceByAsset);
    before := router.FetchOhlcv("AAPL", "1d");
    router.SetAssetType(a);
    after := router.FetchOhlcv("AAPL", "1d");
    listed := router.ListSymbols(a);
  }
}
