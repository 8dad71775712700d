/** `pipeline/catalog.py`: the symbol catalog. A-share codes and names are
    classified, exchange/market/fund-category spellings are normalised,
    catalog entries are filtered, and `get_catalog` chooses between the
    cached catalog and a fresh download.

    The regular-expression engine is a parameter (`RegexEngine`): whether
    a pattern compiles and whether it is found in a text. Provider
    downloads are the outcomes of the fetch attempts, also parameters. */
module Catalog {
  import opened Wrappers
  import opened Text
  import opened Seqs
  import opened FsUtils
  import opened Config
  import opened RateLimiting

  /** `SymbolInfo` of `sources/base.py`. */
  datatype SymbolInfo = SymbolInfo(
    symbol: string,
    name: Option<string>,
    exchange: Option<string>,
    assetType: string,
    marketCategory: Option<string>,
    isEtf: Option<bool>,
    isFund: Option<bool>,
    fundCategory: Option<string>)

  datatype CatalogResult = CatalogResult(items: seq<SymbolInfo>, source: string)

  // ---------------------------------------------------------------------
  // Alias tables

  const ExchangeAliasToCode: map<string, string> := map[
    "上交所" := "SSE", "上海证券交易所" := "SSE",
    "深交所" := "SZSE", "深圳证券交易所" := "SZSE",
    "北交所" := "BSE", "北京证券交易所" := "BSE",
    "纳斯达克" := "NASDAQ", "纽交所" := "NYSE"]

  const MarketAliasToCode: map<string, string> := map[
    "主板" := "MAIN", "科创板" := "STAR", "创业板" := "CHINEXT", "北交所" := "BSE",
    "b股" := "B", "b股市场" := "B",
    "纳斯达克全球精选" := "Q", "全球精选" := "Q",
    "纳斯达克全球市场" := "G", "全球市场" := "G",
    "纳斯达克资本市场" := "S", "资本市场" := "S"]

  const MarketCodeToAlias: map<string, string> := map[
    "MAIN" := "主板", "STAR" := "科创板", "CHINEXT" := "创业板", "BSE" := "北交所",
    "B" := "B股", "Q" := "纳斯达克全球精选", "G" := "纳斯达克全球市场", "S" := "纳斯达克资本市场"]

  const ExchangeCodeToAlias: map<string, string> := map[
    "SSE" := "上交所", "SZSE" := "深交所", "BSE" := "北交所", "NASDAQ" := "纳斯达克", "NYSE" := "纽交所"]

  const FundCategoryAliasToCode: map<string, string> := map[
    "ETF" := "ETF", "etf" := "ETF", "LOF" := "LOF", "lof" := "LOF",
    "REIT" := "REIT", "REITS" := "REIT", "reits" := "REIT",
    "QDII" := "QDII", "qdii" := "QDII",
    "货币" := "MONEY", "货币基金" := "MONEY",
    "债券" := "BOND", "债券基金" := "BOND",
    "联接" := "ETF_LINK", "联结" := "ETF_LINK", "ETF联接" := "ETF_LINK", "ETF联结" := "ETF_LINK",
    "分级" := "GRADED", "基金" := "FUND"]

  const FundCategoryCodeToAlias: map<string, string> := map[
    "ETF" := "ETF", "LOF" := "LOF", "REIT" := "REITs", "QDII" := "QDII",
    "MONEY" := "货币基金", "BOND" := "债券基金", "ETF_LINK" := "ETF联接",
    "GRADED" := "分级基金", "FUND" := "基金"]

  /** The fund categories `classify_ashare_security` can produce. */
  const FundCategories: set<string> := {"ETF", "LOF", "REIT", "QDII", "MONEY", "BOND", "ETF_LINK", "GRADED", "FUND"}

  // ---------------------------------------------------------------------
  // A-share classification

  /** The exchange and board a lowercased code's prefix names: "sh." is
      the Shanghai exchange (688 STAR board, 900 B shares, else main
      board), "sz." Shenzhen (300 ChiNext, 200 B shares, else main), "bj."
      Beijing; any other code has neither. */
  function CodeBoard(c: string): (Option<string>, Option<string>) {
    if StartsWith(c, "sh.") then
      (Some("SSE"), Some(if StartsWith(c[3..], "688") then "STAR" else if StartsWith(c[3..], "900") then "B" else "MAIN"))
    else if StartsWith(c, "sz.") then
      (Some("SZSE"), Some(if StartsWith(c[3..], "300") then "CHINEXT" else if StartsWith(c[3..], "200") then "B" else "MAIN"))
    else if StartsWith(c, "bj.") then (Some("BSE"), Some("BSE"))
    else (None, None)
  }

  /** The prefix/number split of `classify_ashare_code` on an already
      stripped, lowercased code. */
  function ClassifySplit(c: string): (r: (Option<string>, Option<string>))
    ensures r == CodeBoard(c)
  {
    var parts := if '.' in c then SplitFirst(c, '.') else ("", c);
    var prefix, num := parts.0, parts.1;
    SplitMatchesBoard(c, prefix, num);
    if prefix == "sh" then
      (Some("SSE"), Some(if StartsWith(num, "688") then "STAR" else if StartsWith(num, "900") then "B" else "MAIN"))
    else if prefix == "sz" then
      (Some("SZSE"), Some(if StartsWith(num, "300") then "CHINEXT" else if StartsWith(num, "200") then "B" else "MAIN"))
    else if prefix == "bj" then
      (Some("BSE"), Some("BSE"))
    else (None, None)
  }

  lemma SplitMatchesBoard(c: string, prefix: string, num: string)
    requires (prefix, num) == if '.' in c then SplitFirst(c, '.') else ("", c)
    ensures prefix == "sh" <==> StartsWith(c, "sh.")
    ensures prefix == "sz" <==> StartsWith(c, "sz.")
    ensures prefix == "bj" <==> StartsWith(c, "bj.")
    ensures |prefix| == 2 ==> num == c[3..]
  {
    PrefixIs(c, prefix, num, "sh");
    PrefixIs(c, prefix, num, "sz");
    PrefixIs(c, prefix, num, "bj");
    assert "sh" + "." == "sh." && "sz" + "." == "sz." && "bj" + "." == "bj.";
  }

  lemma PrefixIs(c: string, prefix: string, num: string, p: string)
    requires (prefix, num) == if '.' in c then SplitFirst(c, '.') else ("", c)
    requires |p| == 2 && '.' !in p
    ensures prefix == p <==> StartsWith(c, p + ".")
    ensures |prefix| == 2 ==> num == c[3..]
  {
    SplitFirstPrefix(c, '.', p);
    if |prefix| == 2 {
      assert c == prefix + ['.'] + num;
    }
  }

  /** `classify_ashare_code`: the exchange and market board of a Baostock
      code such as "sh.600000", read from its stripped, lowercased form. */
  function ClassifyAshareCode(code: string): (r: (Option<string>, Option<string>))
    ensures r == CodeBoard(Lower(Strip(code)))
  {
    ClassifySplit(Lower(Strip(code)))
  }

  /** Classification ignores case and surrounding whitespace. */
  lemma ClassifyAshareCodeCaseInsensitive(code: string)
    ensures ClassifyAshareCode(Upper(code)) == ClassifyAshareCode(code)
    ensures ClassifyAshareCode(Lower(code)) == ClassifyAshareCode(code)
    ensures ClassifyAshareCode(Strip(code)) == ClassifyAshareCode(code)
  {
    StripCase(code);
    LowerOfCase(Strip(code));
    LowerIdempotent(Strip(code));
    StripIdempotent(code);
  }

  /** `x or default` on an optional category. */
  function OrCategory(c: Option<string>, default: string): (r: Option<string>)
    ensures r.Some? && (c.Some? ==> r == c)
  {
    if c.Some? then c else Some(default)
  }

  /** `s.startswith(prefixes)` for a tuple of prefixes. */
  predicate StartsWithAny(s: string, prefixes: seq<string>) {
    exists i :: 0 <= i < |prefixes| && StartsWith(s, prefixes[i])
  }

  /** `any(key in s for key in keys)`. */
  predicate ContainsAny(s: string, keys: seq<string>) {
    exists i :: 0 <= i < |keys| && Contains(s, keys[i])
  }

  const ReitCodePrefixes: seq<string> := ["sh.508", "sz.180"]
  const LofCodePrefixes: seq<string> := ["sz.16", "sh.501", "sh.502", "sh.506"]
  const EtfCodePrefixes: seq<string> := ["sh.50", "sh.51", "sh.56", "sh.58", "sh.510", "sh.588", "sz.15", "sz.159", "sz.18"]
  const FundNameKeys: seq<string> := ["基金", "LOF", "联接", "分级", "REIT", "REITs"]

  /** The category the security type column gives ("etf"/"6" or
      "fund"/"基金"/"5"), and the stock/index flags. */
  function TypeCategory(typeStr: string): (c: Option<string>)
    ensures c.Some? ==> c.value in FundCategories
  {
    if typeStr in {"etf", "6"} then Some("ETF")
    else if typeStr in {"fund", "基金", "5"} then Some("FUND")
    else None
  }

  function TypeFlags(typeStr: string): (b: Option<bool>)
    ensures b != Some(true)
  {
    if typeStr in {"stock", "1", "index", "2", "industry", "3"} then Some(false) else None
  }

  /** The category after the name rules, starting from `c0`. */
  function NameCategory(nameValue: string, c0: Option<string>): (r: Option<string>)
    ensures r.Some? ==> r.value in FundCategories || r == c0
  {
    var nameUpper := Upper(nameValue);
    var c1 := if Contains(nameUpper, "REIT") then Some("REIT") else c0;
    var c2 := if Contains(nameUpper, "LOF") then Some("LOF") else c1;
    var c3 := if Contains(nameUpper, "ETF") && Contains(nameValue, "联接") then Some("ETF_LINK") else c2;
    var c4 := if Contains(nameUpper, "ETF") && c3.None? then Some("ETF") else c3;
    var c5 := if Contains(nameUpper, "QDII") && c4.None? then Some("QDII") else c4;
    var c6 := if Contains(nameValue, "货币") && c5.None? then Some("MONEY") else c5;
    var c7 := if (Contains(nameValue, "债券") || Contains(nameValue, "债")) && c6.None? then Some("BOND") else c6;
    if ContainsAny(nameValue, FundNameKeys) && c7.None? then Some("FUND") else c7
  }

  /** The category after the code-prefix fallbacks, starting from `c`. */
  function CodeCategory(codeLower: string, c: Option<string>): (r: Option<string>)
    ensures c.Some? ==> r == c
    ensures r.Some? ==> r.value in FundCategories || r == c
  {
    var c1 := if StartsWithAny(codeLower, ReitCodePrefixes) then OrCategory(c, "REIT") else c;
    var c2 := if StartsWithAny(codeLower, LofCodePrefixes) then OrCategory(c1, "LOF") else c1;
    if StartsWithAny(codeLower, EtfCodePrefixes) then OrCategory(c2, "ETF") else c2
  }

  /** `classify_ashare_security`: (is_etf, is_fund, fund_category) of an
      A-share security from its type column, its name and its code. A
      found category always makes the security a fund, and an ETF exactly
      when the category is "ETF"; without a category both flags are unset,
      or both false for a stock or index type. */
  function ClassifyAshareSecurity(code: string, name: Option<string>, typeValue: Option<string>)
    : (r: (Option<bool>, Option<bool>, Option<string>))
    ensures r.2.Some? ==> r.2.value in FundCategories && r.1 == Some(true) && r.0 == Some(r.2.value == "ETF")
    ensures r.2.None? ==> r.0 == r.1 && r.0 != Some(true)
  {
    var typeStr := Lower(Strip(typeValue.GetOr("")));
    SecurityFlags(SecurityCategory(code, name, typeStr), TypeFlags(typeStr))
  }

  /** The fund category found from the type column, the name and the code. */
  function SecurityCategory(code: string, name: Option<string>, typeStr: string): (c: Option<string>)
    ensures c.Some? ==> c.value in FundCategories
  {
    var c0 := TypeCategory(typeStr);
    var c1 := NameCategory(name.GetOr(""), c0);
    CodeCategory(Lower(Strip(code)), c1)
  }

  /** The result triple for a category and the stock/index flags. */
  function SecurityFlags(c: Option<string>, flags: Option<bool>): (r: (Option<bool>, Option<bool>, Option<string>))
    requires flags != Some(true)
    ensures r.2 == c
    ensures c.Some? ==> r.1 == Some(true) && r.0 == Some(c.value == "ETF")
    ensures c.None? ==> r.0 == r.1 == flags
  {
    if c.Some? then (Some(c.value == "ETF"), Some(true), c) else (flags, flags, None)
  }

  /** A name holding both "ETF" (in any case) and "联接" makes an ETF feeder
      fund: a fund, and not an ETF itself. */
  lemma EtfLinkName(code: string, name: string, typeValue: Option<string>)
    requires Contains(Upper(name), "ETF") && Contains(name, "联接")
    ensures ClassifyAshareSecurity(code, Some(name), typeValue) == (Some(false), Some(true), Some("ETF_LINK"))
  {
    NameEtfLink(name, TypeCategory(Lower(Strip(typeValue.GetOr("")))));
  }

  lemma NameEtfLink(name: string, c0: Option<string>)
    requires Contains(Upper(name), "ETF") && Contains(name, "联接")
    ensures NameCategory(name, c0) == Some("ETF_LINK")
  {
  }

  /** A code under "sh.51" with no name and no type is an ETF (the code
      "sh.510300" of the "沪深300ETF" fund, say). */
  lemma EtfByCode(code: string)
    requires StartsWith(Lower(Strip(code)), "sh.51")
    ensures ClassifyAshareSecurity(code, None, None) == (Some(true), Some(true), Some("ETF"))
  {
    NoTypeNoName();
    EtfCodeCategory(Lower(Strip(code)));
  }

  lemma NoTypeNoName()
    ensures TypeCategory(Lower(Strip(""))) == None && TypeFlags(Lower(Strip(""))) == None
    ensures NameCategory("", None) == None
  {
    EmptyFacts();
    assert !ContainsAny("", FundNameKeys);
  }

  lemma EtfCodeCategory(c: string)
    requires StartsWith(c, "sh.51")
    ensures CodeCategory(c, None) == Some("ETF")
  {
    assert !StartsWithAny(c, ReitCodePrefixes) by {
      assert c[4] == '1';
    }
    assert !StartsWithAny(c, LofCodePrefixes) by {
      assert c[..3] == "sh." && c[4] == '1';
      assert !StartsWith(c, "sz.16");
    }
    assert StartsWith(c, EtfCodePrefixes[1]);
  }

  // ---------------------------------------------------------------------
  // Normalising spellings

  /** Exchange codes the alias table produces. */
  const ExchangeCodes: set<string> := {"SSE", "SZSE", "BSE", "NASDAQ", "NYSE"}

  /** `normalize_exchange_value`: "" for a blank value, the code of a
      known alias, else the stripped value in upper case. */
  function NormalizeExchange(value: string): (r: string)
    ensures AllSpace(value) ==> r == ""
    ensures !AllSpace(value) && Strip(value) in ExchangeAliasToCode ==> r == ExchangeAliasToCode[Strip(value)]
    ensures !AllSpace(value) && Strip(value) !in ExchangeAliasToCode ==> r == Upper(Strip(value))
  {
    StripEmptyIff(value);
    var raw := Strip(value);
    if raw == "" then "" else if raw in ExchangeAliasToCode then ExchangeAliasToCode[raw] else Upper(raw)
  }

  /** `normalize_market_value`: as for exchanges, but the alias is looked
      up in lower case. */
  function NormalizeMarket(value: string): (r: string)
    ensures AllSpace(value) ==> r == ""
    ensures !AllSpace(value) && Lower(Strip(value)) in MarketAliasToCode ==> r == MarketAliasToCode[Lower(Strip(value))]
    ensures !AllSpace(value) && Lower(Strip(value)) !in MarketAliasToCode ==> r == Upper(Strip(value))
  {
    StripEmptyIff(value);
    var raw := Strip(value);
    if raw == "" then "" else if Lower(raw) in MarketAliasToCode then MarketAliasToCode[Lower(raw)] else Upper(raw)
  }

  /** `normalize_fund_category`: the code of the value as written or, failing
      that, of its upper case; otherwise the upper case itself. */
  function NormalizeFundCategory(value: string): (r: string)
    ensures AllSpace(value) ==> r == ""
    ensures !AllSpace(value) && Strip(value) in FundCategoryAliasToCode ==> r == FundCategoryAliasToCode[Strip(value)]
    ensures !AllSpace(value) && Strip(value) !in FundCategoryAliasToCode ==>
      r == (if Upper(Strip(value)) in FundCategoryAliasToCode then FundCategoryAliasToCode[Upper(Strip(value))] else Upper(Strip(value)))
  {
    StripEmptyIff(value);
    var raw := Strip(value);
    if raw == "" then ""
    else if raw in FundCategoryAliasToCode then FundCategoryAliasToCode[raw]
    else
      var key := Upper(raw);
      if key in FundCategoryAliasToCode then FundCategoryAliasToCode[key] else key
  }

  /** Characters outside ASCII, as every Chinese alias is made of. */
  predicate Wide(s: string) {
    forall k :: 0 <= k < |s| ==> s[k] > '\U{7F}'
  }

  predicate HasWide(s: string) {
    exists k :: 0 <= k < |s| && s[k] > '\U{7F}'
  }

  /** Capital ASCII letters and characters outside ASCII only. */
  predicate NoLowerAscii(s: string) {
    forall k :: 0 <= k < |s| ==> !('a' <= s[k] <= 'z')
  }

  /** Codes such as "SSE" are made of capitals, digits and "_". */
  predicate CodeChars(s: string) {
    s != [] && forall k :: 0 <= k < |s| ==> 'A' <= s[k] <= 'Z' || '0' <= s[k] <= '9' || s[k] == '_'
  }

  lemma UpperOfNoLower(s: string)
    requires NoLowerAscii(s)
    ensures Upper(s) == s
  {
  }

  /** A code is stripped already, is its own upper case and is not blank. */
  lemma CodeStable(s: string)
    requires CodeChars(s)
    ensures Strip(s) == s && Upper(s) == s && !AllSpace(s)
  {
    PrintableNotSpace(s[0]);
    PrintableNotSpace(s[|s| - 1]);
    StripUnchanged(s);
    UpperOfNoLower(s);
    assert !SpaceAt(s, 0);
  }

  /** Besides, neither a code nor its lower case holds a character outside ASCII. */
  lemma CodeCharsFacts(s: string)
    requires CodeChars(s)
    ensures Strip(s) == s && Upper(s) == s && !HasWide(Lower(s)) && !HasWide(s) && !AllSpace(s)
  {
    CodeStable(s);
  }

  lemma ExchangeKeysWide()
    ensures forall k :: k in ExchangeAliasToCode ==> Wide(k)
  {
    forall k | k in ExchangeAliasToCode ensures Wide(k) {
    }
  }

  lemma MarketKeysHaveWide()
    ensures forall k :: k in MarketAliasToCode ==> HasWide(k)
  {
    forall k | k in MarketAliasToCode ensures HasWide(k) {
      assert k[|k| - 1] > '\U{7F}';
    }
  }

  /** The codes in `codes` are normalised to themselves. */
  lemma ExchangeCodesFixed(code: string)
    requires code in ExchangeCodes
    ensures NormalizeExchange(code) == code
  {
    assert CodeChars(code);
    CodeCharsFacts(code);
    ExchangeKeysWide();
  }

  /** Normalising an exchange twice is normalising it once. */
  lemma NormalizeExchangeIdempotent(value: string)
    ensures NormalizeExchange(NormalizeExchange(value)) == NormalizeExchange(value)
  {
    var raw := Strip(value);
    StripIdempotent(value);
    StripEmptyIff(value);
    if raw != "" {
      if raw in ExchangeAliasToCode {
        var code := ExchangeAliasToCode[raw];
        assert code in ExchangeCodes;
        ExchangeCodesFixed(code);
      } else {
        ExchangeUpperStable(raw);
      }
    }
  }

  /** An upper-cased value that is not an alias does not become one. */
  lemma ExchangeUpperStable(raw: string)
    requires raw == Strip(raw) && raw != "" && raw !in ExchangeAliasToCode
    ensures NormalizeExchange(Upper(raw)) == Upper(raw)
  {
    var u := Upper(raw);
    UpperStripStable(raw);
    StripEmptyIff(u);
    if u in ExchangeAliasToCode {
      ExchangeKeysWide();
      UpperOnlyOfItself(raw, u);
    }
  }

  const MarketCodes: set<string> := {"MAIN", "STAR", "CHINEXT", "BSE", "B", "Q", "G", "S"}

  lemma MarketCodesFixed(code: string)
    requires code in MarketCodes
    ensures NormalizeMarket(code) == code
  {
    assert CodeChars(code);
    CodeCharsFacts(code);
    MarketKeysHaveWide();
  }

  /** Normalising a market category twice is normalising it once. */
  lemma NormalizeMarketIdempotent(value: string)
    ensures NormalizeMarket(NormalizeMarket(value)) == NormalizeMarket(value)
  {
    var raw := Strip(value);
    StripIdempotent(value);
    StripEmptyIff(value);
    if raw != "" {
      if Lower(raw) in MarketAliasToCode {
        var code := MarketAliasToCode[Lower(raw)];
        assert code in MarketCodes;
        MarketCodesFixed(code);
      } else {
        var u := Upper(raw);
        UpperStripStable(raw);
        StripEmptyIff(u);
        LowerOfCase(raw);
      }
    }
  }

  /** A fund category is a code that is either no key of the alias table
      or the key of itself. */
  lemma FundCategoryKey(code: string)
    requires code in FundCategories
    ensures CodeChars(code)
    ensures code in FundCategoryAliasToCode ==> FundCategoryAliasToCode[code] == code
  {
    if code == "ETF" || code == "LOF" || code == "REIT" || code == "QDII" {
      FundSelfKeys();
    } else {
      FundNonKeys();
    }
  }

  lemma FundSelfKeys()
    ensures FundCategoryAliasToCode["ETF"] == "ETF" && FundCategoryAliasToCode["LOF"] == "LOF"
    ensures FundCategoryAliasToCode["REIT"] == "REIT" && FundCategoryAliasToCode["QDII"] == "QDII"
  {
  }

  lemma FundNonKeys()
    ensures "MONEY" !in FundCategoryAliasToCode && "BOND" !in FundCategoryAliasToCode
    ensures "ETF_LINK" !in FundCategoryAliasToCode && "GRADED" !in FundCategoryAliasToCode
    ensures "FUND" !in FundCategoryAliasToCode
  {
  }

  lemma FundCategoriesFixed(code: string)
    requires code in FundCategories
    ensures NormalizeFundCategory(code) == code
  {
    FundCategoryKey(code);
    FundCodeFixed(code);
  }

  /** A code that is no alias, or an alias of itself, normalises to itself. */
  lemma FundCodeFixed(code: string)
    requires CodeChars(code)
    requires code in FundCategoryAliasToCode ==> FundCategoryAliasToCode[code] == code
    ensures NormalizeFundCategory(code) == code
  {
    CodeStable(code);
    var r := NormalizeFundCategory(code);
    if code in FundCategoryAliasToCode {
      assert r == FundCategoryAliasToCode[code];
    } else {
      assert Upper(code) !in FundCategoryAliasToCode;
      assert r == Upper(code);
    }
  }

  /** Normalising a fund category twice is normalising it once. */
  lemma NormalizeFundCategoryIdempotent(value: string)
    ensures NormalizeFundCategory(NormalizeFundCategory(value)) == NormalizeFundCategory(value)
  {
    var raw := Strip(value);
    StripIdempotent(value);
    StripEmptyIff(value);
    if raw != "" {
      if raw in FundCategoryAliasToCode {
        FundCategoriesFixed(FundCategoryAliasToCode[raw]);
      } else {
        var u := Upper(raw);
        UpperStripStable(raw);
        StripEmptyIff(u);
        if u in FundCategoryAliasToCode {
          FundCategoriesFixed(FundCategoryAliasToCode[u]);
        }
      }
    }
  }

  /** A stripped, upper-cased value is left as it is by stripping and
      upper-casing again. */
  lemma UpperStripStable(raw: string)
    requires raw == Strip(raw)
    ensures Strip(Upper(raw)) == Upper(raw) && Upper(Upper(raw)) == Upper(raw)
  {
    StripCase(raw);
    UpperIdempotent(raw);
  }

  /** `market_alias`, `exchange_alias`, `fund_category_alias`: nothing for
      a missing or empty value, else the display name of its upper case in
      the code table, when it has one. */
  function AliasOf(table: map<string, string>, value: Option<string>): (r: Option<string>)
    ensures r.Some? <==> value.Some? && value.value != "" && Upper(value.value) in table
    ensures r.Some? ==> r.value == table[Upper(value.value)]
  {
    if value.None? || value.value == "" then None
    else if Upper(value.value) in table then Some(table[Upper(value.value)])
    else None
  }

  function MarketAlias(value: Option<string>): Option<string> { AliasOf(MarketCodeToAlias, value) }
  function ExchangeAlias(value: Option<string>): Option<string> { AliasOf(ExchangeCodeToAlias, value) }
  function FundCategoryAlias(value: Option<string>): Option<string> { AliasOf(FundCategoryCodeToAlias, value) }

  /** A display name or alias with no whitespace at either end. */
  predicate Trimmed(s: string) {
    s != [] && !IsSpace(s[0]) && !IsSpace(s[|s| - 1])
  }

  /** A trimmed value is its own strip and is not blank. */
  lemma TrimmedFacts(s: string)
    requires Trimmed(s)
    ensures Strip(s) == s && !AllSpace(s)
  {
    StripUnchanged(s);
    assert !SpaceAt(s, 0);
  }

  lemma LowerOfWide(s: string)
    requires Wide(s)
    ensures Lower(s) == s && Upper(s) == s
  {
  }

  lemma ExchangeTables()
    ensures forall c :: c in ExchangeCodeToAlias ==>
      Trimmed(ExchangeCodeToAlias[c]) && ExchangeCodeToAlias[c] in ExchangeAliasToCode
      && ExchangeAliasToCode[ExchangeCodeToAlias[c]] == c
  {
  }

  /** Every market display name other than "B股" is made of wide
      characters and is an alias of its own code. */
  lemma MarketAliasBack(c: string)
    requires c in MarketCodeToAlias && c != "B"
    ensures var a := MarketCodeToAlias[c];
      Trimmed(a) && Wide(a) && a in MarketAliasToCode && MarketAliasToCode[a] == c
  {
    MarketAliasWide(c);
    MarketAliasKey(c);
  }

  lemma MarketAliasWide(c: string)
    requires c in MarketCodeToAlias && c != "B"
    ensures Trimmed(MarketCodeToAlias[c]) && Wide(MarketCodeToAlias[c])
  {
    var a := MarketCodeToAlias[c];
    assert a in {"主板", "科创板", "创业板", "北交所", "纳斯达克全球精选", "纳斯达克全球市场", "纳斯达克资本市场"};
  }

  lemma MarketAliasKey(c: string)
    requires c in MarketCodeToAlias && c != "B"
    ensures MarketCodeToAlias[c] in MarketAliasToCode && MarketAliasToCode[MarketCodeToAlias[c]] == c
  {
    var a := MarketCodeToAlias[c];
    if c == "MAIN" { assert a == "主板"; }
    else if c == "STAR" { assert a == "科创板"; }
    else if c == "CHINEXT" { assert a == "创业板"; }
    else if c == "BSE" { assert a == "北交所"; }
    else if c == "Q" { assert a == "纳斯达克全球精选"; }
    else if c == "G" { assert a == "纳斯达克全球市场"; }
    else { assert c == "S" && a == "纳斯达克资本市场"; }
  }

  /** Every fund display name is trimmed; all but "REITs" and "分级基金"
      are aliases of their own code. */
  lemma FundAliasBack(c: string)
    requires c in FundCategoryCodeToAlias
    ensures var a := FundCategoryCodeToAlias[c];
      Trimmed(a) && (c != "REIT" && c != "GRADED" ==> a in FundCategoryAliasToCode && FundCategoryAliasToCode[a] == c)
  {
    FundAliasTrimmed(c);
    if c != "REIT" && c != "GRADED" {
      FundAliasKey(c);
    }
  }

  lemma FundAliasTrimmed(c: string)
    requires c in FundCategoryCodeToAlias
    ensures Trimmed(FundCategoryCodeToAlias[c])
  {
    var a := FundCategoryCodeToAlias[c];
    assert a in {"ETF", "LOF", "REITs", "QDII", "货币基金", "债券基金", "ETF联接", "分级基金", "基金"};
  }

  lemma FundAliasKey(c: string)
    requires c in FundCategoryCodeToAlias && c != "REIT" && c != "GRADED"
    ensures FundCategoryCodeToAlias[c] in FundCategoryAliasToCode
    ensures FundCategoryAliasToCode[FundCategoryCodeToAlias[c]] == c
  {
    var a := FundCategoryCodeToAlias[c];
    if c == "ETF" { assert a == "ETF"; }
    else if c == "LOF" { assert a == "LOF"; }
    else if c == "QDII" { assert a == "QDII"; }
    else if c == "MONEY" { assert a == "货币基金"; }
    else if c == "BOND" { assert a == "债券基金"; }
    else if c == "ETF_LINK" { assert a == "ETF联接"; }
    else { assert c == "FUND" && a == "基金"; }
  }

  lemma LowerOfBShares()
    ensures Lower("B股") == "b股"
  {
    var l := Lower("B股");
    assert l[0] == 'b';
    assert l[1] == '股';
  }

  lemma UpperOfReits()
    ensures Upper("REITs") == "REITS"
  {
    var u := Upper("REITs");
    assert u[4] == 'S';
  }

  lemma FundKeys()
    ensures "REITs" !in FundCategoryAliasToCode && "REITS" in FundCategoryAliasToCode
    ensures FundCategoryAliasToCode["REITS"] == "REIT"
    ensures "分级基金" !in FundCategoryAliasToCode
  {
  }

  lemma ReitsNormal()
    ensures NormalizeFundCategory("REITs") == "REIT"
  {
    FundKeys();
    UpperOfReits();
    TrimmedFacts("REITs");
  }

  lemma GradedUpper()
    ensures Upper("分级基金") == "分级基金"
  {
    assert Wide("分级基金");
    LowerOfWide("分级基金");
  }

  lemma GradedNormal()
    ensures NormalizeFundCategory("分级基金") == "分级基金"
  {
    FundKeys();
    GradedUpper();
    TrimmedFacts("分级基金");
  }

  /** The display name of an exchange code normalises back to the code. */
  lemma ExchangeAliasRoundTrip(code: string)
    requires code in ExchangeCodeToAlias
    ensures ExchangeAlias(Some(code)) == Some(ExchangeCodeToAlias[code])
    ensures NormalizeExchange(ExchangeCodeToAlias[code]) == code
  {
    assert CodeChars(code);
    CodeCharsFacts(code);
    ExchangeTables();
    TrimmedFacts(ExchangeCodeToAlias[code]);
  }

  /** The display name of a market code normalises back to the code. */
  lemma MarketAliasRoundTrip(code: string)
    requires code in MarketCodeToAlias
    ensures MarketAlias(Some(code)) == Some(MarketCodeToAlias[code])
    ensures NormalizeMarket(MarketCodeToAlias[code]) == code
  {
    MarketAliasOfCode(code);
    if code == "B" {
      assert MarketCodeToAlias[code] == "B股";
      MarketAliasOfB();
    } else {
      MarketAliasOfWide(code);
    }
  }

  lemma MarketAliasOfCode(code: string)
    requires code in MarketCodeToAlias
    ensures MarketAlias(Some(code)) == Some(MarketCodeToAlias[code])
  {
    assert CodeChars(code);
    UpperOfNoLower(code);
  }

  lemma MarketAliasOfB()
    ensures NormalizeMarket("B股") == "B"
  {
    var v := "B股";
    TrimmedFacts(v);
    LowerOfBShares();
    BSharesAlias();
    assert Lower(Strip(v)) == "b股";
  }

  lemma BSharesAlias()
    ensures "b股" in MarketAliasToCode && MarketAliasToCode["b股"] == "B"
  {
  }

  lemma MarketAliasOfWide(code: string)
    requires code in MarketCodeToAlias && code != "B"
    ensures NormalizeMarket(MarketCodeToAlias[code]) == code
  {
    var a := MarketCodeToAlias[code];
    MarketAliasBack(code);
    TrimmedFacts(a);
    LowerOfWide(a);
  }

  /** The display name of a fund category normalises back to the category,
      except for "GRADED", whose display name "分级基金" is not an alias. */
  lemma FundCategoryAliasRoundTrip(code: string)
    requires code in FundCategoryCodeToAlias
    ensures FundCategoryAlias(Some(code)) == Some(FundCategoryCodeToAlias[code])
    ensures NormalizeFundCategory(FundCategoryCodeToAlias[code]) == code <==> code != "GRADED"
  {
    FundAliasOfCode(code);
    var a := FundCategoryCodeToAlias[code];
    if code == "REIT" {
      assert a == "REITs";
      ReitsNormal();
    } else if code == "GRADED" {
      assert a == "分级基金";
      GradedNormal();
      assert a[0] != 'G';
    } else {
      FundAliasBack(code);
      TrimmedFacts(a);
    }
  }

  lemma FundAliasOfCode(code: string)
    requires code in FundCategoryCodeToAlias
    ensures FundCategoryAlias(Some(code)) == Some(FundCategoryCodeToAlias[code])
  {
    assert CodeChars(code);
    UpperOfNoLower(code);
  }

  // ---------------------------------------------------------------------
  // Filtering

  /** The regular-expression engine: whether a pattern compiles (with
      IGNORECASE) and whether a compiled pattern is found in a text. */
  datatype RegexEngine = RegexEngine(compiles: string -> bool, search: (string, string) -> bool)

  /** The filter configuration with its lists prepared once, as
      `_apply_filters` does before looking at any item. */
  datatype Prepared = Prepared(
    includeRegex: seq<string>, excludeRegex: seq<string>,
    includeNameRegex: seq<string>, excludeNameRegex: seq<string>,
    includePrefixes: seq<string>, excludePrefixes: seq<string>,
    includeSymbols: set<string>, excludeSymbols: set<string>,
    includeExchanges: set<string>, excludeExchanges: set<string>,
    includeMarkets: set<string>, excludeMarkets: set<string>,
    includeFunds: set<string>, excludeFunds: set<string>,
    onlyEtf: Option<bool>, onlyFund: Option<bool>)

  /** `[p.upper() for p in prefixes if p]`. */
  function UpperPrefixes(prefixes: seq<string>): (r: seq<string>)
    ensures |r| <= |prefixes|
    ensures forall p :: p in r <==> exists q :: q in prefixes && q != "" && p == Upper(q)
  {
    var kept := Filter(prefixes, (q: string) => q != "");
    forall q ensures q in kept <==> q in prefixes && q != "" {
      FilterMembers(prefixes, (q: string) => q != "", q);
    }
    var r := seq(|kept|, i requires 0 <= i < |kept| => Upper(kept[i]));
    forall p ensures p in r <==> exists q :: q in prefixes && q != "" && p == Upper(q) {
      if p in r {
        var i :| 0 <= i < |r| && r[i] == p;
        assert kept[i] in kept;
      }
      if exists q :: q in prefixes && q != "" && p == Upper(q) {
        var q :| q in prefixes && q != "" && p == Upper(q);
        var i :| 0 <= i < |kept| && kept[i] == q;
        assert r[i] == p;
      }
    }
    r
  }

  /** `{norm(s) for s in values if s}`. */
  function NormSet(values: seq<string>, norm: string -> string): (r: set<string>)
    ensures forall v :: v in values && v != "" ==> norm(v) in r
    ensures forall x :: x in r ==> exists v :: v in values && v != "" && x == norm(v)
  {
    set v | v in values && v != "" :: norm(v)
  }

  function Prepare(f: FilterConfig, re: RegexEngine): Prepared {
    Prepared(
      Filter(f.includeRegex, re.compiles), Filter(f.excludeRegex, re.compiles),
      Filter(f.includeNameRegex, re.compiles), Filter(f.excludeNameRegex, re.compiles),
      UpperPrefixes(f.includePrefixes), UpperPrefixes(f.excludePrefixes),
      NormSet(f.includeSymbols, Upper), NormSet(f.excludeSymbols, Upper),
      NormSet(f.includeExchanges, NormalizeExchange), NormSet(f.excludeExchanges, NormalizeExchange),
      NormSet(f.includeMarketCategories, NormalizeMarket), NormSet(f.excludeMarketCategories, NormalizeMarket),
      NormSet(f.includeFundCategories, NormalizeFundCategory), NormSet(f.excludeFundCategories, NormalizeFundCategory),
      f.onlyEtf, f.onlyFund)
  }

  /** An include set lets a value through when it is empty or holds the
      normalised value or its display name. */
  predicate Included(allowed: set<string>, value: string, alias: Option<string>) {
    allowed == {} || value in allowed || (alias.Some? && alias.value in allowed)
  }

  /** An exclude set drops a value whose normalised form or display name
      it holds. */
  predicate Excluded(denied: set<string>, value: string, alias: Option<string>) {
    value in denied || (alias.Some? && alias.value in denied)
  }

  predicate SymbolListsOk(p: Prepared, item: SymbolInfo) {
    var up := Upper(item.symbol);
    (p.includeSymbols == {} || up in p.includeSymbols) && up !in p.excludeSymbols
  }

  predicate CategoriesOk(p: Prepared, item: SymbolInfo) {
    var exchange := NormalizeExchange(item.exchange.GetOr(""));
    var market := NormalizeMarket(item.marketCategory.GetOr(""));
    var fund := NormalizeFundCategory(item.fundCategory.GetOr(""));
    && Included(p.includeExchanges, exchange, ExchangeAlias(item.exchange))
    && !Excluded(p.excludeExchanges, exchange, ExchangeAlias(item.exchange))
    && Included(p.includeMarkets, market, MarketAlias(item.marketCategory))
    && !Excluded(p.excludeMarkets, market, MarketAlias(item.marketCategory))
    && Included(p.includeFunds, fund, FundCategoryAlias(item.fundCategory))
    && !Excluded(p.excludeFunds, fund, FundCategoryAlias(item.fundCategory))
  }

  /** `any(r.search(text) for r in patterns)`. */
  predicate AnySearch(re: RegexEngine, patterns: seq<string>, text: string) {
    exists i :: 0 <= i < |patterns| && re.search(patterns[i], text)
  }

  predicate PatternsOk(p: Prepared, re: RegexEngine, item: SymbolInfo) {
    var up := Upper(item.symbol);
    var name := item.name.GetOr("");
    && (p.includePrefixes == [] || StartsWithAny(up, p.includePrefixes))
    && !(p.excludePrefixes != [] && StartsWithAny(up, p.excludePrefixes))
    && (p.includeRegex == [] || AnySearch(re, p.includeRegex, item.symbol))
    && !(p.excludeRegex != [] && AnySearch(re, p.excludeRegex, item.symbol))
    && (p.includeNameRegex == [] || AnySearch(re, p.includeNameRegex, name))
    && !(p.excludeNameRegex != [] && AnySearch(re, p.excludeNameRegex, name))
  }

  /** Python truthiness of an optional flag. */
  predicate Truthy(b: Option<bool>) { b == Some(true) }

  predicate FlagsOk(onlyEtf: Option<bool>, onlyFund: Option<bool>, item: SymbolInfo) {
    && (if onlyEtf == Some(true) && onlyFund == Some(true) then Truthy(item.isEtf) || Truthy(item.isFund)
        else (onlyEtf == Some(true) ==> Truthy(item.isEtf)) && (onlyFund == Some(true) ==> Truthy(item.isFund)))
    && !(onlyEtf == Some(false) && Truthy(item.isEtf))
    && !(onlyFund == Some(false) && Truthy(item.isFund))
  }

  /** `match` inside `_apply_filters`: every check passes. */
  predicate Matches(p: Prepared, re: RegexEngine, item: SymbolInfo) {
    SymbolListsOk(p, item) && CategoriesOk(p, item) && PatternsOk(p, re, item) && FlagsOk(p.onlyEtf, p.onlyFund, item)
  }

  /** Whether `_apply_filters` keeps an item under filter set `f`. */
  predicate Keeps(f: FilterConfig, re: RegexEngine, item: SymbolInfo) {
    Matches(Prepare(f, re), re, item)
  }

  function KeepsFn(f: FilterConfig, re: RegexEngine): SymbolInfo -> bool {
    (item: SymbolInfo) => Keeps(f, re, item)
  }

  function Max0(n: int): nat { if n < 0 then 0 else n }

  /** What `_apply_filters` returns: the kept items in their order, cut to
      `max(0, limit)` when a limit is given. */
  function Filtered(items: seq<SymbolInfo>, limit: Option<int>, f: FilterConfig, re: RegexEngine): (r: seq<SymbolInfo>)
    ensures SubseqOf(r, items)
    ensures limit.Some? ==> |r| <= Max0(limit.value)
    ensures forall i :: 0 <= i < |r| ==> Keeps(f, re, r[i])
    ensures limit.None? ==> forall x :: x in items ==> (x in r <==> Keeps(f, re, x))
  {
    var kept := Filter(items, KeepsFn(f, re));
    FilterSubseq(items, KeepsFn(f, re));
    forall x | x in items ensures x in kept <==> Keeps(f, re, x) {
      FilterMembers(items, KeepsFn(f, re), x);
    }
    if limit.None? then kept
    else
      var n := if Max0(limit.value) < |kept| then Max0(limit.value) else |kept|;
      SubseqPrefix(kept, items, n);
      kept[..n]
  }

  /** With a limit, the result is the first `max(0, limit)` items of the
      unlimited result, or all of them when there are fewer. */
  lemma FilteredLimit(items: seq<SymbolInfo>, n: int, f: FilterConfig, re: RegexEngine)
    ensures var all := Filtered(items, None, f, re);
      var r := Filtered(items, Some(n), f, re);
      |r| == (if Max0(n) < |all| then Max0(n) else |all|) && r == all[..|r|]
  {
  }

  /** A symbol listed for exclusion, in any case, is dropped, whatever the
      include list says. */
  lemma ExcludedSymbolDropped(f: FilterConfig, re: RegexEngine, item: SymbolInfo, s: string)
    requires s in f.excludeSymbols && s != "" && Upper(s) == Upper(item.symbol)
    ensures !Keeps(f, re, item)
  {
    assert Upper(s) in Prepare(f, re).excludeSymbols;
  }

  /** With a non-empty include list, a kept item's symbol is on it up to case. */
  lemma IncludedSymbolRequired(f: FilterConfig, re: RegexEngine, item: SymbolInfo)
    requires exists s :: s in f.includeSymbols && s != ""
    requires Keeps(f, re, item)
    ensures exists s :: s in f.includeSymbols && s != "" && Upper(s) == Upper(item.symbol)
  {
    var p := Prepare(f, re);
    var s :| s in f.includeSymbols && s != "";
    assert Upper(s) in p.includeSymbols;
    assert Upper(item.symbol) in p.includeSymbols;
  }

  /** The ETF/fund switches: False drops what carries the flag; both True
      keeps ETFs and funds; one True requires that flag. */
  lemma FlagRules(f: FilterConfig, re: RegexEngine, item: SymbolInfo)
    ensures f.onlyEtf == Some(false) && item.isEtf == Some(true) ==> !Keeps(f, re, item)
    ensures f.onlyFund == Some(false) && item.isFund == Some(true) ==> !Keeps(f, re, item)
    ensures f.onlyEtf == Some(true) && f.onlyFund == Some(true) && Keeps(f, re, item) ==>
      item.isEtf == Some(true) || item.isFund == Some(true)
    ensures f.onlyEtf == Some(true) && f.onlyFund != Some(true) && Keeps(f, re, item) ==> item.isEtf == Some(true)
    ensures f.onlyFund == Some(true) && f.onlyEtf != Some(true) && Keeps(f, re, item) ==> item.isFund == Some(true)
  {
    var p := Prepare(f, re);
    assert p.onlyEtf == f.onlyEtf && p.onlyFund == f.onlyFund;
  }

  /** `_compile_patterns`: the patterns that compile, in order; the others
      are skipped. */
  method CompilePatterns(patterns: seq<string>, re: RegexEngine) returns (compiled: seq<string>)
    ensures compiled == Filter(patterns, re.compiles)
  {
    compiled := [];
    var i := 0;
    while i < |patterns|
      invariant 0 <= i <= |patterns|
      invariant compiled == Filter(patterns[..i], re.compiles)
    {
      FilterSnoc(patterns[..i], patterns[i], re.compiles);
      assert patterns[..i + 1] == patterns[..i] + [patterns[i]];
      if re.compiles(patterns[i]) {
        compiled := compiled + [patterns[i]];
      }
      i := i + 1;
    }
    assert patterns[..i] == patterns;
  }

  /** `_apply_filters`. */
  method ApplyFilters(items: seq<SymbolInfo>, limit: Option<int>, f: FilterConfig, re: RegexEngine)
    returns (r: seq<SymbolInfo>)
    ensures r == Filtered(items, limit, f, re)
  {
    var includeRegex := CompilePatterns(f.includeRegex, re);
    var excludeRegex := CompilePatterns(f.excludeRegex, re);
    var includeNameRegex := CompilePatterns(f.includeNameRegex, re);
    var excludeNameRegex := CompilePatterns(f.excludeNameRegex, re);
    var p := Prepared(
      includeRegex, excludeRegex, includeNameRegex, excludeNameRegex,
      UpperPrefixes(f.includePrefixes), UpperPrefixes(f.excludePrefixes),
      NormSet(f.includeSymbols, Upper), NormSet(f.excludeSymbols, Upper),
      NormSet(f.includeExchanges, NormalizeExchange), NormSet(f.excludeExchanges, NormalizeExchange),
      NormSet(f.includeMarketCategories, NormalizeMarket), NormSet(f.excludeMarketCategories, NormalizeMarket),
      NormSet(f.includeFundCategories, NormalizeFundCategory), NormSet(f.excludeFundCategories, NormalizeFundCategory),
      f.onlyEtf, f.onlyFund);
    var filtered := Filter(items, (item: SymbolInfo) => Matches(p, re, item));
    FilterAgree(items, (item: SymbolInfo) => Matches(p, re, item), KeepsFn(f, re));
    if limit.None? {
      r := filtered;
    } else {
      var n := Max0(limit.value);
      r := if n < |filtered| then filtered[..n] else filtered;
    }
  }

  // ---------------------------------------------------------------------
  // The stock catalog's de-duplication

  function Symbols(items: seq<SymbolInfo>): set<string> {
    set i | 0 <= i < |items| :: items[i].symbol
  }

  lemma SymbolsSnoc(items: seq<SymbolInfo>, x: SymbolInfo)
    ensures Symbols(items + [x]) == Symbols(items) + {x.symbol}
  {
    var both := items + [x];
    forall s | s in Symbols(items) ensures s in Symbols(both) {
      var i :| 0 <= i < |items| && items[i].symbol == s;
      assert both[i] == items[i];
    }
    assert both[|items|] == x;
  }

  /** The first item carrying a symbol, searching from the front. */
  function FirstWith(items: seq<SymbolInfo>, symbol: string): Option<SymbolInfo> {
    if items == [] then None
    else if items[0].symbol == symbol then Some(items[0])
    else FirstWith(items[1..], symbol)
  }

  lemma {:induction false} FirstWithSnoc(items: seq<SymbolInfo>, x: SymbolInfo, symbol: string)
    ensures FirstWith(items + [x], symbol) ==
      if FirstWith(items, symbol).Some? then FirstWith(items, symbol)
      else if x.symbol == symbol then Some(x) else None
  {
    if items != [] {
      assert (items + [x])[1..] == items[1..] + [x];
      FirstWithSnoc(items[1..], x, symbol);
    }
  }

  lemma {:induction false} FirstWithAbsent(items: seq<SymbolInfo>, symbol: string)
    requires symbol !in Symbols(items)
    ensures FirstWith(items, symbol) == None
  {
    if items != [] {
      assert items[0].symbol in Symbols(items);
      forall s | s in Symbols(items[1..]) ensures s in Symbols(items) {
        var i :| 0 <= i < |items[1..]| && items[1..][i].symbol == s;
        assert items[i + 1].symbol == s;
      }
      FirstWithAbsent(items[1..], symbol);
    }
  }

  /** The values of the `deduped` dictionary of `_fetch_stock_catalog`, in
      insertion order: the first item of each symbol, in input order. */
  function FirstBySymbol(items: seq<SymbolInfo>): seq<SymbolInfo>
    decreases |items|
  {
    if items == [] then []
    else
      var r := FirstBySymbol(items[..|items| - 1]);
      var x := items[|items| - 1];
      if x.symbol !in Symbols(r) then r + [x] else r
  }

  /** The de-duplicated items are some of the items, in order, and carry
      every symbol of them. */
  lemma {:induction false} FirstBySymbolKeeps(items: seq<SymbolInfo>)
    ensures SubseqOf(FirstBySymbol(items), items)
    ensures Symbols(FirstBySymbol(items)) == Symbols(items)
    decreases |items|
  {
    if items != [] {
      var prev := items[..|items| - 1];
      var x := items[|items| - 1];
      assert items == prev + [x];
      var r := FirstBySymbol(prev);
      FirstBySymbolKeeps(prev);
      var keep := x.symbol !in Symbols(r);
      SubseqAppendOne(r, prev, x, keep);
      SymbolsSnoc(prev, x);
      if keep {
        SymbolsSnoc(r, x);
      }
    }
  }

  predicate DistinctSymbols(r: seq<SymbolInfo>) {
    forall i, j :: 0 <= i < j < |r| ==> r[i].symbol != r[j].symbol
  }

  /** Each item of `r` is the first of `items` with its symbol. */
  predicate FirstsOf(items: seq<SymbolInfo>, r: seq<SymbolInfo>) {
    forall i :: 0 <= i < |r| ==> FirstWith(items, r[i].symbol) == Some(r[i])
  }

  /** No symbol is kept twice. */
  lemma {:induction false} FirstBySymbolDistinct(items: seq<SymbolInfo>)
    ensures DistinctSymbols(FirstBySymbol(items))
    decreases |items|
  {
    if items != [] {
      var prev := items[..|items| - 1];
      var x := items[|items| - 1];
      var r := FirstBySymbol(prev);
      FirstBySymbolDistinct(prev);
      if x.symbol !in Symbols(r) {
        var r' := r + [x];
        forall i, j | 0 <= i < j < |r'| ensures r'[i].symbol != r'[j].symbol {
          assert r'[i] == r[i];
          if j == |r| {
            assert r[i].symbol in Symbols(r);
          } else {
            assert r'[j] == r[j];
          }
        }
        assert FirstBySymbol(items) == r';
      } else {
        assert FirstBySymbol(items) == r;
      }
    }
  }

  /** What is kept for a symbol is its first item. */
  lemma {:induction false} FirstBySymbolFirst(items: seq<SymbolInfo>)
    ensures FirstsOf(items, FirstBySymbol(items))
    decreases |items|
  {
    if items != [] {
      var prev := items[..|items| - 1];
      var x := items[|items| - 1];
      assert items == prev + [x];
      var r := FirstBySymbol(prev);
      FirstBySymbolFirst(prev);
      forall i | 0 <= i < |r| ensures FirstWith(items, r[i].symbol) == Some(r[i]) {
        FirstWithSnoc(prev, x, r[i].symbol);
      }
      if x.symbol !in Symbols(r) {
        FirstBySymbolKeeps(prev);
        FirstWithAbsent(prev, x.symbol);
        FirstWithSnoc(prev, x, x.symbol);
        var r' := r + [x];
        forall i | 0 <= i < |r'| ensures FirstWith(items, r'[i].symbol) == Some(r'[i]) {
          if i < |r| {
            assert r'[i] == r[i];
          }
        }
        assert FirstBySymbol(items) == r';
      } else {
        assert FirstBySymbol(items) == r;
      }
    }
  }

  /** The de-duplication loop of `_fetch_stock_catalog`. The dictionary is
      kept as its values in insertion order beside the set of its keys. */
  method DedupBySymbol(items: seq<SymbolInfo>) returns (r: seq<SymbolInfo>)
    ensures r == FirstBySymbol(items)
  {
    var seen: set<string> := {};
    r := [];
    for i := 0 to |items|
      invariant r == FirstBySymbol(items[..i])
      invariant seen == Symbols(r)
    {
      assert items[..i + 1][..i] == items[..i];
      SymbolsSnoc(r, items[i]);
      if items[i].symbol !in seen {
        r := r + [items[i]];
        seen := seen + {items[i].symbol};
      }
    }
    assert items[..|items|] == items;
  }

  // ---------------------------------------------------------------------
  // The static catalogs

  /** The preset (symbol, name) pairs of `_static_catalog`. */
  function PresetPairs(assetType: string): seq<(string, string)> {
    if assetType == "crypto" then
      [("BTC-USD", "Bitcoin"), ("ETH-USD", "Ethereum"), ("SOL-USD", "Solana"), ("BNB-USD", "BNB")]
    else if assetType == "forex" then
      [("EURUSD=X", "EUR/USD"), ("USDJPY=X", "USD/JPY"), ("GBPUSD=X", "GBP/USD"), ("AUDUSD=X", "AUD/USD")]
    else if assetType == "commodity" then
      [("GC=F", "Gold"), ("CL=F", "Crude Oil"), ("SI=F", "Silver"), ("HG=F", "Copper")]
    else []
  }

  function PresetItem(assetType: string, pair: (string, string)): SymbolInfo {
    SymbolInfo(pair.0, Some(pair.1), None, assetType, None, None, None, None)
  }

  function StaticItems(assetType: string): seq<SymbolInfo> {
    var pairs := PresetPairs(assetType);
    seq(|pairs|, i requires 0 <= i < |pairs| => PresetItem(assetType, pairs[i]))
  }

  /** `_static_catalog`. */
  method StaticCatalog(assetType: string) returns (items: seq<SymbolInfo>)
    ensures items == StaticItems(assetType)
  {
    var pairs := PresetPairs(assetType);
    items := [];
    for i := 0 to |pairs|
      invariant items == seq(i, k requires 0 <= k < i => PresetItem(assetType, pairs[k]))
    {
      items := items + [PresetItem(assetType, pairs[i])];
    }
  }

  /** Crypto, forex and commodity have four presets each, every other
      asset type none; each preset carries the asset type and a name, and
      no two share a symbol. */
  lemma StaticCatalogShape(assetType: string)
    ensures |StaticItems(assetType)| == if assetType in {"crypto", "forex", "commodity"} then 4 else 0
    ensures forall x :: x in StaticItems(assetType) ==>
      x.assetType == assetType && x.name.Some? && x.exchange.None? && x.isEtf.None? && x.isFund.None?
    ensures forall i, j :: 0 <= i < j < |StaticItems(assetType)| ==>
      StaticItems(assetType)[i].symbol != StaticItems(assetType)[j].symbol
  {
    var pairs := PresetPairs(assetType);
    assert forall i, j :: 0 <= i < j < |pairs| ==> pairs[i].0 != pairs[j].0;
  }

  // ---------------------------------------------------------------------
  // Fetching with retries

  /** What fetch attempt `j` gives: `outcomes[j]` is what that attempt's
      download and parsing produced for "stock" or "ashare" (None when it
      raised, as does every attempt past the end); the stock catalog is
      then de-duplicated, and every other asset type reads its presets,
      which cannot fail. */
  function Attempt(assetType: string, outcomes: seq<Option<seq<SymbolInfo>>>, j: nat): Option<seq<SymbolInfo>> {
    if assetType == "stock" then
      if j < |outcomes| && outcomes[j].Some? then Some(FirstBySymbol(outcomes[j].value)) else None
    else if assetType == "ashare" then
      if j < |outcomes| then outcomes[j] else None
    else Some(StaticItems(assetType))
  }

  /** The result of the first successful attempt among `from .. n - 1`. */
  function FirstSuccess(assetType: string, outcomes: seq<Option<seq<SymbolInfo>>>, from: nat, n: nat): Option<seq<SymbolInfo>>
    decreases n - from
  {
    if from >= n then None
    else if Attempt(assetType, outcomes, from).Some? then Attempt(assetType, outcomes, from)
    else FirstSuccess(assetType, outcomes, from + 1, n)
  }

  /** One attempt of `_fetch_with_retry`'s loop body. */
  method RunAttempt(assetType: string, outcomes: seq<Option<seq<SymbolInfo>>>, j: nat) returns (outcome: Option<seq<SymbolInfo>>)
    ensures outcome == Attempt(assetType, outcomes, j)
  {
    if assetType == "stock" {
      if j < |outcomes| && outcomes[j].Some? {
        var deduped := DedupBySymbol(outcomes[j].value);
        outcome := Some(deduped);
      } else {
        outcome := None;
      }
    } else if assetType == "ashare" {
      outcome := if j < |outcomes| then outcomes[j] else None;
    } else {
      var items := StaticCatalog(assetType);
      outcome := Some(items);
    }
  }

  /** `range(retries + 1)`: no attempt at all for a negative count. */
  function AttemptCount(config: CatalogConfig): nat { Max0(config.retries + 1) }

  /** The delay slept after failed attempt `k`: `sleep_sec`, multiplied by
      the backoff once per earlier failure. */
  function RetryDelay(config: CatalogConfig, k: nat): real {
    if k == 0 then config.sleepSec else RetryDelay(config, k - 1) * config.retryBackoff
  }

  /** `_fetch_with_retry`: the attempts run in turn until one succeeds;
      after each failure the current delay is slept and multiplied by the
      backoff. The result is None exactly when every attempt failed. */
  method FetchWithRetry(config: CatalogConfig, assetType: string, outcomes: seq<Option<seq<SymbolInfo>>>)
    returns (fetched: Option<seq<SymbolInfo>>, sleeps: seq<real>)
    ensures fetched == FirstSuccess(assetType, outcomes, 0, AttemptCount(config))
    ensures fetched.None? <==> forall j :: 0 <= j < AttemptCount(config) ==> Attempt(assetType, outcomes, j).None?
    ensures fetched.Some? ==> |sleeps| < AttemptCount(config) && fetched == Attempt(assetType, outcomes, |sleeps|)
    ensures fetched.None? ==> |sleeps| == AttemptCount(config)
    ensures forall j :: 0 <= j < |sleeps| ==> Attempt(assetType, outcomes, j).None?
    ensures forall j :: 0 <= j < |sleeps| ==> sleeps[j] == RetryDelay(config, j)
  {
    var n := AttemptCount(config);
    var delay := config.sleepSec;
    sleeps := [];
    var attempt: nat := 0;
    while attempt < n
      invariant attempt <= n && |sleeps| == attempt
      invariant delay == RetryDelay(config, attempt)
      invariant forall j :: 0 <= j < attempt ==> Attempt(assetType, outcomes, j).None?
      invariant forall j :: 0 <= j < attempt ==> sleeps[j] == RetryDelay(config, j)
      invariant FirstSuccess(assetType, outcomes, 0, n) == FirstSuccess(assetType, outcomes, attempt, n)
    {
      var outcome := RunAttempt(assetType, outcomes, attempt);
      if outcome.Some? {
        fetched := outcome;
        return;
      }
      sleeps := sleeps + [delay];
      delay := delay * config.retryBackoff;
      attempt := attempt + 1;
    }
    fetched := None;
  }

  /** The delay after failed attempt `j` is `sleep_sec * backoff ** j`. */
  lemma {:induction false} RetryDelayClosedForm(config: CatalogConfig, j: nat)
    ensures RetryDelay(config, j) == config.sleepSec * Power(config.retryBackoff, j)
  {
    if j > 0 {
      RetryDelayClosedForm(config, j - 1);
      var p := Power(config.retryBackoff, j - 1);
      calc {
        RetryDelay(config, j);
        RetryDelay(config, j - 1) * config.retryBackoff;
        config.sleepSec * p * config.retryBackoff;
        config.sleepSec * (config.retryBackoff * p);
      }
    }
  }

  /** With a non-negative first delay and a backoff of at least one, later
      retries never sleep less. */
  lemma RetryDelaysGrow(config: CatalogConfig, j: nat, k: nat)
    requires config.sleepSec >= 0.0 && config.retryBackoff >= 1.0 && j <= k
    ensures 0.0 <= RetryDelay(config, j) <= RetryDelay(config, k)
  {
    RetryDelayClosedForm(config, j);
    RetryDelayClosedForm(config, k);
    PowerMonotone(config.retryBackoff, j, k);
    PowerAtLeastOne(config.retryBackoff, j);
    var s, a, b := config.sleepSec, Power(config.retryBackoff, j), Power(config.retryBackoff, k);
    NonNegativeProduct(s, a);
    NonNegativeProduct(s, b - a);
    assert s * b == s * a + s * (b - a);
  }

  lemma NonNegativeProduct(x: real, y: real)
    requires x >= 0.0 && y >= 0.0
    ensures x * y >= 0.0
  {
  }

  /** The preset catalogs never fail, so the first attempt returns them. */
  lemma StaticFetchFirstAttempt(config: CatalogConfig, assetType: string, outcomes: seq<Option<seq<SymbolInfo>>>)
    requires assetType != "stock" && assetType != "ashare" && config.retries >= 0
    ensures FirstSuccess(assetType, outcomes, 0, AttemptCount(config)) == Some(StaticItems(assetType))
  {
  }

  // ---------------------------------------------------------------------
  // The catalog cache file

  /** The header of `<asset_type>_symbols.csv`. */
  const CacheFields: seq<string> :=
    ["symbol", "name", "exchange", "asset_type", "market_category", "is_etf", "is_fund", "fund_category"]

  /** A tri-state flag in the cache: "Y", "N" or empty for unknown. */
  function EncodeFlag(b: Option<bool>): string {
    match b
    case None => ""
    case Some(true) => "Y"
    case Some(false) => "N"
  }

  /** Reading a flag back: "Y" or "N" in any case and with any surrounding
      whitespace; anything else is unknown. */
  function DecodeFlag(v: string): Option<bool> {
    var u := Upper(Strip(v));
    if u == "Y" then Some(true) else if u == "N" then Some(false) else None
  }

  lemma FlagRoundTrip(b: Option<bool>)
    ensures DecodeFlag(EncodeFlag(b)) == b
  {
    match b
    case None =>
      DecodeBlank();
      assert EncodeFlag(b) == "";
    case Some(true) =>
      DecodeLetter('Y');
      assert EncodeFlag(b) == "Y";
    case Some(false) =>
      DecodeLetter('N');
      assert EncodeFlag(b) == "N";
  }

  lemma DecodeBlank() ensures DecodeFlag("") == None { EmptyFacts(); }

  /** One capital letter reads as true for "Y", false for "N", else unknown. */
  lemma DecodeLetter(c: char)
    requires 'A' <= c <= 'Z'
    ensures DecodeFlag([c]) == if c == 'Y' then Some(true) else if c == 'N' then Some(false) else None
  {
    UpperStripLetter(c);
    var u := Upper(Strip([c]));
    assert u == "Y" <==> c == 'Y' by {
      if u == "Y" { assert u[0] == 'Y'; }
    }
    assert u == "N" <==> c == 'N' by {
      if u == "N" { assert u[0] == 'N'; }
    }
  }

  /** A capital letter on its own is kept by `strip().upper()`. */
  lemma UpperStripLetter(c: char)
    requires 'A' <= c <= 'Z'
    ensures Upper(Strip([c])) == [c]
  {
    PrintableNotSpace(c);
    StripUnchanged([c]);
    assert Upper([c])[0] == UpperChar(c);
  }

  /** Exactly the stripped values "Y"/"y" read as true and "N"/"n" as false. */
  lemma DecodeFlagSpec(v: string)
    ensures DecodeFlag(v) == Some(true) <==> Strip(v) == "Y" || Strip(v) == "y"
    ensures DecodeFlag(v) == Some(false) <==> Strip(v) == "N" || Strip(v) == "n"
  {
    var t := Strip(v);
    var u := Upper(t);
    if |t| == 1 {
      assert u == [UpperChar(t[0])];
      if t[0] == 'y' { assert t == "y"; }
      if t[0] == 'Y' { assert t == "Y"; }
      if t[0] == 'n' { assert t == "n"; }
      if t[0] == 'N' { assert t == "N"; }
    } else {
      assert |u| != 1;
    }
  }

  /** The row `_write_cache` writes for one item. */
  function CacheRow(item: SymbolInfo): map<string, string> {
    map[
      "symbol" := item.symbol,
      "name" := item.name.GetOr(""),
      "exchange" := item.exchange.GetOr(""),
      "asset_type" := item.assetType,
      "market_category" := item.marketCategory.GetOr(""),
      "is_etf" := EncodeFlag(item.isEtf),
      "is_fund" := EncodeFlag(item.isFund),
      "fund_category" := item.fundCategory.GetOr("")]
  }

  /** `row.get(key) or ""`. */
  function Field(row: map<string, string>, key: string): string {
    if key in row then row[key] else ""
  }

  /** `value or None`. */
  function OrNone(s: string): (r: Option<string>)
    ensures r != Some("") && r.GetOr("") == s
  {
    if s == "" then None else Some(s)
  }

  /** The item `_load_cache` makes of one row, or None when the row's
      stripped symbol is empty and the row is skipped. */
  function CachedItem(row: map<string, string>): Option<SymbolInfo> {
    var symbol := Strip(Field(row, "symbol"));
    if symbol == "" then None
    else
      var assetType := Field(row, "asset_type");
      Some(SymbolInfo(
        symbol,
        OrNone(Field(row, "name")),
        OrNone(Field(row, "exchange")),
        if assetType == "" then "stock" else assetType,
        OrNone(Field(row, "market_category")),
        DecodeFlag(Field(row, "is_etf")),
        DecodeFlag(Field(row, "is_fund")),
        OrNone(Field(row, "fund_category"))))
  }

  /** The items that survive a trip through the cache unchanged: a symbol
      without surrounding whitespace, an asset type, and no optional text
      that is present but empty. */
  predicate Cacheable(item: SymbolInfo) {
    && Trimmed(item.symbol)
    && item.assetType != ""
    && item.name != Some("") && item.exchange != Some("")
    && item.marketCategory != Some("") && item.fundCategory != Some("")
  }

  /** Every item read from the cache is cacheable. */
  lemma CachedItemCacheable(row: map<string, string>)
    ensures CachedItem(row).Some? ==> Cacheable(CachedItem(row).value)
  {
    var symbol := Strip(Field(row, "symbol"));
    if symbol != "" {
      var x := CachedItem(row).value;
      assert x.symbol == symbol;
    }
  }

  lemma CacheRowFields(item: SymbolInfo)
    ensures var row := CacheRow(item);
      && Field(row, "symbol") == item.symbol
      && Field(row, "name") == item.name.GetOr("")
      && Field(row, "exchange") == item.exchange.GetOr("")
      && Field(row, "asset_type") == item.assetType
      && Field(row, "market_category") == item.marketCategory.GetOr("")
      && Field(row, "is_etf") == EncodeFlag(item.isEtf)
      && Field(row, "is_fund") == EncodeFlag(item.isFund)
      && Field(row, "fund_category") == item.fundCategory.GetOr("")
  {
  }

  /** A cacheable item's row reads back as the item. */
  lemma RowRoundTrip(item: SymbolInfo)
    requires Cacheable(item)
    ensures CachedItem(CacheRow(item)) == Some(item)
  {
    var row := CacheRow(item);
    CacheRowFields(item);
    TrimmedFacts(item.symbol);
    FlagRoundTrip(item.isEtf);
    FlagRoundTrip(item.isFund);
    OrNoneOf(item.name);
    OrNoneOf(item.exchange);
    OrNoneOf(item.marketCategory);
    OrNoneOf(item.fundCategory);
    CachedItemOf(row, item);
  }

  lemma OrNoneOf(v: Option<string>)
    requires v != Some("")
    ensures OrNone(v.GetOr("")) == v
  {
  }

  /** A row whose fields decode to those of `x` is read as `x`. */
  lemma CachedItemOf(row: map<string, string>, x: SymbolInfo)
    requires Strip(Field(row, "symbol")) == x.symbol && x.symbol != ""
    requires OrNone(Field(row, "name")) == x.name && OrNone(Field(row, "exchange")) == x.exchange
    requires Field(row, "asset_type") == x.assetType && x.assetType != ""
    requires OrNone(Field(row, "market_category")) == x.marketCategory
    requires DecodeFlag(Field(row, "is_etf")) == x.isEtf && DecodeFlag(Field(row, "is_fund")) == x.isFund
    requires OrNone(Field(row, "fund_category")) == x.fundCategory
    ensures CachedItem(row) == Some(x)
  {
  }

  /** The items `_load_cache` reads from the rows of the cache file. */
  function DecodeRecords(records: seq<map<string, string>>): (r: seq<SymbolInfo>)
    ensures |r| <= |records|
    ensures forall i :: 0 <= i < |r| ==> Cacheable(r[i])
  {
    forall row ensures CachedItem(row).Some? ==> Cacheable(CachedItem(row).value) {
      CachedItemCacheable(row);
    }
    FilterMapAll(records, CachedItem, Cacheable);
    FilterMap(records, CachedItem)
  }

  /** The rows `_write_cache` writes. */
  function EncodeRows(items: seq<SymbolInfo>): (rows: seq<map<string, string>>)
    ensures |rows| == |items|
  {
    MapSeq(items, CacheRow)
  }

  /** Cacheable items written to the cache are read back as they were. */
  lemma CacheRoundTrip(items: seq<SymbolInfo>)
    requires forall i :: 0 <= i < |items| ==> Cacheable(items[i])
    ensures DecodeRecords(EncodeRows(items)) == items
  {
    forall i | 0 <= i < |items| ensures CachedItem(CacheRow(items[i])) == Some(items[i]) {
      RowRoundTrip(items[i]);
    }
    FilterMapUndoes(items, CacheRow, CachedItem);
  }

  /** What a cache file holds: the decoded rows of a CSV file; any other
      file reads as no rows. */
  function CacheContents(d: FileData): seq<SymbolInfo> {
    match d
    case Csv(_, records) => DecodeRecords(records)
    case _ => []
  }

  /** What `_load_cache` returns for the files present: None when there is
      no cache file. */
  function CachedAt(files: map<Path, FileData>, p: Path): (r: Option<seq<SymbolInfo>>)
    ensures r.None? <==> p !in files
  {
    if p !in files then None else Some(CacheContents(files[p]))
  }

  /** `_cache_path`: `<data_root>/catalog/<asset_type>_symbols.csv`. */
  function CachePath(dataRoot: seq<string>, assetType: string): Path {
    Path(dataRoot + ["catalog"], assetType + "_symbols.csv")
  }

  /** The body of `_load_cache`'s loop for one row. */
  method DecodeRow(row: map<string, string>) returns (item: Option<SymbolInfo>)
    ensures item == CachedItem(row)
  {
    var symbol := Strip(Field(row, "symbol"));
    if symbol == "" {
      return None;
    }
    var isEtf := DecodeFlag(Field(row, "is_etf"));
    var isFund := DecodeFlag(Field(row, "is_fund"));
    var assetType := Field(row, "asset_type");
    item := Some(SymbolInfo(
      symbol,
      OrNone(Field(row, "name")),
      OrNone(Field(row, "exchange")),
      if assetType == "" then "stock" else assetType,
      OrNone(Field(row, "market_category")),
      isEtf,
      isFund,
      OrNone(Field(row, "fund_category"))));
  }

  /** `_load_cache`. */
  method LoadCache(fs: FileSystem, p: Path) returns (r: Option<seq<SymbolInfo>>)
    ensures r == CachedAt(fs.files, p)
  {
    if p !in fs.files {
      return None;
    }
    match fs.files[p]
    case Csv(_, records) =>
      var items := DecodeRows(records);
      assert items == DecodeRecords(records);
      r := Some(items);
    case _ =>
      r := Some([]);
  }

  /** `_load_cache`'s loop over the rows. */
  method DecodeRows(records: seq<map<string, string>>) returns (items: seq<SymbolInfo>)
    ensures items == FilterMap(records, CachedItem)
  {
    items := [];
    for i := 0 to |records|
      invariant items == FilterMap(records[..i], CachedItem)
    {
      FilterMapPrefix(records, i, CachedItem);
      var item := DecodeRow(records[i]);
      if item.Some? {
        items := items + [item.value];
      }
    }
    assert records[..|records|] == records;
  }

  /** `_write_cache`: the header and one row per item, written atomically. */
  method WriteCache(fs: FileSystem, p: Path, items: seq<SymbolInfo>)
    modifies fs
    ensures fs.files == (old(fs.files) - {TmpPath(p)})[p := Csv(CacheFields, EncodeRows(items))]
  {
    var rows: seq<map<string, string>> := [];
    for i := 0 to |items|
      invariant rows == EncodeRows(items[..i])
    {
      assert EncodeRows(items[..i + 1]) == EncodeRows(items[..i]) + [CacheRow(items[i])];
      rows := rows + [CacheRow(items[i])];
    }
    assert items[..|items|] == items;
    AtomicWrite(fs, p, Csv(CacheFields, rows));
  }

  /** After the cache is written, reading it gives the cacheable items back. */
  lemma WrittenCacheReads(files: map<Path, FileData>, p: Path, items: seq<SymbolInfo>)
    requires forall i :: 0 <= i < |items| ==> Cacheable(items[i])
    ensures CachedAt((files - {TmpPath(p)})[p := Csv(CacheFields, EncodeRows(items))], p) == Some(items)
  {
    CacheRoundTrip(items);
  }

  /** The preset catalogs survive the cache. */
  lemma StaticItemsCacheable(assetType: string)
    requires assetType != ""
    ensures forall i :: 0 <= i < |StaticItems(assetType)| ==> Cacheable(StaticItems(assetType)[i])
  {
    var pairs := PresetPairs(assetType);
    forall i | 0 <= i < |pairs| ensures Trimmed(pairs[i].0) && pairs[i].1 != "" {
    }
  }

  // ---------------------------------------------------------------------
  // get_catalog

  /** A `CatalogService`: its data root, retry settings and default filters. */
  datatype CatalogService = CatalogService(dataRoot: seq<string>, config: CatalogConfig, filters: FilterConfig)

  /** `filters_override or self.filters`: a filter set is always truthy. */
  function EffectiveFilters(service: CatalogService, filtersOverride: Option<FilterConfig>): FilterConfig {
    if filtersOverride.Some? then filtersOverride.value else service.filters
  }

  /** A catalog list that is present and truthy (non-empty). */
  predicate NonEmpty(items: Option<seq<SymbolInfo>>) {
    items.Some? && items.value != []
  }

  /** What `get_catalog` downloads when it gets to the fetch. */
  function Fetched(service: CatalogService, assetType: string, outcomes: seq<Option<seq<SymbolInfo>>>): Option<seq<SymbolInfo>> {
    FirstSuccess(assetType, outcomes, 0, AttemptCount(service.config))
  }

  /** `get_catalog`: without `refresh`, a non-empty cache answers ("cache");
      otherwise a non-empty download is written to the cache and answers
      ("remote"); failing that a non-empty cache answers ("cache-fallback");
      failing that it raises. Each answer is filtered and limited. */
  method GetCatalog(service: CatalogService, fs: FileSystem, re: RegexEngine, assetType: string, refresh: bool,
                    limit: Option<int>, filtersOverride: Option<FilterConfig>, outcomes: seq<Option<seq<SymbolInfo>>>)
    returns (r: Result<CatalogResult>)
    modifies fs
    ensures !refresh && NonEmpty(CachedAt(old(fs.files), CachePath(service.dataRoot, assetType))) ==>
      && r == Ok(CatalogResult(Filtered(CachedAt(old(fs.files), CachePath(service.dataRoot, assetType)).value,
                                        limit, EffectiveFilters(service, filtersOverride), re), "cache"))
      && fs.files == old(fs.files)
    ensures ((refresh || !NonEmpty(CachedAt(old(fs.files), CachePath(service.dataRoot, assetType))))
             && NonEmpty(Fetched(service, assetType, outcomes))) ==>
      && r == Ok(CatalogResult(Filtered(Fetched(service, assetType, outcomes).value,
                                        limit, EffectiveFilters(service, filtersOverride), re), "remote"))
      && fs.files == (old(fs.files) - {TmpPath(CachePath(service.dataRoot, assetType))})
                       [CachePath(service.dataRoot, assetType) := Csv(CacheFields, EncodeRows(Fetched(service, assetType, outcomes).value))]
    ensures ((refresh || !NonEmpty(CachedAt(old(fs.files), CachePath(service.dataRoot, assetType))))
             && !NonEmpty(Fetched(service, assetType, outcomes))
             && NonEmpty(CachedAt(old(fs.files), CachePath(service.dataRoot, assetType)))) ==>
      && r == Ok(CatalogResult(Filtered(CachedAt(old(fs.files), CachePath(service.dataRoot, assetType)).value,
                                        limit, EffectiveFilters(service, filtersOverride), re), "cache-fallback"))
      && fs.files == old(fs.files)
    ensures (!NonEmpty(Fetched(service, assetType, outcomes))
             && !NonEmpty(CachedAt(old(fs.files), CachePath(service.dataRoot, assetType)))) ==>
      && r == Err(Exc("RuntimeError", "no catalog available for " + assetType))
      && fs.files == old(fs.files)
  {
    var filters := EffectiveFilters(service, filtersOverride);
    var cachePath := CachePath(service.dataRoot, assetType);
    if !refresh {
      var cached := LoadCache(fs, cachePath);
      if cached.Some? && cached.value != [] {
        var items := ApplyFilters(cached.value, limit, filters, re);
        return Ok(CatalogResult(items, "cache"));
      }
    }
    var fetched, _ := FetchWithRetry(service.config, assetType, outcomes);
    if fetched.Some? && fetched.value != [] {
      WriteCache(fs, cachePath, fetched.value);
      var items := ApplyFilters(fetched.value, limit, filters, re);
      return Ok(CatalogResult(items, "remote"));
    }
    var cached := LoadCache(fs, cachePath);
    if cached.Some? && cached.value != [] {
      var items := ApplyFilters(cached.value, limit, filters, re);
      return Ok(CatalogResult(items, "cache-fallback"));
    }
    return Err(Exc("RuntimeError", "no catalog available for " + assetType));
  }

  /** After a "remote" answer of cacheable items, the cache holds them, so
      the next call without `refresh` answers from the cache with the same
      items. */
  lemma RemoteThenCache(files: map<Path, FileData>, service: CatalogService, assetType: string,
                        outcomes: seq<Option<seq<SymbolInfo>>>)
    requires NonEmpty(Fetched(service, assetType, outcomes))
    requires forall x :: x in Fetched(service, assetType, outcomes).value ==> Cacheable(x)
    ensures var p := CachePath(service.dataRoot, assetType);
      var written := (files - {TmpPath(p)})[p := Csv(CacheFields, EncodeRows(Fetched(service, assetType, outcomes).value))];
      CachedAt(written, p) == Fetched(service, assetType, outcomes) && NonEmpty(CachedAt(written, p))
  {
    var items := Fetched(service, assetType, outcomes).value;
    forall i | 0 <= i < |items| ensures Cacheable(items[i]) {
      assert items[i] in items;
    }
    WrittenCacheReads(files, CachePath(service.dataRoot, assetType), items);
  }
}
