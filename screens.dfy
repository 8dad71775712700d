/** `tui/screens.py`: the filters the catalog screen applies to the symbol
    list it loaded, and the limit it reads from its input box.

    The widgets, the worker thread and the rendering are outside this
    model: the filters take the values of the input boxes as parameters,
    and the regular-expression engine is a parameter as well. */
module Screens {
  import opened Wrappers
  import opened Text
  import opened Seqs
  import CliValidation
  import Catalog

  type Item = Catalog.SymbolInfo

  // ---------------------------------------------------------------------
  // The limit box

  /** `_limit`: the number in the box, at least 1; the configured limit
      when the box is blank or does not hold an integer. */
  function Limit(box: string, configLimit: int): (r: int)
    ensures Strip(box) == "" ==> r == configLimit
    ensures ParseInt(Strip(box)).Err? ==> r == configLimit
    ensures Strip(box) != "" && ParseInt(Strip(box)).Ok? ==> r >= 1 && r >= ParseInt(Strip(box)).value
    ensures Strip(box) != "" && ParseInt(Strip(box)).Ok? ==>
      r == (if ParseInt(Strip(box)).value < 1 then 1 else ParseInt(Strip(box)).value)
    ensures r == configLimit || r >= 1
  {
    var value := Strip(box);
    if value == "" then configLimit
    else
      match ParseInt(value)
      case Ok(n) => if n < 1 then 1 else n
      case Err(_) => configLimit
  }

  /** A number typed in the box is the limit, raised to 1 if smaller. */
  lemma LimitOfNumber(n: nat, configLimit: int)
    ensures Limit(NatToDigits(n), configLimit) == if n == 0 then 1 else n
  {
    var d := NatToDigits(n);
    DigitNotSpace(d[0]);
    DigitNotSpace(d[|d| - 1]);
    StripUnchanged(d);
    ParseIntOfDigits(n);
  }

  // ---------------------------------------------------------------------
  // Text filters

  /** `match_text`: an empty pattern matches; "re:" and an expression
      searches for it ignoring case, falling back to a substring test when
      it does not compile; any other pattern is a substring, ignoring case. */
  function MatchText(re: Catalog.RegexEngine, text: string, pattern: string): (r: bool)
    ensures pattern == "" ==> r
    ensures !StartsWith(pattern, "re:") ==> (r <==> pattern == "" || Contains(Lower(text), Lower(pattern)))
    ensures StartsWith(pattern, "re:") && Strip(pattern[3..]) == "" ==> r
  {
    if pattern == "" then true
    else if StartsWith(pattern, "re:") then
      var expr := Strip(pattern[3..]);
      if expr == "" then true
      else if re.compiles(expr) then re.search(expr, text)
      else Contains(Lower(text), Lower(expr))
    else Contains(Lower(text), Lower(pattern))
  }

  /** `item.name or ""`. */
  function NameText(item: Item): string {
    item.name.GetOr("")
  }

  /** `any(match_text(t, pattern) for t in [symbol, name] if t)`. */
  predicate AnyTextMatches(re: Catalog.RegexEngine, item: Item, pattern: string) {
    (item.symbol != "" && MatchText(re, item.symbol, pattern))
    || (NameText(item) != "" && MatchText(re, NameText(item), pattern))
  }

  /** `include_match`. */
  predicate IncludeMatch(re: Catalog.RegexEngine, item: Item, includeText: string) {
    includeText == "" || AnyTextMatches(re, item, includeText)
  }

  /** `exclude_match`. */
  predicate ExcludeMatch(re: Catalog.RegexEngine, item: Item, excludeText: string) {
    excludeText != "" && AnyTextMatches(re, item, excludeText)
  }

  /** An item the text filters keep. */
  predicate TextPasses(re: Catalog.RegexEngine, includeText: string, excludeText: string, item: Item) {
    IncludeMatch(re, item, includeText) && !ExcludeMatch(re, item, excludeText)
  }

  /** The items the text filters keep, in their order. */
  function TextFiltered(re: Catalog.RegexEngine, items: seq<Item>, includeText: string, excludeText: string): seq<Item> {
    Filter(items, item => TextPasses(re, includeText, excludeText, item))
  }

  /** `_apply_text_filters`. */
  method ApplyTextFilters(re: Catalog.RegexEngine, items: seq<Item>, includeText: string, excludeText: string)
    returns (filtered: seq<Item>)
    ensures filtered == TextFiltered(re, items, includeText, excludeText)
  {
    var p := item => TextPasses(re, includeText, excludeText, item);
    filtered := [];
    var i := 0;
    while i < |items|
      invariant 0 <= i <= |items|
      invariant filtered == Filter(items[..i], p)
    {
      FilterSnoc(items[..i], items[i], p);
      assert items[..i + 1] == items[..i] + [items[i]];
      if !IncludeMatch(re, items[i], includeText) {
        i := i + 1;
        continue;
      }
      if ExcludeMatch(re, items[i], excludeText) {
        i := i + 1;
        continue;
      }
      filtered := filtered + [items[i]];
      i := i + 1;
    }
    assert items[..i] == items;
  }

  /** The result keeps the items' order and holds exactly the items that
      match the include pattern (when there is one) and not the exclude
      pattern (when there is one): exclusion wins over inclusion. */
  lemma TextFilteredShape(re: Catalog.RegexEngine, items: seq<Item>, includeText: string, excludeText: string, x: Item)
    ensures SubseqOf(TextFiltered(re, items, includeText, excludeText), items)
    ensures x in TextFiltered(re, items, includeText, excludeText) <==>
      x in items && (includeText == "" || AnyTextMatches(re, x, includeText)) && (excludeText == "" || !AnyTextMatches(re, x, excludeText))
  {
    var p := item => TextPasses(re, includeText, excludeText, item);
    FilterSubseq(items, p);
    FilterMembers(items, p, x);
  }

  /** With both boxes blank the list is unchanged, which is why the screen
      may skip the call. */
  lemma NoTextFilters(re: Catalog.RegexEngine, items: seq<Item>)
    ensures TextFiltered(re, items, "", "") == items
  {
    FilterAll(items, item => TextPasses(re, "", "", item));
  }

  /** Lower-casing keeps a substring a substring. */
  lemma LowerKeepsContains(s: string, t: string)
    requires Contains(s, t)
    ensures Contains(Lower(s), Lower(t))
  {
    var i := ContainsWitness(s, t);
    assert Lower(s)[i..i + |t|] == Lower(t) by {
      forall k | 0 <= k < |t| ensures Lower(s)[i..i + |t|][k] == Lower(t)[k] {
        assert s[i + k] == t[k];
      }
    }
    ContainsAt(Lower(s), Lower(t), i);
  }

  /** Typing part of an item's symbol in the include box keeps the item,
      unless the exclude box matches it. */
  lemma SymbolPieceIncluded(re: Catalog.RegexEngine, items: seq<Item>, x: Item, piece: string, excludeText: string)
    requires x in items && Contains(x.symbol, piece) && !StartsWith(piece, "re:")
    requires !ExcludeMatch(re, x, excludeText)
    ensures x in TextFiltered(re, items, piece, excludeText)
  {
    if piece != "" {
      LowerKeepsContains(x.symbol, piece);
      assert x.symbol != "" by {
        var j := ContainsWitness(x.symbol, piece);
      }
    }
    TextFilteredShape(re, items, piece, excludeText, x);
  }

  /** "re:" with a blank expression includes exactly the items that have a
      symbol or a name to match: an item with neither is dropped. */
  lemma BlankRegexIncludes(re: Catalog.RegexEngine, items: seq<Item>, pattern: string, x: Item)
    requires StartsWith(pattern, "re:") && Strip(pattern[3..]) == ""
    requires x in items
    ensures x in TextFiltered(re, items, pattern, "") <==> x.symbol != "" || NameText(x) != ""
  {
    TextFilteredShape(re, items, pattern, "", x);
  }

  // ---------------------------------------------------------------------
  // Exchange and market filters

  /** `split_values`: the non-blank comma-separated values, stripped and
      upper-cased. */
  function UpperValues(value: string): (r: set<string>)
    ensures forall v :: v in r <==> exists piece :: piece in CliValidation.NonBlankPieces(value) && v == Upper(Strip(piece))
  {
    set piece | piece in CliValidation.NonBlankPieces(value) :: Upper(Strip(piece))
  }

  /** An item the exchange and market filters keep: an empty set does not
      filter; the item's exchange and market category, upper-cased (a
      missing one is ""), must be in the include set and not in the
      exclude set. */
  predicate ExchangePasses(includeEx: set<string>, excludeEx: set<string>,
                           includeMk: set<string>, excludeMk: set<string>, item: Item)
  {
    var exchange := Upper(item.exchange.GetOr(""));
    var market := Upper(item.marketCategory.GetOr(""));
    && !(includeEx != {} && exchange !in includeEx)
    && !(excludeEx != {} && exchange in excludeEx)
    && !(includeMk != {} && market !in includeMk)
    && !(excludeMk != {} && market in excludeMk)
  }

  /** The items the exchange and market filters keep, in their order. */
  function ExchangeFiltered(items: seq<Item>, includeEx: string, excludeEx: string,
                            includeMk: string, excludeMk: string): seq<Item>
  {
    var ie, ee, im, em := UpperValues(includeEx), UpperValues(excludeEx), UpperValues(includeMk), UpperValues(excludeMk);
    Filter(items, item => ExchangePasses(ie, ee, im, em, item))
  }

  /** The loop of `_apply_exchange_filters`, over the prepared sets. */
  method KeepBySets(items: seq<Item>, ie: set<string>, ee: set<string>, im: set<string>, em: set<string>)
    returns (filtered: seq<Item>)
    ensures filtered == Filter(items, item => ExchangePasses(ie, ee, im, em, item))
  {
    var p := item => ExchangePasses(ie, ee, im, em, item);
    filtered := [];
    var i := 0;
    while i < |items|
      invariant 0 <= i <= |items|
      invariant filtered == Filter(items[..i], p)
    {
      FilterSnoc(items[..i], items[i], p);
      assert items[..i + 1] == items[..i] + [items[i]];
      var exchange := Upper(items[i].exchange.GetOr(""));
      var market := Upper(items[i].marketCategory.GetOr(""));
      if ie != {} && exchange !in ie {
        i := i + 1;
        continue;
      }
      if ee != {} && exchange in ee {
        i := i + 1;
        continue;
      }
      if im != {} && market !in im {
        i := i + 1;
        continue;
      }
      if em != {} && market in em {
        i := i + 1;
        continue;
      }
      filtered := filtered + [items[i]];
      i := i + 1;
    }
    assert items[..i] == items;
  }

  /** `_apply_exchange_filters`: the four sets are prepared once, then the
      items are kept in order. */
  method ApplyExchangeFilters(items: seq<Item>, includeEx: string, excludeEx: string,
                              includeMk: string, excludeMk: string)
    returns (filtered: seq<Item>)
    ensures filtered == ExchangeFiltered(items, includeEx, excludeEx, includeMk, excludeMk)
  {
    filtered := KeepBySets(items, UpperValues(includeEx), UpperValues(excludeEx), UpperValues(includeMk), UpperValues(excludeMk));
  }

  /** The result keeps the items' order and holds exactly the items whose
      exchange and market pass. */
  lemma ExchangeFilteredShape(items: seq<Item>, includeEx: string, excludeEx: string,
                              includeMk: string, excludeMk: string, x: Item)
    ensures SubseqOf(ExchangeFiltered(items, includeEx, excludeEx, includeMk, excludeMk), items)
    ensures x in ExchangeFiltered(items, includeEx, excludeEx, includeMk, excludeMk) <==>
      x in items && ExchangePasses(UpperValues(includeEx), UpperValues(excludeEx), UpperValues(includeMk), UpperValues(excludeMk), x)
  {
    var ie, ee, im, em := UpperValues(includeEx), UpperValues(excludeEx), UpperValues(includeMk), UpperValues(excludeMk);
    var p := item => ExchangePasses(ie, ee, im, em, item);
    FilterSubseq(items, p);
    FilterMembers(items, p, x);
  }

  /** Blank text gives no values. */
  lemma UpperValuesBlank()
    ensures UpperValues("") == {}
  {
    EmptyFacts();
    assert Split("", ',') == [""];
    assert CliValidation.NonBlankPieces("") == [];
  }

  /** With all four boxes blank the list is unchanged. */
  lemma NoExchangeFilters(items: seq<Item>)
    ensures ExchangeFiltered(items, "", "", "", "") == items
  {
    UpperValuesBlank();
    FilterAll(items, item => ExchangePasses({}, {}, {}, {}, item));
  }

  /** An exchange named in both boxes is dropped: exclusion wins. */
  lemma ExcludedExchangeDropped(items: seq<Item>, includeEx: string, excludeEx: string,
                                includeMk: string, excludeMk: string, x: Item)
    requires Upper(x.exchange.GetOr("")) in UpperValues(excludeEx)
    ensures x !in ExchangeFiltered(items, includeEx, excludeEx, includeMk, excludeMk)
  {
    ExchangeFilteredShape(items, includeEx, excludeEx, includeMk, excludeMk, x);
  }

  /** Typing an item's exchange, in any letter case, in the include box
      keeps the item when the other boxes are blank. */
  lemma OwnExchangeIncluded(items: seq<Item>, x: Item, typed: string)
    requires x in items && x.exchange.Some?
    requires typed != "" && Strip(typed) == typed && ',' !in typed
    requires Upper(typed) == Upper(x.exchange.value)
    ensures x in ExchangeFiltered(items, typed, "", "", "")
  {
    CliValidation.NonBlankPiecesJoin([typed]);
    assert CliValidation.NonBlankPieces(typed) == [typed];
    assert Upper(x.exchange.GetOr("")) in UpperValues(typed);
    UpperValuesBlank();
    ExchangeFilteredShape(items, typed, "", "", "", x);
  }

  // ---------------------------------------------------------------------
  // Loading

  /** `load_catalog` after the list is fetched: the text filters when
      either text box is filled, then the exchange filters when any of
      those boxes is filled. */
  function Loaded(re: Catalog.RegexEngine, items: seq<Item>, includeText: string, excludeText: string,
                  includeEx: string, excludeEx: string, includeMk: string, excludeMk: string): seq<Item>
  {
    var afterText := if includeText != "" || excludeText != "" then TextFiltered(re, items, includeText, excludeText) else items;
    if includeEx != "" || excludeEx != "" || includeMk != "" || excludeMk != "" then
      ExchangeFiltered(afterText, includeEx, excludeEx, includeMk, excludeMk)
    else afterText
  }

  /** Skipping a filter whose boxes are blank changes nothing: the screen
      shows both filters applied in turn, a subsequence of the list. */
  lemma LoadedIsBothFilters(re: Catalog.RegexEngine, items: seq<Item>, includeText: string, excludeText: string,
                            includeEx: string, excludeEx: string, includeMk: string, excludeMk: string)
    ensures Loaded(re, items, includeText, excludeText, includeEx, excludeEx, includeMk, excludeMk)
         == ExchangeFiltered(TextFiltered(re, items, includeText, excludeText), includeEx, excludeEx, includeMk, excludeMk)
    ensures SubseqOf(Loaded(re, items, includeText, excludeText, includeEx, excludeEx, includeMk, excludeMk), items)
  {
    var t := TextFiltered(re, items, includeText, excludeText);
    NoTextFilters(re, items);
    NoExchangeFilters(t);
    FilterSubseq(items, item => TextPasses(re, includeText, excludeText, item));
    var ie, ee, im, em := UpperValues(includeEx), UpperValues(excludeEx), UpperValues(includeMk), UpperValues(excludeMk);
    FilterSubseq(t, item => ExchangePasses(ie, ee, im, em, item));
    SubseqTrans(ExchangeFiltered(t, includeEx, excludeEx, includeMk, excludeMk), t, items);
  }
}
