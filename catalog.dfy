/** The built-in snippet catalog and the library tabs: twelve MQL5 code snippets in
    three categories, six of whose global variables are declared alongside them. */
module Catalog {
  import opened Types
  import opened Seqs

  /** The three snippet categories, as the library tabs name them. */
  predicate IsSnippetCategory(c: string)
  {
    c == "Utilities" || c == "Indicators" || c == "Pre-made Functions"
  }

  /** A catalog global: its id is its name, it starts at its default, unmodified,
      bounded on both sides, and used by its own snippet. */
  function CatalogGlobal(name: string, kind: GlobalKind, default: real, description: string,
                         min: real, max: real, step: real, snippetId: string): GlobalVariable
  {
    GlobalVariable(name, name, kind, Num(default), Num(default), description,
                   Some(min), Some(max), Some(step), [snippetId], false)
  }

  /** The short fields of a catalog entry: id, name, category and declared globals. */
  datatype SnippetKey = SnippetKey(
    id: string,
    name: string,
    category: string,
    globalVariables: seq<GlobalVariable>)

  /** The prose fields of a catalog entry. Only the first line of each code body, the
      MQL5 function header, is kept. */
  datatype SnippetTexts = SnippetTexts(
    description: string,
    code: string,
    parameters: seq<string>,
    returnType: string)

  function SnippetKeys(): seq<SnippetKey>
  {
    [
      SnippetKey("util-1", "Calculate Lot Size", "Utilities",
        [CatalogGlobal("g_risk_percent", DoubleKind, 1.0, "Risk percentage per trade", 0.1, 10.0, 0.1, "util-1")]),
      SnippetKey("util-2", "Trailing Stop", "Utilities", []),
      SnippetKey("util-3", "Trading Hours Filter", "Utilities", []),
      SnippetKey("util-4", "Check Free Margin", "Utilities", []),
      SnippetKey("ind-1", "Moving Average Crossover", "Indicators",
        [CatalogGlobal("g_ma_fast_period", IntKind, 10.0, "Fast MA period", 1.0, 200.0, 1.0, "ind-1"),
         CatalogGlobal("g_ma_slow_period", IntKind, 20.0, "Slow MA period", 1.0, 200.0, 1.0, "ind-1")]),
      SnippetKey("ind-2", "RSI Overbought/Oversold", "Indicators",
        [CatalogGlobal("g_rsi_period", IntKind, 14.0, "RSI period", 2.0, 100.0, 1.0, "ind-2"),
         CatalogGlobal("g_rsi_overbought", DoubleKind, 70.0, "RSI overbought level", 50.0, 100.0, 5.0, "ind-2"),
         CatalogGlobal("g_rsi_oversold", DoubleKind, 30.0, "RSI oversold level", 0.0, 50.0, 5.0, "ind-2")]),
      SnippetKey("ind-3", "Bollinger Bands Breakout", "Indicators", []),
      SnippetKey("ind-4", "MACD Signal", "Indicators", []),
      SnippetKey("func-1", "Open Buy Position", "Pre-made Functions", []),
      SnippetKey("func-2", "Open Sell Position", "Pre-made Functions", []),
      SnippetKey("func-3", "Close All Positions", "Pre-made Functions", []),
      SnippetKey("func-4", "Count Open Positions", "Pre-made Functions", [])
    ]
  }

  /** The description, code header, parameter list and return type of the catalog
      entry with this id. */
  function SnippetTextsOf(id: string): SnippetTexts
  {
    if id == "util-1" then
      SnippetTexts("Calculates position size based on account balance, risk percentage, and stop loss distance",
        "double CalculateLotSize(double riskPercent, double stopLossPips) {",
        ["riskPercent: double", "stopLossPips: double"], "double")
    else if id == "util-2" then
      SnippetTexts("Adjusts stop loss to lock in profits as price moves favorably",
        "void TrailingStop(double trailDistance) {",
        ["trailDistance: double"], "void")
    else if id == "util-3" then
      SnippetTexts("Checks if current time is within specified trading hours",
        "bool IsTradingHours(int startHour, int endHour) {",
        ["startHour: int", "endHour: int"], "bool")
    else if id == "util-4" then
      SnippetTexts("Verifies sufficient free margin before opening position",
        "bool HasSufficientMargin(double lotSize) {",
        ["lotSize: double"], "bool")
    else if id == "ind-1" then
      SnippetTexts("Detects MA crossover signals for entry",
        "int CheckMACrossover(int fastPeriod, int slowPeriod) {",
        ["fastPeriod: int", "slowPeriod: int"], "int (1=buy, -1=sell, 0=no signal)")
    else if id == "ind-2" then
      SnippetTexts("Checks RSI levels for reversal signals",
        "int CheckRSI(int period, double overbought, double oversold) {",
        ["period: int", "overbought: double", "oversold: double"], "int (1=buy, -1=sell, 0=no signal)")
    else if id == "ind-3" then
      SnippetTexts("Detects price breaking out of Bollinger Bands",
        "int CheckBollingerBreakout(int period, double deviation) {",
        ["period: int", "deviation: double"], "int (1=buy, -1=sell, 0=no signal)")
    else if id == "ind-4" then
      SnippetTexts("Generates signals based on MACD histogram",
        "int CheckMACD(int fastEMA, int slowEMA, int signalSMA) {",
        ["fastEMA: int", "slowEMA: int", "signalSMA: int"], "int (1=buy, -1=sell, 0=no signal)")
    else if id == "func-1" then
      SnippetTexts("Opens a buy position with specified parameters",
        "bool OpenBuyPosition(double lotSize, double stopLoss, double takeProfit, string comment = \"\") {",
        ["lotSize: double", "stopLoss: double", "takeProfit: double", "comment: string"], "bool")
    else if id == "func-2" then
      SnippetTexts("Opens a sell position with specified parameters",
        "bool OpenSellPosition(double lotSize, double stopLoss, double takeProfit, string comment = \"\") {",
        ["lotSize: double", "stopLoss: double", "takeProfit: double", "comment: string"], "bool")
    else if id == "func-3" then
      SnippetTexts("Closes all open positions for current symbol",
        "void CloseAllPositions() {", [], "void")
    else if id == "func-4" then
      SnippetTexts("Returns the number of open positions for current symbol",
        "int CountOpenPositions() {", [], "int")
    else SnippetTexts("", "", [], "")
  }

  /** A catalog entry: a built-in snippet, never custom. */
  function CatalogEntry(k: SnippetKey): (s: Snippet)
    ensures s.id == k.id && s.name == k.name && s.category == k.category
    ensures s.globalVariables == k.globalVariables && !s.isCustom
  {
    var t := SnippetTextsOf(k.id);
    Snippet(k.id, k.name, t.description, t.code, k.category, Some(t.parameters), Some(t.returnType),
            false, k.globalVariables)
  }

  /** `defaultSnippets`, one snippet per key, in order. */
  function DefaultSnippets(): (ss: seq<Snippet>)
    ensures |ss| == |SnippetKeys()|
    ensures forall i :: 0 <= i < |ss| ==> ss[i] == CatalogEntry(SnippetKeys()[i])
  {
    var ks := SnippetKeys();
    seq(|ks|, i requires 0 <= i < |ks| => CatalogEntry(ks[i]))
  }

  /** `defaultTabs`: the library tabs, all of them built in. */
  function DefaultTabs(): seq<LibraryTab>
  {
    [ LibraryTab("utilities", "Utilities", Some("\U{1F527}"), true),
      LibraryTab("indicators", "Indicators", Some("\U{1F4CA}"), true),
      LibraryTab("pre-made-functions", "Pre-made Functions", Some("\U{26A1}"), true),
      LibraryTab("event-handlers", "Event Handlers", Some("\U{2699}\U{FE0F}"), true),
      LibraryTab("documentations", "Documentations", Some("\U{1F4DD}"), true) ]
  }

  /** Every global declared by the snippets, in catalog order. */
  function AllGlobals(ss: seq<Snippet>): seq<GlobalVariable>
  {
    if ss == [] then [] else ss[0].globalVariables + AllGlobals(ss[1..])
  }

  /** A numeric default lies within whichever of `min` and `max` are present. */
  predicate DefaultWithinBounds(g: GlobalVariable)
  {
    match g.defaultValue
    case Num(n) => (g.min.None? || g.min.value <= n) && (g.max.None? || n <= g.max.value)
    case _ => true
  }

  /** The well-formedness a catalog global has with respect to its snippet. */
  predicate WellFormedGlobal(g: GlobalVariable, snippetId: string)
  {
    && g.id == g.name
    && g.currentValue == g.defaultValue
    && !g.isModified
    && g.usedBy == [snippetId]
    && DefaultWithinBounds(g)
  }

  lemma SnippetKeyFacts()
    ensures var ks := SnippetKeys();
      && |ks| == 12
      && (forall i, j :: 0 <= i < j < |ks| ==> ks[i].id != ks[j].id)
      && (forall i, j :: 0 <= i < j < |ks| ==> ks[i].name != ks[j].name)
      && (forall i :: 0 <= i < |ks| ==> IsSnippetCategory(ks[i].category))
  {
  }

  lemma SnippetKeyGlobals()
    ensures var ks := SnippetKeys();
      forall i, j :: 0 <= i < |ks| && 0 <= j < |ks[i].globalVariables| ==>
        WellFormedGlobal(ks[i].globalVariables[j], ks[i].id)
  {
  }

  /** Snippet ids are pairwise distinct, and so are snippet names; every category is
      one the library tabs map to; no built-in snippet is custom. */
  lemma DefaultSnippetsWellFormed()
    ensures var ss := DefaultSnippets();
      && |ss| == 12
      && KeysDistinct(ss, (s: Snippet) => s.id)
      && KeysDistinct(ss, (s: Snippet) => s.name)
      && (forall i :: 0 <= i < |ss| ==> IsSnippetCategory(ss[i].category))
      && (forall i :: 0 <= i < |ss| ==> !ss[i].isCustom)
  {
    SnippetKeyFacts();
  }

  /** Every global a built-in snippet declares has `id == name`, starts at its
      default unmodified, is used by exactly that snippet, and has its default within
      its bounds. */
  lemma DefaultGlobalsWellFormed()
    ensures var ss := DefaultSnippets();
      forall i, j :: 0 <= i < |ss| && 0 <= j < |ss[i].globalVariables| ==>
        WellFormedGlobal(ss[i].globalVariables[j], ss[i].id)
  {
    SnippetKeyGlobals();
  }

  lemma {:induction false} AllGlobalsOfKeys(ks: seq<SnippetKey>, ss: seq<Snippet>)
    requires |ss| == |ks|
    requires forall i :: 0 <= i < |ss| ==> ss[i].globalVariables == ks[i].globalVariables
    ensures AllGlobals(ss) == KeyGlobals(ks)
  {
    if ss != [] {
      AllGlobalsOfKeys(ks[1..], ss[1..]);
    }
  }

  function KeyGlobals(ks: seq<SnippetKey>): seq<GlobalVariable>
  {
    if ks == [] then [] else ks[0].globalVariables + KeyGlobals(ks[1..])
  }

  /** Keys that declare no globals contribute nothing to the flattened list. */
  lemma {:induction false} KeyGlobalsSkipEmpty(ks: seq<SnippetKey>, n: nat)
    requires n <= |ks|
    requires forall i :: 0 <= i < n ==> ks[i].globalVariables == []
    ensures KeyGlobals(ks) == KeyGlobals(ks[n..])
  {
    if n > 0 {
      KeyGlobalsSkipEmpty(ks[1..], n - 1);
      assert ks[1..][n - 1..] == ks[n..];
    }
  }

  /** For any twelve keys laid out like the catalog (globals only at positions 0, 4
      and 5), the flattened globals are those three lists. */
  lemma KeyGlobalsOfLayout(ks: seq<SnippetKey>)
    requires |ks| == 12
    requires forall i :: 0 <= i < 12 && i != 0 && i != 4 && i != 5 ==> ks[i].globalVariables == []
    ensures KeyGlobals(ks) == ks[0].globalVariables + ks[4].globalVariables + ks[5].globalVariables
  {
    KeyGlobalsSkipEmpty(ks[6..], 6);
    assert ks[6..][6..] == [];
    KeyGlobalsSkipEmpty(ks[1..], 3);
    assert ks[1..][3..] == ks[4..];
    assert ks[4..][1..] == ks[5..] && ks[5..][1..] == ks[6..];
  }

  lemma SnippetKeyLayout()
    ensures var ks := SnippetKeys();
      && |ks| == 12
      && (forall i :: 0 <= i < 12 && i != 0 && i != 4 && i != 5 ==> ks[i].globalVariables == [])
  {
  }

  function CatalogGlobalNameList(): seq<string>
  {
    ["g_risk_percent", "g_ma_fast_period", "g_ma_slow_period",
     "g_rsi_period", "g_rsi_overbought", "g_rsi_oversold"]
  }

  lemma CatalogGlobalNames()
    ensures var ks := SnippetKeys();
      var gs := ks[0].globalVariables + ks[4].globalVariables + ks[5].globalVariables;
      && |gs| == |CatalogGlobalNameList()|
      && forall i :: 0 <= i < |gs| ==> gs[i].name == CatalogGlobalNameList()[i]
  {
  }

  lemma CatalogGlobalNameListDistinct()
    ensures var names := CatalogGlobalNameList();
      forall i, j :: 0 <= i < j < |names| ==> names[i] != names[j]
  {
  }

  lemma KeyGlobalNames()
    ensures var gs := KeyGlobals(SnippetKeys());
      && |gs| == 6
      && forall i, j :: 0 <= i < j < |gs| ==> gs[i].name != gs[j].name
  {
    SnippetKeyLayout();
    KeyGlobalsOfLayout(SnippetKeys());
    CatalogGlobalNames();
    CatalogGlobalNameListDistinct();
  }

  /** The six catalog globals have pairwise distinct names across the whole catalog. */
  lemma DefaultGlobalNamesDistinct()
    ensures |AllGlobals(DefaultSnippets())| == 6
    ensures KeysDistinct(AllGlobals(DefaultSnippets()), (g: GlobalVariable) => g.name)
  {
    AllGlobalsOfKeys(SnippetKeys(), DefaultSnippets());
    KeyGlobalNames();
  }

  /** Tab ids are distinct and include the three snippet tabs, the event-handler tab
      and the documentation tab. */
  lemma DefaultTabsWellFormed()
    ensures var ts := DefaultTabs();
      && KeysDistinct(ts, (t: LibraryTab) => t.id)
      && (forall id :: id in ["utilities", "indicators", "pre-made-functions", "event-handlers", "documentations"] ==>
            exists i :: 0 <= i < |ts| && ts[i].id == id)
      && (forall i :: 0 <= i < |ts| ==> ts[i].isDefault)
  {
    var ts := DefaultTabs();
    assert ts[0].id == "utilities" && ts[1].id == "indicators" && ts[2].id == "pre-made-functions";
    assert ts[3].id == "event-handlers" && ts[4].id == "documentations";
  }
}
