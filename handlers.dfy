/** The event-handler registry: the fourteen MQL5 callbacks the builder offers, their
    grouping by category, the enabled subset and the stub text emitted for each. */
module Handlers {
  import opened Types
  import opened Seqs
  import opened Text

  /** The short fields of a registry entry: id, handler name, whether it is required,
      its category and its dependency notes. */
  datatype RegistryKey = RegistryKey(
    id: string,
    name: string,
    required: bool,
    category: HandlerCategory,
    dependencies: Option<seq<string>>)

  /** The prose fields of a registry entry. */
  datatype HandlerTexts = HandlerTexts(description: string, useCase: string, signature: string)

  /** The registry's entries in order, without their prose. */
  function RegistryKeys(): seq<RegistryKey>
  {
    [
      RegistryKey("onInit", "OnInit", true, Lifecycle, None),
      RegistryKey("onDeinit", "OnDeinit", true, Lifecycle, None),
      RegistryKey("onStart", "OnStart", false, Lifecycle, None),
      RegistryKey("onTick", "OnTick", false, Trading, None),
      RegistryKey("onCalculate", "OnCalculate", false, Data, None),
      RegistryKey("onTimer", "OnTimer", false, Trading, Some(["EventSetTimer() must be called in OnInit"])),
      RegistryKey("onTrade", "OnTrade", false, Trading, None),
      RegistryKey("onTradeTransaction", "OnTradeTransaction", false, Trading, None),
      RegistryKey("onBookEvent", "OnBookEvent", false, Data, Some(["MarketBookAdd() must be called for symbol"])),
      RegistryKey("onChartEvent", "OnChartEvent", false, Interaction, None),
      RegistryKey("onTester", "OnTester", false, Testing, None),
      RegistryKey("onTesterInit", "OnTesterInit", false, Testing, None),
      RegistryKey("onTesterDeinit", "OnTesterDeinit", false, Testing, None),
      RegistryKey("onTesterPass", "OnTesterPass", false, Testing, None)
    ]
  }

  /** The description, use case and MQL5 signature of the registry entry with this id. */
  function RegistryTexts(id: string): HandlerTexts
  {
    if id == "onInit" then
      HandlerTexts("Called when EA is loaded or attached to chart. Used for initialization and setup.",
        "Initialize indicators, set up timers, validate inputs",
        "int OnInit()")
    else if id == "onDeinit" then
      HandlerTexts("Called when EA is removed from chart. Used for cleanup and resource release.",
        "Release indicator handles, kill timers, save data",
        "void OnDeinit(const int reason)")
    else if id == "onStart" then
      HandlerTexts("Entry point for scripts and service programs. Not typically used in EAs.",
        "Script entry point, batch processing",
        "void OnStart()")
    else if id == "onTick" then
      HandlerTexts("Called on every incoming price tick. Main function for trading logic.",
        "Check signals, open/close positions, monitor trades",
        "void OnTick()")
    else if id == "onCalculate" then
      HandlerTexts("Used for custom indicators. Calculates indicator values on new bar.",
        "Custom indicator calculations, buffer management",
        "int OnCalculate(const int rates_total, const int prev_calculated, const datetime &time[], const double &open[], const double &high[], const double &low[], const double &close[], const long &tick_volume[], const long &volume[], const int &spread[])")
    else if id == "onTimer" then
      HandlerTexts("Called at specified intervals. Requires EventSetTimer() in OnInit.",
        "Periodic checks, time-based actions, logging",
        "void OnTimer()")
    else if id == "onTrade" then
      HandlerTexts("Called when trade operation is completed. Simple notification of trade events.",
        "Log trade completions, send notifications",
        "void OnTrade()")
    else if id == "onTradeTransaction" then
      HandlerTexts("Called on trade transaction event. Provides detailed trade information.",
        "Advanced trade tracking, order state monitoring",
        "void OnTradeTransaction(const MqlTradeTransaction &trans, const MqlTradeRequest &request, const MqlTradeResult &result)")
    else if id == "onBookEvent" then
      HandlerTexts("Called when market depth (DOM) changes for subscribed symbol.",
        "Depth of market analysis, order book trading",
        "void OnBookEvent(const string &symbol)")
    else if id == "onChartEvent" then
      HandlerTexts("Called on chart events (click, object creation, keyboard input).",
        "Interactive EAs, GUI elements, hotkey support",
        "void OnChartEvent(const int id, const long &lparam, const double &dparam, const string &sparam)")
    else if id == "onTester" then
      HandlerTexts("Called after strategy tester run. Returns custom optimization criterion.",
        "Custom optimization metrics, fitness functions",
        "double OnTester()")
    else if id == "onTesterInit" then
      HandlerTexts("Called at start of strategy tester optimization.",
        "Initialize tester variables, setup optimization",
        "void OnTesterInit()")
    else if id == "onTesterDeinit" then
      HandlerTexts("Called at end of strategy tester optimization.",
        "Cleanup after optimization, save results",
        "void OnTesterDeinit()")
    else if id == "onTesterPass" then
      HandlerTexts("Called when optimization pass frame received from strategy tester agent.",
        "Process optimization pass results in real-time",
        "void OnTesterPass()")
    else HandlerTexts("", "", "")
  }

  /** A registry entry: its display name is the handler name, and it starts enabled
      exactly when it is required. */
  function RegistryEntry(k: RegistryKey): (h: EventHandler)
    ensures h.id == k.id && h.name == k.name && h.displayName == k.name
    ensures h.required == k.required && h.enabled == k.required
    ensures h.category == k.category && h.dependencies == k.dependencies
  {
    var t := RegistryTexts(k.id);
    EventHandler(k.id, k.name, k.name, t.description, t.useCase, k.required, k.required,
                 k.category, k.dependencies, t.signature)
  }

  /** The registry (`DEFAULT_EVENT_HANDLERS`), one entry per key, in order. */
  function DefaultEventHandlers(): (hs: seq<EventHandler>)
    ensures |hs| == |RegistryKeys()|
    ensures forall i :: 0 <= i < |hs| ==> hs[i] == RegistryEntry(RegistryKeys()[i])
  {
    var ks := RegistryKeys();
    seq(|ks|, i requires 0 <= i < |ks| => RegistryEntry(ks[i]))
  }

  /** The six groups of the handler list. */
  datatype HandlerGroups = HandlerGroups(
    required: seq<EventHandler>,
    lifecycle: seq<EventHandler>,
    trading: seq<EventHandler>,
    data: seq<EventHandler>,
    interaction: seq<EventHandler>,
    testing: seq<EventHandler>)

  /** `getHandlersByCategory`: the required handlers, the optional lifecycle handlers,
      and one plain category filter for each of the other four categories. */
  function HandlersByCategory(hs: seq<EventHandler>): (g: HandlerGroups)
    ensures forall h :: h in g.required <==> h in hs && h.required
    ensures forall h :: h in g.lifecycle <==> h in hs && h.category == Lifecycle && !h.required
    ensures forall h :: h in g.trading <==> h in hs && h.category == Trading
    ensures forall h :: h in g.data <==> h in hs && h.category == Data
    ensures forall h :: h in g.interaction <==> h in hs && h.category == Interaction
    ensures forall h :: h in g.testing <==> h in hs && h.category == Testing
  {
    HandlerGroups(
      Filter(hs, (h: EventHandler) => h.required),
      Filter(hs, (h: EventHandler) => h.category == Lifecycle && !h.required),
      Filter(hs, (h: EventHandler) => h.category == Trading),
      Filter(hs, (h: EventHandler) => h.category == Data),
      Filter(hs, (h: EventHandler) => h.category == Interaction),
      Filter(hs, (h: EventHandler) => h.category == Testing))
  }

  /** Each group lists its handlers in registry order. */
  lemma GroupsKeepRegistryOrder(hs: seq<EventHandler>)
    ensures var g := HandlersByCategory(hs);
      && IsSubsequence(g.required, hs) && IsSubsequence(g.lifecycle, hs)
      && IsSubsequence(g.trading, hs) && IsSubsequence(g.data, hs)
      && IsSubsequence(g.interaction, hs) && IsSubsequence(g.testing, hs)
  {
    FilterIsSubsequence(hs, (h: EventHandler) => h.required);
    FilterIsSubsequence(hs, (h: EventHandler) => h.category == Lifecycle && !h.required);
    FilterIsSubsequence(hs, (h: EventHandler) => h.category == Trading);
    FilterIsSubsequence(hs, (h: EventHandler) => h.category == Data);
    FilterIsSubsequence(hs, (h: EventHandler) => h.category == Interaction);
    FilterIsSubsequence(hs, (h: EventHandler) => h.category == Testing);
  }

  /** The group a handler is listed under when every required handler is a
      lifecycle handler: 0 required, 1 lifecycle, 2 trading, 3 data, 4 interaction,
      5 testing. */
  function RegistryGroupOf(h: EventHandler): nat
  {
    if h.required then 0
    else match h.category
      case Lifecycle => 1
      case Trading => 2
      case Data => 3
      case Interaction => 4
      case Testing => 5
  }

  /** When the required handlers are all lifecycle handlers (as in the registry), the
      six groups are pairwise disjoint and together hold every handler: each handler
      is in exactly the group `RegistryGroupOf` names. */
  lemma RegistryGroupsPartition(hs: seq<EventHandler>)
    requires forall i :: 0 <= i < |hs| && hs[i].required ==> hs[i].category == Lifecycle
    ensures var g := HandlersByCategory(hs);
      forall h :: h in hs ==>
        && (h in g.required <==> RegistryGroupOf(h) == 0)
        && (h in g.lifecycle <==> RegistryGroupOf(h) == 1)
        && (h in g.trading <==> RegistryGroupOf(h) == 2)
        && (h in g.data <==> RegistryGroupOf(h) == 3)
        && (h in g.interaction <==> RegistryGroupOf(h) == 4)
        && (h in g.testing <==> RegistryGroupOf(h) == 5)
  {
  }

  /** `getEnabledHandlers`: the enabled handlers, in registry order. */
  function EnabledHandlers(hs: seq<EventHandler>): (r: seq<EventHandler>)
    ensures forall h :: h in r <==> h in hs && h.enabled
    ensures |r| <= |hs|
  {
    Filter(hs, (h: EventHandler) => h.enabled)
  }

  lemma EnabledKeepsOrder(hs: seq<EventHandler>)
    ensures IsSubsequence(EnabledHandlers(hs), hs)
  {
    FilterIsSubsequence(hs, (h: EventHandler) => h.enabled);
  }

  /** The key table's flags, ids and names, stated on the keys alone. */
  lemma RegistryKeyFacts()
    ensures var ks := RegistryKeys();
      && |ks| == 14
      && (forall i :: 0 <= i < |ks| ==> (ks[i].required <==> ks[i].id == "onInit" || ks[i].id == "onDeinit"))
      && (forall i :: 0 <= i < |ks| && ks[i].required ==> ks[i].category == Lifecycle)
      && (forall i :: 2 <= i < |ks| ==> !ks[i].required)
      && ks[0].name == "OnInit" && ks[1].name == "OnDeinit"
  {
  }

  lemma RegistryKeysDistinct()
    ensures var ks := RegistryKeys();
      && (forall i, j :: 0 <= i < j < |ks| ==> ks[i].id != ks[j].id)
      && (forall i, j :: 0 <= i < j < |ks| ==> ks[i].name != ks[j].name)
  {
  }

  /** The registry's required handlers are exactly `onInit` and `onDeinit`, both
      enabled and both lifecycle handlers; every other handler is optional and starts
      disabled. */
  lemma DefaultRegistryFlags()
    ensures var hs := DefaultEventHandlers();
      && |hs| == 14
      && (forall i :: 0 <= i < |hs| ==> (hs[i].required <==> hs[i].id == "onInit" || hs[i].id == "onDeinit"))
      && (forall i :: 0 <= i < |hs| ==> hs[i].enabled == hs[i].required)
      && (forall i :: 0 <= i < |hs| && hs[i].required ==> hs[i].category == Lifecycle)
      && hs[0].name == "OnInit" && hs[1].name == "OnDeinit"
  {
    RegistryKeyFacts();
  }

  /** Registry ids are pairwise distinct, and so are registry names. */
  lemma DefaultRegistryDistinct()
    ensures KeysDistinct(DefaultEventHandlers(), (h: EventHandler) => h.id)
    ensures KeysDistinct(DefaultEventHandlers(), (h: EventHandler) => h.name)
  {
    RegistryKeysDistinct();
  }

  /** When exactly the first `n` handlers are enabled, they are the enabled handlers. */
  lemma EnabledPrefix(hs: seq<EventHandler>, n: nat)
    requires n <= |hs|
    requires forall i :: 0 <= i < |hs| ==> (hs[i].enabled <==> i < n)
    ensures EnabledHandlers(hs) == hs[..n]
  {
    FilterAll(hs[..n], (h: EventHandler) => h.enabled);
    FilterNone(hs[n..], (h: EventHandler) => h.enabled);
    FilterAppend(hs[..n], hs[n..], (h: EventHandler) => h.enabled);
    assert hs[..n] + hs[n..] == hs;
  }

  /** On the registry, the enabled handlers are OnInit and OnDeinit, in that order. */
  lemma DefaultEnabledHandlers()
    ensures var hs := DefaultEventHandlers();
      |EnabledHandlers(hs)| == 2 && EnabledHandlers(hs)[0].name == "OnInit" && EnabledHandlers(hs)[1].name == "OnDeinit"
  {
    var hs := DefaultEventHandlers();
    RegistryKeyFacts();
    assert forall i :: 0 <= i < |hs| ==> (hs[i].enabled <==> i < 2);
    EnabledPrefix(hs, 2);
  }

  /** `generateHandlerCode`: the stub emitted for a handler. */
  function HandlerCode(h: EventHandler): string
  {
    if h.name == "OnInit" then
      h.signature + " {" + "\n   // Initialization code here\n   Print(\"EA Initialized\");\n   " + "return(INIT_SUCCEEDED);" + "\n}"
    else if h.name == "OnDeinit" then
      h.signature + " {" + "\n   // Cleanup code here\n   " + "Print(\"EA Deinitialized\");" + "\n}"
    else
      h.signature + " {" + "\n   " + ("// " + h.displayName + " logic here") + "\n}"
  }

  lemma OccursInMiddle(a: string, b: string, c: string)
    ensures OccursAt(a + b + c, b, |a|)
  {
    assert (a + b + c)[|a|..|a| + |b|] == b;
  }

  /** Every stub opens with the signature and a brace and closes with a brace; the
      OnInit stub returns `INIT_SUCCEEDED`, the OnDeinit stub prints its message, and
      every other stub carries a comment naming the handler. */
  lemma HandlerCodeShape(h: EventHandler)
    ensures StartsWith(HandlerCode(h), h.signature + " {")
    ensures var r := HandlerCode(h); |r| > 0 && r[|r| - 1] == '}'
    ensures h.name == "OnInit" ==> Contains(HandlerCode(h), "return(INIT_SUCCEEDED);")
    ensures h.name == "OnDeinit" ==> Contains(HandlerCode(h), "Print(\"EA Deinitialized\");")
    ensures h.name != "OnInit" && h.name != "OnDeinit" ==>
      Contains(HandlerCode(h), "// " + h.displayName + " logic here")
  {
    var r := HandlerCode(h);
    var head := h.signature + " {";
    if h.name == "OnInit" {
      var mid := "\n   // Initialization code here\n   Print(\"EA Initialized\");\n   ";
      OccursInMiddle(head + mid, "return(INIT_SUCCEEDED);", "\n}");
      assert r == (head + mid) + "return(INIT_SUCCEEDED);" + "\n}";
      assert r == head + (mid + "return(INIT_SUCCEEDED);" + "\n}");
    } else if h.name == "OnDeinit" {
      var mid := "\n   // Cleanup code here\n   ";
      OccursInMiddle(head + mid, "Print(\"EA Deinitialized\");", "\n}");
      assert r == (head + mid) + "Print(\"EA Deinitialized\");" + "\n}";
      assert r == head + (mid + "Print(\"EA Deinitialized\");" + "\n}");
    } else {
      var text := "// " + h.displayName + " logic here";
      OccursInMiddle(head + "\n   ", text, "\n}");
      assert r == (head + "\n   ") + text + "\n}";
      assert r == head + ("\n   " + text + "\n}");
    }
  }

  /** The stub depends on the handler's name, signature and display name only. */
  lemma HandlerCodeDependsOnTemplateFields(h1: EventHandler, h2: EventHandler)
    requires h1.name == h2.name && h1.signature == h2.signature && h1.displayName == h2.displayName
    ensures HandlerCode(h1) == HandlerCode(h2)
  {
  }
}
