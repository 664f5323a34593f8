/** The event-handler panel, in its tab and its sidebar form: the six collapsible
    groups, the guarded handler click, the two presets and the accordion state. The
    two forms behave alike except for when they show the dependency icon. */
module HandlerPanel {
  import opened Types
  import opened Seqs
  import Text
  import Handlers
  import Page
  import Workspace

  datatype Group = RequiredGroup | TradingGroup | LifecycleGroup | DataGroup | InteractionGroup | TestingGroup

  /** The group's id, as `expandedCategory` holds it. */
  function GroupId(g: Group): string
  {
    match g
    case RequiredGroup => "required"
    case TradingGroup => "trading"
    case LifecycleGroup => "lifecycle"
    case DataGroup => "data"
    case InteractionGroup => "interaction"
    case TestingGroup => "testing"
  }

  /** The panel's six groups, in display order. */
  function AllGroups(): seq<Group>
  {
    [RequiredGroup, TradingGroup, LifecycleGroup, DataGroup, InteractionGroup, TestingGroup]
  }

  lemma GroupIdsDistinct()
    ensures forall i, j :: 0 <= i < j < |AllGroups()| ==> GroupId(AllGroups()[i]) != GroupId(AllGroups()[j])
  {
  }

  /** Group membership: the required handlers; trading and lifecycle handlers that are
      not required; data, interaction and testing handlers by category alone. */
  predicate InGroup(g: Group, h: EventHandler)
  {
    match g
    case RequiredGroup => h.required
    case TradingGroup => h.category == Trading && !h.required
    case LifecycleGroup => h.category == Lifecycle && !h.required
    case DataGroup => h.category == Data
    case InteractionGroup => h.category == Interaction
    case TestingGroup => h.category == Testing
  }

  function PanelGroup(hs: seq<EventHandler>, g: Group): (r: seq<EventHandler>)
    ensures forall i :: 0 <= i < |r| ==> r[i] in hs && InGroup(g, r[i])
    ensures forall i :: 0 <= i < |hs| && InGroup(g, hs[i]) ==> hs[i] in r
  {
    Filter(hs, (h: EventHandler) => InGroup(g, h))
  }

  /** The groups that list a handler. */
  function GroupsOf(h: EventHandler): (r: seq<Group>)
    ensures forall i :: 0 <= i < |r| ==> InGroup(r[i], h)
    ensures forall g: Group :: InGroup(g, h) ==> g in r
  {
    Filter(AllGroups(), (g: Group) => InGroup(g, h))
  }

  /** A handler is listed in exactly one group unless it is required and of a category
      (data, interaction or testing) whose group does not exclude required handlers;
      such a handler is listed twice. */
  lemma GroupsPartition(h: EventHandler)
    ensures |GroupsOf(h)| == 1 <==> !h.required || h.category == Trading || h.category == Lifecycle
    ensures |GroupsOf(h)| == 2 <==> h.required && h.category != Trading && h.category != Lifecycle
  {
  }

  /** In the default registry every handler is listed in exactly one group. */
  lemma DefaultRegistryGroupsPartition()
    ensures forall i :: 0 <= i < |Handlers.DefaultEventHandlers()| ==> |GroupsOf(Handlers.DefaultEventHandlers()[i])| == 1
  {
    Handlers.DefaultRegistryFlags();
    forall i | 0 <= i < |Handlers.DefaultEventHandlers()|
      ensures |GroupsOf(Handlers.DefaultEventHandlers()[i])| == 1
    {
      GroupsPartition(Handlers.DefaultEventHandlers()[i]);
    }
  }

  /** A group is drawn only when it has handlers. */
  predicate GroupDrawn(hs: seq<EventHandler>, g: Group)
  {
    |PanelGroup(hs, g)| > 0
  }

  /** A drawn group lists its handlers when it is the required group, which is always
      open, or the expanded one. */
  predicate GroupOpen(g: Group, expanded: Option<string>)
  {
    g == RequiredGroup || expanded == Some(GroupId(g))
  }

  /** At most one collapsible group is open. */
  lemma AtMostOneOpen(g1: Group, g2: Group, expanded: Option<string>)
    requires g1 != RequiredGroup && g2 != RequiredGroup
    requires GroupOpen(g1, expanded) && GroupOpen(g2, expanded)
    ensures g1 == g2
  {
  }

  /** The tab form shows the dependency icon for a non-empty dependency list, the
      sidebar form for any dependency list, even an empty one. */
  datatype Form = TabForm | SidebarForm

  function ShowsDependencyIcon(f: Form, h: EventHandler): (r: bool)
    ensures r ==> h.dependencies.Some?
    ensures f == TabForm ==> (r <==> h.dependencies.Some? && h.dependencies.value != [])
    ensures f == SidebarForm ==> (r <==> h.dependencies.Some?)
  {
    match f
    case TabForm => h.dependencies.Some? && |h.dependencies.value| > 0
    case SidebarForm => h.dependencies.Some?
  }

  /** The two forms disagree exactly on a handler with an empty dependency list. */
  lemma FormsDisagreeOnEmptyDependencies(h: EventHandler)
    ensures ShowsDependencyIcon(TabForm, h) != ShowsDependencyIcon(SidebarForm, h) <==> h.dependencies == Some([])
  {
  }

  /** In the tab form each button shows the first 60 characters of the description
      followed by `...`; a description of 60 characters or fewer is shown whole. */
  function DescriptionLine(h: EventHandler): (r: string)
    ensures |r| == (if |h.description| < 60 then |h.description| else 60) + 3
    ensures r[..|r| - 3] == h.description[..|r| - 3] && r[|r| - 3..] == "..."
    ensures |h.description| <= 60 ==> r == h.description + "..."
  {
    Text.Prefix(h.description, 60) + "..."
  }

  // ------------------------------------------------------------------ presets

  /** A preset toggles a snapshot handler when its name is one of the preset's and it is
      disabled; these are the ids it toggles, in snapshot order. */
  predicate PresetPicks(h: EventHandler, names: seq<string>)
  {
    h.name in names && !h.enabled
  }

  function PresetIds(hs: seq<EventHandler>, names: seq<string>): (r: seq<string>)
    ensures |r| <= |hs|
    decreases |hs|
  {
    if hs == [] then []
    else
      var last := hs[|hs| - 1];
      PresetIds(hs[..|hs| - 1], names) + (if PresetPicks(last, names) then [last.id] else [])
  }

  /** The handlers after toggling the given ids one after another. */
  function ToggleAll(hs: seq<EventHandler>, ids: seq<string>): (r: seq<EventHandler>)
    ensures |r| == |hs|
    decreases |ids|
  {
    if ids == [] then hs
    else Workspace.ToggleHandler(ToggleAll(hs, ids[..|ids| - 1]), ids[|ids| - 1])
  }

  /** What a preset means: every handler with one of its names is enabled, and every
      other handler keeps its state. */
  function Preset(hs: seq<EventHandler>, names: seq<string>): (r: seq<EventHandler>)
    ensures |r| == |hs|
    ensures forall i :: 0 <= i < |hs| && hs[i].name in names ==> r[i] == hs[i].(enabled := true)
    ensures forall i :: 0 <= i < |hs| && hs[i].name !in names ==> r[i] == hs[i]
  {
    Map(hs, (h: EventHandler) => if h.name in names then h.(enabled := true) else h)
  }

  /** One handler as the preset leaves it. */
  function Lift(h: EventHandler, names: seq<string>): EventHandler
  {
    if h.name in names then h.(enabled := true) else h
  }

  /** The first `k` entries as the preset leaves them, the rest untouched. */
  function PresetUpTo(hs: seq<EventHandler>, names: seq<string>, k: nat): (r: seq<EventHandler>)
    ensures |r| == |hs|
  {
    seq(|hs|, i requires 0 <= i < |hs| => if i < k then Lift(hs[i], names) else hs[i])
  }

  lemma PresetIdsSnoc(hs: seq<EventHandler>, names: seq<string>, k: nat)
    requires k < |hs|
    ensures PresetIds(hs[..k + 1], names) ==
      PresetIds(hs[..k], names) + (if PresetPicks(hs[k], names) then [hs[k].id] else [])
  {
    assert hs[..k + 1][..k] == hs[..k];
  }

  lemma ToggleAllSnoc(hs: seq<EventHandler>, ids: seq<string>, x: string)
    ensures ToggleAll(hs, ids + [x]) == Workspace.ToggleHandler(ToggleAll(hs, ids), x)
  {
    assert (ids + [x])[..|ids|] == ids;
  }

  /** Taking the next snapshot entry into account is one preset step. */
  lemma PresetStep(hs: seq<EventHandler>, names: seq<string>, k: nat)
    requires k < |hs|
    requires KeysDistinct(hs, (h: EventHandler) => h.id)
    ensures PresetUpTo(hs, names, k + 1) ==
      if PresetPicks(hs[k], names) then Workspace.ToggleHandler(PresetUpTo(hs, names, k), hs[k].id)
      else PresetUpTo(hs, names, k)
  {
    var before := PresetUpTo(hs, names, k);
    var after := PresetUpTo(hs, names, k + 1);
    if PresetPicks(hs[k], names) {
      var t := Workspace.ToggleHandler(before, hs[k].id);
      forall i | 0 <= i < |hs| ensures t[i] == after[i] {
        if i != k {
          assert before[i].id == hs[i].id;
        }
      }
    } else {
      assert forall i :: 0 <= i < |hs| ==> before[i] == after[i];
    }
  }

  lemma {:induction false} ToggleAllPrefix(hs: seq<EventHandler>, names: seq<string>, k: nat)
    requires k <= |hs|
    requires KeysDistinct(hs, (h: EventHandler) => h.id)
    ensures ToggleAll(hs, PresetIds(hs[..k], names)) == PresetUpTo(hs, names, k)
  {
    if k == 0 {
      assert PresetUpTo(hs, names, 0) == hs;
    } else {
      var pre := PresetIds(hs[..k - 1], names);
      var before := PresetUpTo(hs, names, k - 1);
      ToggleAllPrefix(hs, names, k - 1);
      assert ToggleAll(hs, pre) == before;
      PresetIdsSnoc(hs, names, k - 1);
      PresetStep(hs, names, k - 1);
      if PresetPicks(hs[k - 1], names) {
        assert PresetIds(hs[..k], names) == pre + [hs[k - 1].id];
        ToggleAllSnoc(hs, pre, hs[k - 1].id);
        assert ToggleAll(hs, pre + [hs[k - 1].id]) == Workspace.ToggleHandler(before, hs[k - 1].id);
      } else {
        assert PresetIds(hs[..k], names) == pre + [];
        assert pre + [] == pre;
      }
    }
  }

  /** With distinct ids, toggling the picked ids is the preset. */
  lemma PresetToggles(hs: seq<EventHandler>, names: seq<string>)
    requires KeysDistinct(hs, (h: EventHandler) => h.id)
    ensures ToggleAll(hs, PresetIds(hs, names)) == Preset(hs, names)
  {
    ToggleAllPrefix(hs, names, |hs|);
    assert hs[..|hs|] == hs;
    assert PresetUpTo(hs, names, |hs|) == Preset(hs, names);
  }

  /** After a preset nothing is left for it to pick. */
  lemma {:induction false} PresetPicksNothingAfter(hs: seq<EventHandler>, names: seq<string>)
    requires forall i :: 0 <= i < |hs| ==> !PresetPicks(hs[i], names)
    ensures PresetIds(hs, names) == []
  {
    if hs != [] {
      PresetPicksNothingAfter(hs[..|hs| - 1], names);
    }
  }

  /** Applying a preset twice is applying it once. */
  lemma PresetIdempotent(hs: seq<EventHandler>, names: seq<string>)
    ensures Preset(Preset(hs, names), names) == Preset(hs, names)
    ensures ToggleAll(Preset(hs, names), PresetIds(Preset(hs, names), names)) == Preset(hs, names)
  {
    var p := Preset(hs, names);
    assert forall i :: 0 <= i < |hs| ==> Preset(p, names)[i] == p[i];
    PresetPicksNothingAfter(p, names);
  }

  /** The registry's ids are distinct, so both presets mean what they say there. */
  lemma DefaultPresets()
    ensures var d := Handlers.DefaultEventHandlers();
      && ToggleAll(d, PresetIds(d, StandardNames())) == Preset(d, StandardNames())
      && ToggleAll(d, PresetIds(d, TimeBasedNames())) == Preset(d, TimeBasedNames())
  {
    Handlers.DefaultRegistryDistinct();
    PresetToggles(Handlers.DefaultEventHandlers(), StandardNames());
    PresetToggles(Handlers.DefaultEventHandlers(), TimeBasedNames());
  }

  /** The Standard EA preset. */
  function StandardNames(): seq<string>
  {
    ["OnTick"]
  }

  /** The Time-Based EA preset. */
  function TimeBasedNames(): seq<string>
  {
    ["OnTick", "OnTimer"]
  }

  /** A preset button: for each handler of the snapshot the panel was drawn with, in
      order, a handler with one of the names that is disabled in the snapshot is
      toggled on the page. */
  method ApplyPreset(page: Page.Dashboard, names: seq<string>)
    modifies page`handlers
    ensures page.handlers == ToggleAll(old(page.handlers), PresetIds(old(page.handlers), names))
    ensures KeysDistinct(old(page.handlers), (h: EventHandler) => h.id) ==>
      page.handlers == Preset(old(page.handlers), names)
  {
    var snapshot := page.handlers;
    var i := 0;
    while i < |snapshot|
      invariant 0 <= i <= |snapshot|
      invariant page.handlers == ToggleAll(snapshot, PresetIds(snapshot[..i], names))
    {
      PresetIdsSnoc(snapshot, names, i);
      var h := snapshot[i];
      if h.name in names && !h.enabled {
        ghost var pre := PresetIds(snapshot[..i], names);
        ToggleAllSnoc(snapshot, pre, h.id);
        assert PresetIds(snapshot[..i + 1], names) == pre + [h.id];
        page.ToggleEventHandler(h.id);
        assert page.handlers == Workspace.ToggleHandler(ToggleAll(snapshot, pre), h.id);
      } else {
        assert PresetIds(snapshot[..i + 1], names) == PresetIds(snapshot[..i], names) + [];
        assert PresetIds(snapshot[..i + 1], names) == PresetIds(snapshot[..i], names);
      }
      assert page.handlers == ToggleAll(snapshot, PresetIds(snapshot[..i + 1], names));
      i := i + 1;
    }
    assert snapshot[..|snapshot|] == snapshot;
    if KeysDistinct(snapshot, (h: EventHandler) => h.id) {
      PresetToggles(snapshot, names);
    }
  }

  /** A handler button: a required handler's button is disabled, any other toggles it
      on the page. */
  method ClickHandler(page: Page.Dashboard, h: EventHandler)
    modifies page`handlers
    ensures h.required ==> page.handlers == old(page.handlers)
    ensures !h.required ==> page.handlers == Workspace.ToggleHandler(old(page.handlers), h.id)
  {
    if !h.required {
      page.ToggleEventHandler(h.id);
    }
  }

  /** The accordion: which collapsible group is expanded, the trading group at first. */
  class Accordion {
    var expanded: Option<string>

    constructor()
      ensures expanded == Some("trading")
    {
      expanded := Some("trading");
    }

    /** `toggleCategory`: the expanded group collapses, any other id expands. */
    method ToggleCategory(id: string)
      modifies this
      ensures old(expanded) == Some(id) ==> expanded == None
      ensures old(expanded) != Some(id) ==> expanded == Some(id)
    {
      expanded := if expanded == Some(id) then None else Some(id);
    }

    /** A group header: the required group's header does nothing. */
    method ClickHeader(g: Group)
      modifies this
      ensures g == RequiredGroup ==> expanded == old(expanded)
      ensures g != RequiredGroup && old(expanded) == Some(GroupId(g)) ==> expanded == None
      ensures g != RequiredGroup && old(expanded) != Some(GroupId(g)) ==> expanded == Some(GroupId(g))
    {
      if g != RequiredGroup {
        ToggleCategory(GroupId(g));
      }
    }
  }
}
