/** The application sidebar: its navigation list, which entry is active for a path,
    what a click on an entry does, and the expanded/collapsed state. */
module Navigation {
  import opened Types
  import opened Seqs

  datatype NavItem = NavItem(id: string, name: string, href: string, available: bool, badge: Option<string>)

  /** The six sidebar entries, in display order. */
  function NavItems(): (r: seq<NavItem>)
    ensures |r| == 6
  {
    [ NavItem("dashboard", "Dashboard", "/", true, None),
      NavItem("trading-journal", "Trading Journal", "/trading-journal", true, Some("NEW")),
      NavItem("settings", "Settings", "/settings", false, None),
      NavItem("templates", "Templates", "/templates", false, None),
      NavItem("documentation", "Documentation", "/documentation", false, None),
      NavItem("export-history", "Export History", "/export-history", false, None) ]
  }

  function ItemId(n: NavItem): string { n.id }
  function ItemHref(n: NavItem): string { n.href }

  /** Ids and paths are distinct, and only the dashboard and the journal are available. */
  lemma NavItemsWellFormed()
    ensures KeysDistinct(NavItems(), ItemId) && KeysDistinct(NavItems(), ItemHref)
    ensures forall i :: 0 <= i < |NavItems()| ==>
      (NavItems()[i].available <==> NavItems()[i].id == "dashboard" || NavItems()[i].id == "trading-journal")
  {
  }

  /** The page for a path without the `currentPage` prop: each known path gives its
      entry, anything else the dashboard. */
  function PageOfPath(pathname: string): (r: string)
    ensures exists i :: 0 <= i < |NavItems()| && NavItems()[i].id == r
  {
    var ids := NavItems();
    assert ids[0].id == "dashboard" && ids[1].id == "trading-journal" && ids[2].id == "settings";
    assert ids[3].id == "templates" && ids[4].id == "documentation" && ids[5].id == "export-history";
    if pathname == "/" then "dashboard"
    else if pathname == "/trading-journal" then "trading-journal"
    else if pathname == "/settings" then "settings"
    else if pathname == "/templates" then "templates"
    else if pathname == "/documentation" then "documentation"
    else if pathname == "/export-history" then "export-history"
    else "dashboard"
  }

  /** `getCurrentPage`: a non-empty `currentPage` prop wins over the path. */
  function CurrentPage(currentPage: Option<string>, pathname: string): (r: string)
    ensures currentPage.Some? && currentPage.value != "" ==> r == currentPage.value
    ensures !(currentPage.Some? && currentPage.value != "") ==> r == PageOfPath(pathname)
  {
    if currentPage.Some? && currentPage.value != "" then currentPage.value else PageOfPath(pathname)
  }

  /** Each entry's own path makes that entry the current page. */
  lemma PathRoundTrip(i: nat)
    requires i < |NavItems()|
    ensures CurrentPage(None, NavItems()[i].href) == NavItems()[i].id
  {
  }

  /** A path that no entry has shows the dashboard as current. */
  lemma UnknownPathIsDashboard(pathname: string)
    requires forall i :: 0 <= i < |NavItems()| ==> NavItems()[i].href != pathname
    ensures CurrentPage(None, pathname) == "dashboard"
  {
    assert NavItems()[0].href == "/" && NavItems()[1].href == "/trading-journal";
    assert NavItems()[2].href == "/settings" && NavItems()[3].href == "/templates";
    assert NavItems()[4].href == "/documentation" && NavItems()[5].href == "/export-history";
  }

  /** At most one entry is highlighted as active. */
  lemma ActiveEntryUnique(currentPage: Option<string>, pathname: string, i: nat, j: nat)
    requires i < |NavItems()| && j < |NavItems()|
    requires NavItems()[i].id == CurrentPage(currentPage, pathname)
    requires NavItems()[j].id == CurrentPage(currentPage, pathname)
    ensures i == j
  {
    NavItemsWellFormed();
  }

  /** What a click on an entry does. */
  datatype NavAction = NoAction | Navigate(pageId: string) | PushRoute(href: string)

  /** An unavailable entry ignores the click; an available one calls `onNavigate` with
      its id when the callback is given, and otherwise routes to its path. */
  function Click(item: NavItem, hasOnNavigate: bool): (a: NavAction)
    ensures !item.available <==> a == NoAction
    ensures item.available && hasOnNavigate ==> a == Navigate(item.id)
    ensures item.available && !hasOnNavigate ==> a == PushRoute(item.href)
  {
    if !item.available then NoAction
    else if hasOnNavigate then Navigate(item.id)
    else PushRoute(item.href)
  }

  /** Without `onNavigate`, a click on an available entry routes to a path that makes that
      entry current; a click leads nowhere else than an available entry's page. */
  lemma ClickLandsOnItem(i: nat, hasOnNavigate: bool)
    requires i < |NavItems()|
    ensures var a := Click(NavItems()[i], hasOnNavigate);
      && (a.PushRoute? ==> CurrentPage(None, a.href) == NavItems()[i].id)
      && (a != NoAction ==> NavItems()[i].id == "dashboard" || NavItems()[i].id == "trading-journal")
  {
    NavItemsWellFormed();
    PathRoundTrip(i);
  }

  /** The Ctrl+B / Cmd+B shortcut. */
  predicate IsToggleShortcut(ctrlKey: bool, metaKey: bool, key: string)
  {
    (ctrlKey || metaKey) && key == "b"
  }

  /** The sidebar's expanded state; it starts collapsed. */
  class Sidebar {
    var isExpanded: bool

    constructor()
      ensures !isExpanded
    {
      isExpanded := false;
    }

    /** The mount effect: a stored state, when there is one, replaces the current one. */
    method Restore(saved: Option<bool>)
      modifies this
      ensures isExpanded == saved.GetOr(old(isExpanded))
    {
      if saved.Some? {
        isExpanded := saved.value;
      }
    }

    /** `toggleSidebar`: flips the state; `stored` is the value written to local storage. */
    method Toggle() returns (stored: bool)
      modifies this
      ensures isExpanded == !old(isExpanded) && stored == isExpanded
    {
      isExpanded := !isExpanded;
      stored := isExpanded;
    }

    /** The key listener: the shortcut toggles and is swallowed (`handled`), any other
        key changes nothing. */
    method KeyDown(ctrlKey: bool, metaKey: bool, key: string) returns (handled: bool)
      modifies this
      ensures handled <==> IsToggleShortcut(ctrlKey, metaKey, key)
      ensures handled ==> isExpanded == !old(isExpanded)
      ensures !handled ==> isExpanded == old(isExpanded)
    {
      handled := IsToggleShortcut(ctrlKey, metaKey, key);
      if handled {
        var _ := Toggle();
      }
    }

    /** Two toggles in a row restore the original state. */
    method ToggleTwice()
      modifies this
      ensures isExpanded == old(isExpanded)
    {
      var _ := Toggle();
      var _ := Toggle();
    }
  }
}
