/** The dashboard's derived views: the snippet library filter, the ordered
    documentation list, the header counters and the custom-snippet persistence split. */
module Views {
  import opened Types
  import opened Seqs
  import opened Text
  import Catalog
  import Workspace

  // -------------------------------------------------------------- snippets

  /** The category a snippet tab shows; the other tabs show none. */
  function TabCategory(tab: string): (c: Option<string>)
    ensures c.Some? <==> tab == "utilities" || tab == "indicators" || tab == "pre-made-functions"
  {
    if tab == "utilities" then Some("Utilities")
    else if tab == "indicators" then Some("Indicators")
    else if tab == "pre-made-functions" then Some("Pre-made Functions")
    else None
  }

  /** The search matches when the query is empty or occurs, ignoring case, in the
      snippet's name or description. */
  predicate SnippetMatchesSearch(s: Snippet, query: string)
  {
    query == "" || ContainsIgnoringCase(s.name, query) || ContainsIgnoringCase(s.description, query)
  }

  predicate SnippetShown(s: Snippet, tab: string, query: string)
  {
    TabCategory(tab) == Some(s.category) && SnippetMatchesSearch(s, query)
  }

  /** `filteredSnippets`: nothing on the documentation and event-handler tabs;
      otherwise the snippets of the tab's category that match the search, in order. */
  function FilteredSnippets(ss: seq<Snippet>, tab: string, query: string): (r: seq<Snippet>)
    ensures tab == "documentations" || tab == "event-handlers" ==> r == []
    ensures forall i :: 0 <= i < |r| ==> r[i] in ss && SnippetShown(r[i], tab, query)
    ensures tab != "documentations" && tab != "event-handlers" ==>
      forall i :: 0 <= i < |ss| && SnippetShown(ss[i], tab, query) ==> ss[i] in r
  {
    if tab == "documentations" || tab == "event-handlers" then []
    else Filter(ss, (s: Snippet) => SnippetShown(s, tab, query))
  }

  lemma FilteredSnippetsKeepOrder(ss: seq<Snippet>, tab: string, query: string)
    ensures IsSubsequence(FilteredSnippets(ss, tab, query), ss)
  {
    if tab != "documentations" && tab != "event-handlers" {
      FilterIsSubsequence(ss, (s: Snippet) => SnippetShown(s, tab, query));
    }
  }

  /** With an empty query a snippet tab lists exactly its category. */
  lemma EmptyQueryShowsCategory(ss: seq<Snippet>, tab: string, s: Snippet)
    requires TabCategory(tab).Some?
    ensures s in FilteredSnippets(ss, tab, "") <==> s in ss && s.category == TabCategory(tab).value
  {
  }

  /** A tab that maps to no category (an unknown tab id) lists nothing. */
  lemma UnknownTabShowsNothing(ss: seq<Snippet>, tab: string, query: string)
    requires TabCategory(tab).None?
    ensures FilteredSnippets(ss, tab, query) == []
  {
    if tab != "documentations" && tab != "event-handlers" {
      FilterNone(ss, (s: Snippet) => SnippetShown(s, tab, query));
    }
  }

  // ----------------------------------------------------------------- docs

  predicate DocMatchesSearch(d: Documentation, query: string)
  {
    || query == ""
    || ContainsIgnoringCase(d.title, query)
    || ContainsIgnoringCase(d.content, query)
    || (exists k :: 0 <= k < |d.tags| && ContainsIgnoringCase(d.tags[k], query))
  }

  /** `filterCategory` is `'all'` (here `None`) or one category. */
  predicate DocMatchesCategory(d: Documentation, filter: Option<DocCategory>)
  {
    filter.None? || d.category == filter.value
  }

  predicate DocShown(d: Documentation, query: string, filter: Option<DocCategory>)
  {
    DocMatchesSearch(d, query) && DocMatchesCategory(d, filter)
  }

  /** The sort comparator is negative: pinned before unpinned, and among equally pinned
      entries the later `updatedAt` (as a timestamp given by `time`) first. */
  predicate Before(a: Documentation, b: Documentation, time: string -> int)
  {
    (a.isPinned && !b.isPinned) || (a.isPinned == b.isPinned && time(a.updatedAt) > time(b.updatedAt))
  }

  /** No entry is strictly before an entry to its left. */
  predicate DocsOrdered(ds: seq<Documentation>, time: string -> int)
  {
    forall i, j :: 0 <= i < j < |ds| ==> !Before(ds[j], ds[i], time)
  }

  /** Insert `d` in front of the first entry that is not strictly before it: entries
      the comparator finds equal keep their relative order. */
  function InsertDoc(d: Documentation, ds: seq<Documentation>, time: string -> int): (r: seq<Documentation>)
    ensures multiset(r) == multiset(ds) + multiset{d}
    ensures |r| == |ds| + 1
  {
    if ds == [] || !Before(ds[0], d, time) then [d] + ds
    else
      assert ds == [ds[0]] + ds[1..];
      [ds[0]] + InsertDoc(d, ds[1..], time)
  }

  /** A stable insertion sort by the comparator (the order of `Array.prototype.sort`,
      which is stable). */
  function SortDocs(ds: seq<Documentation>, time: string -> int): (r: seq<Documentation>)
    ensures multiset(r) == multiset(ds)
    ensures |r| == |ds|
  {
    if ds == [] then []
    else
      assert ds == [ds[0]] + ds[1..];
      InsertDoc(ds[0], SortDocs(ds[1..], time), time)
  }

  lemma {:induction false} InsertDocOrdered(d: Documentation, ds: seq<Documentation>, time: string -> int)
    requires DocsOrdered(ds, time)
    ensures DocsOrdered(InsertDoc(d, ds, time), time)
  {
    var r := InsertDoc(d, ds, time);
    if ds == [] || !Before(ds[0], d, time) {
      forall i, j | 0 <= i < j < |r| ensures !Before(r[j], r[i], time) {
        if i == 0 && j > 1 {
          assert r[j] == ds[j - 1] && !Before(ds[j - 1], ds[0], time);
        }
      }
    } else {
      InsertDocOrdered(d, ds[1..], time);
      var tail := InsertDoc(d, ds[1..], time);
      assert r == [ds[0]] + tail;
      forall i, j | 0 <= i < j < |r| ensures !Before(r[j], r[i], time) {
        if i == 0 {
          assert r[j] == tail[j - 1];
          assert r[j] in multiset(tail);
          assert r[j] == d || r[j] in multiset(ds[1..]);
          if r[j] != d {
            var k :| 0 <= k < |ds[1..]| && ds[1..][k] == r[j];
            assert ds[k + 1] == r[j];
          }
        } else {
          assert r[i] == tail[i - 1] && r[j] == tail[j - 1];
        }
      }
    }
  }

  lemma {:induction false} SortDocsOrdered(ds: seq<Documentation>, time: string -> int)
    ensures DocsOrdered(SortDocs(ds, time), time)
  {
    if ds != [] {
      SortDocsOrdered(ds[1..], time);
      InsertDocOrdered(ds[0], SortDocs(ds[1..], time), time);
    }
  }

  /** `filteredDocs`: the entries that match the search and the category filter,
      sorted by the comparator. */
  function FilteredDocs(ds: seq<Documentation>, query: string, filter: Option<DocCategory>,
                        time: string -> int): (r: seq<Documentation>)
    ensures multiset(r) == multiset(Filter(ds, (d: Documentation) => DocShown(d, query, filter)))
    ensures forall i :: 0 <= i < |r| ==> r[i] in ds && DocShown(r[i], query, filter)
    ensures forall i :: 0 <= i < |ds| && DocShown(ds[i], query, filter) ==> ds[i] in r
  {
    var kept := Filter(ds, (d: Documentation) => DocShown(d, query, filter));
    var r := SortDocs(kept, time);
    assert forall i :: 0 <= i < |r| ==> r[i] in multiset(kept);
    assert forall i :: 0 <= i < |ds| && DocShown(ds[i], query, filter) ==> ds[i] in multiset(r);
    r
  }

  /** In the documentation list every pinned entry precedes every unpinned one, and
      among equally pinned entries `updatedAt` never increases. */
  lemma FilteredDocsOrder(ds: seq<Documentation>, query: string, filter: Option<DocCategory>, time: string -> int)
    ensures var r := FilteredDocs(ds, query, filter, time);
      && (forall i, j :: 0 <= i < j < |r| && r[j].isPinned ==> r[i].isPinned)
      && (forall i, j :: 0 <= i < j < |r| && r[i].isPinned == r[j].isPinned ==>
            time(r[i].updatedAt) >= time(r[j].updatedAt))
  {
    SortDocsOrdered(Filter(ds, (d: Documentation) => DocShown(d, query, filter)), time);
  }

  // --------------------------------------------------------------- counters

  /** The header counter of enabled handlers. */
  function EnabledHandlerCount(hs: seq<EventHandler>): nat
  {
    Count(hs, (h: EventHandler) => h.enabled)
  }

  /** The header counter of modified globals. */
  function ModifiedGlobalCount(vs: seq<GlobalVariable>): nat
  {
    Count(vs, (v: GlobalVariable) => v.isModified)
  }

  /** While the flags are consistent, the modified counter counts the globals whose
      value differs from their default. */
  lemma ModifiedCountMatchesValues(vs: seq<GlobalVariable>)
    requires Workspace.AllFlagsConsistent(vs)
    ensures ModifiedGlobalCount(vs) == Count(vs, (v: GlobalVariable) => !StrictEquals(v.currentValue, v.defaultValue))
  {
    FilterCongruent(vs, (v: GlobalVariable) => v.isModified,
                    (v: GlobalVariable) => !StrictEquals(v.currentValue, v.defaultValue));
  }

  /** Toggling one handler changes the enabled counter by exactly one when its id is
      unique. */
  lemma {:induction false} ToggleChangesCountByOne(hs: seq<EventHandler>, i: nat)
    requires i < |hs|
    requires forall j :: 0 <= j < |hs| && j != i ==> hs[j].id != hs[i].id
    ensures var c := EnabledHandlerCount(Workspace.ToggleHandler(hs, hs[i].id));
      if hs[i].enabled then c + 1 == EnabledHandlerCount(hs) else c == EnabledHandlerCount(hs) + 1
  {
    var t := Workspace.ToggleHandler(hs, hs[i].id);
    var en := (h: EventHandler) => h.enabled;
    assert hs == hs[..i] + [hs[i]] + hs[i + 1..];
    assert t == t[..i] + [t[i]] + t[i + 1..];
    assert t[..i] == hs[..i];
    assert t[i + 1..] == hs[i + 1..];
    FilterAppend(hs[..i] + [hs[i]], hs[i + 1..], en);
    FilterAppend(hs[..i], [hs[i]], en);
    FilterAppend(t[..i] + [t[i]], t[i + 1..], en);
    FilterAppend(t[..i], [t[i]], en);
  }

  // ------------------------------------------------------------ persistence

  predicate IsCustom(s: Snippet)
  {
    s.isCustom
  }

  /** What is saved of the snippet list: the custom snippets. */
  function SavedSnippets(ss: seq<Snippet>): (r: seq<Snippet>)
    ensures forall i :: 0 <= i < |r| ==> r[i].isCustom && r[i] in ss
    ensures forall i :: 0 <= i < |ss| && ss[i].isCustom ==> ss[i] in r
  {
    Filter(ss, IsCustom)
  }

  /** What loading rebuilds from saved snippets: the built-in `defaults`, then the
      saved snippets that are custom. */
  function LoadedSnippets(defaults: seq<Snippet>, saved: seq<Snippet>): (r: seq<Snippet>)
    ensures |r| >= |defaults| && r[..|defaults|] == defaults
    ensures forall i :: |defaults| <= i < |r| ==> r[i].isCustom && r[i] in saved
  {
    assert (defaults + SavedSnippets(saved))[..|defaults|] == defaults;
    defaults + SavedSnippets(saved)
  }

  /** Saving and loading a list that is the (non-custom) built-ins followed by custom
      snippets gives the list back. */
  lemma SaveLoadRoundTrip(defaults: seq<Snippet>, custom: seq<Snippet>)
    requires forall i :: 0 <= i < |defaults| ==> !defaults[i].isCustom
    requires forall i :: 0 <= i < |custom| ==> custom[i].isCustom
    ensures LoadedSnippets(defaults, SavedSnippets(defaults + custom)) == defaults + custom
  {
    FilterAppend(defaults, custom, IsCustom);
    FilterNone(defaults, IsCustom);
    FilterAll(custom, IsCustom);
    assert SavedSnippets(defaults + custom) == [] + custom;
    assert [] + custom == custom;
  }

  /** Loading what was saved and saving again changes nothing. */
  lemma SaveAfterLoadIsStable(defaults: seq<Snippet>, saved: seq<Snippet>)
    requires forall i :: 0 <= i < |defaults| ==> !defaults[i].isCustom
    ensures SavedSnippets(LoadedSnippets(defaults, saved)) == SavedSnippets(saved)
  {
    FilterAppend(defaults, SavedSnippets(saved), IsCustom);
    FilterNone(defaults, IsCustom);
    FilterAll(SavedSnippets(saved), IsCustom);
  }

  /** The catalog satisfies the round trips' condition: no built-in snippet is custom. */
  lemma CatalogRoundTrip(custom: seq<Snippet>, saved: seq<Snippet>)
    requires forall i :: 0 <= i < |custom| ==> custom[i].isCustom
    ensures var d := Catalog.DefaultSnippets();
      && LoadedSnippets(d, SavedSnippets(d + custom)) == d + custom
      && SavedSnippets(LoadedSnippets(d, saved)) == SavedSnippets(saved)
  {
    Catalog.DefaultSnippetsWellFormed();
    SaveLoadRoundTrip(Catalog.DefaultSnippets(), custom);
    SaveAfterLoadIsStable(Catalog.DefaultSnippets(), saved);
  }
}
