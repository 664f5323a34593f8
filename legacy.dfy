/** The earlier version of the dashboard page. Its state is the same as the current
    page's, but drop copies a snippet's globals verbatim and deleting a block removes
    every global the block's snippet declares, whoever else uses it. */
module Legacy {
  import opened Types
  import opened Seqs
  import Workspace
  import Views
  import Catalog
  import Handlers

  /** The globals after the legacy `handleDrop`: the existing ones, then the snippet's
      own globals (ids and users as declared) whose name is new. */
  function LegacyDropGlobals(existing: seq<GlobalVariable>, s: Snippet): (r: seq<GlobalVariable>)
    ensures |existing| <= |r| <= |existing| + |s.globalVariables|
    ensures r[..|existing|] == existing
    ensures forall i :: |existing| <= i < |r| ==>
      r[i] in s.globalVariables && !Workspace.HasName(existing, r[i].name)
    ensures forall j :: 0 <= j < |s.globalVariables| && !Workspace.HasName(existing, s.globalVariables[j].name) ==>
      s.globalVariables[j] in r[|existing|..]
  {
    var added := Filter(s.globalVariables, (g: GlobalVariable) => !Workspace.HasName(existing, g.name));
    assert (existing + added)[|existing|..] == added;
    existing + added
  }

  /** The appended globals keep the snippet's order. */
  lemma LegacyDropKeepsOrder(existing: seq<GlobalVariable>, s: Snippet)
    ensures var r := LegacyDropGlobals(existing, s);
      IsSubsequence(r[|existing|..], s.globalVariables)
  {
    var added := Filter(s.globalVariables, (g: GlobalVariable) => !Workspace.HasName(existing, g.name));
    assert (existing + added)[|existing|..] == added;
    FilterIsSubsequence(s.globalVariables, (g: GlobalVariable) => !Workspace.HasName(existing, g.name));
  }

  /** The legacy drop keeps global names unique when the snippet's names are. */
  lemma LegacyDropKeepsNamesUnique(existing: seq<GlobalVariable>, s: Snippet)
    requires Workspace.NamesUnique(existing) && Workspace.NamesUnique(s.globalVariables)
    ensures Workspace.NamesUnique(LegacyDropGlobals(existing, s))
  {
    var keep := (g: GlobalVariable) => !Workspace.HasName(existing, g.name);
    Workspace.FilterKeepsNamesUnique(s.globalVariables, keep);
    var added := Filter(s.globalVariables, keep);
    var r := existing + added;
    forall i, j | 0 <= i < j < |r| ensures r[i].name != r[j].name {
      if j >= |existing| && i < |existing| {
        assert r[j] == added[j - |existing|];
      }
    }
  }

  /** `workspaceBlocks.find(b => b.id === id)`: the first block with this id. */
  function FindBlock(bs: seq<WorkspaceBlock>, id: string): (r: Option<WorkspaceBlock>)
    ensures r.Some? <==> exists i :: 0 <= i < |bs| && bs[i].id == id
    ensures r.Some? ==> r.value in bs && r.value.id == id
    ensures r.Some? ==> exists i :: 0 <= i < |bs| && bs[i] == r.value && forall k :: 0 <= k < i ==> bs[k].id != id
  {
    if bs == [] then None
    else if bs[0].id == id then Some(bs[0])
    else
      var r := FindBlock(bs[1..], id);
      assert r.Some? ==> exists i :: 1 <= i < |bs| && bs[i] == r.value && forall k :: 0 <= k < i ==> bs[k].id != id by {
        if r.Some? {
          var i :| 0 <= i < |bs[1..]| && bs[1..][i] == r.value && forall k :: 0 <= k < i ==> bs[1..][k].id != id;
          assert forall k :: 0 <= k < i + 1 ==> bs[k].id != id by {
            forall k | 0 <= k < i + 1 ensures bs[k].id != id {
              if k > 0 { assert bs[k] == bs[1..][k - 1]; }
            }
          }
        }
      }
      r
  }

  /** The ids of the globals a snippet declares. */
  function DeclaredIds(s: Snippet): (r: seq<string>)
    ensures |r| == |s.globalVariables|
    ensures forall k :: 0 <= k < |r| ==> r[k] == s.globalVariables[k].id
  {
    Map(s.globalVariables, (g: GlobalVariable) => g.id)
  }

  /** The legacy `handleDeleteBlock`: the blocks with another id, and, when the block is
      found, the globals whose id its snippet does not declare. */
  function LegacyDeleteBlock(bs: seq<WorkspaceBlock>, vs: seq<GlobalVariable>, id: string): (r: (seq<WorkspaceBlock>, seq<GlobalVariable>))
    ensures forall i :: 0 <= i < |r.0| ==> r.0[i].id != id && r.0[i] in bs
    ensures forall i :: 0 <= i < |bs| && bs[i].id != id ==> bs[i] in r.0
    ensures FindBlock(bs, id).None? ==> r.1 == vs
    ensures FindBlock(bs, id).Some? ==>
      && (forall j :: 0 <= j < |r.1| ==> r.1[j] in vs && r.1[j].id !in DeclaredIds(FindBlock(bs, id).value.snippet))
      && (forall j :: 0 <= j < |vs| && vs[j].id !in DeclaredIds(FindBlock(bs, id).value.snippet) ==> vs[j] in r.1)
  {
    var blocks := Filter(bs, (b: WorkspaceBlock) => b.id != id);
    match FindBlock(bs, id)
    case None => (blocks, vs)
    case Some(b) =>
      var ids := DeclaredIds(b.snippet);
      (blocks, Filter(vs, (v: GlobalVariable) => v.id !in ids))
  }

  /** The remaining blocks and globals keep their order. */
  lemma LegacyDeleteBlockKeepsOrder(bs: seq<WorkspaceBlock>, vs: seq<GlobalVariable>, id: string)
    ensures var r := LegacyDeleteBlock(bs, vs, id);
      IsSubsequence(r.0, bs) && IsSubsequence(r.1, vs)
  {
    FilterIsSubsequence(bs, (b: WorkspaceBlock) => b.id != id);
    match FindBlock(bs, id)
    case None =>
      Workspace.SubsequenceRefl(vs);
    case Some(b) =>
      var ids := DeclaredIds(b.snippet);
      FilterIsSubsequence(vs, (v: GlobalVariable) => v.id !in ids);
  }

  /** The two delete rules differ on a global the deleted block's snippet declares but
      another block also uses: the legacy rule removes it, the current rule keeps it
      without the deleted block among its users. */
  lemma DeleteRulesDiffer(bs: seq<WorkspaceBlock>, vs: seq<GlobalVariable>, id: string, j: nat, other: string)
    requires j < |vs| && FindBlock(bs, id).Some?
    requires vs[j].id in DeclaredIds(FindBlock(bs, id).value.snippet)
    requires other in vs[j].usedBy && other != id
    ensures forall k :: 0 <= k < |LegacyDeleteBlock(bs, vs, id).1| ==> LegacyDeleteBlock(bs, vs, id).1[k].id != vs[j].id
    ensures Workspace.Stripped(vs[j], id) in Workspace.DeleteBlock(bs, vs, id).1
  {
    var b := FindBlock(bs, id).value;
    assert b in bs;
    var u :| 0 <= u < |vs[j].usedBy| && vs[j].usedBy[u] == other;
    assert other in Workspace.WithoutUser(vs[j].usedBy, id);
    assert !Workspace.RemovedWithBlock(vs[j], id);
  }

  /** A global that only the deleted block uses is removed by both rules when the
      block's snippet declares it. */
  lemma DeleteRulesAgreeOnPrivateGlobal(bs: seq<WorkspaceBlock>, vs: seq<GlobalVariable>, id: string, j: nat)
    requires j < |vs| && FindBlock(bs, id).Some?
    requires vs[j].id in DeclaredIds(FindBlock(bs, id).value.snippet)
    requires vs[j].usedBy == [id]
    ensures forall k :: 0 <= k < |LegacyDeleteBlock(bs, vs, id).1| ==> LegacyDeleteBlock(bs, vs, id).1[k].id != vs[j].id
    ensures Workspace.RemovedWithBlock(vs[j], id)
  {
    Workspace.RemovedWithBlockIff(vs[j], id);
  }

  /** The legacy `filteredSnippets`: nothing on the documentation tab, otherwise the
      snippets of the tab's category that match the search. */
  function LegacyFilteredSnippets(ss: seq<Snippet>, tab: string, query: string): (r: seq<Snippet>)
    ensures tab == "documentations" ==> r == []
    ensures forall i :: 0 <= i < |r| ==> r[i] in ss && Views.SnippetShown(r[i], tab, query)
  {
    if tab == "documentations" then []
    else Filter(ss, (s: Snippet) => Views.SnippetShown(s, tab, query))
  }

  /** The legacy filter lacks the event-handler tab test, yet shows the same list: that
      tab maps to no category, so no snippet matches it. */
  lemma FilterVersionsAgree(ss: seq<Snippet>, tab: string, query: string)
    ensures LegacyFilteredSnippets(ss, tab, query) == Views.FilteredSnippets(ss, tab, query)
  {
    if tab == "event-handlers" {
      FilterNone(ss, (s: Snippet) => Views.SnippetShown(s, tab, query));
    }
  }

  /** The legacy Clear All button (enabled only while the workspace has blocks)
      empties the blocks and keeps the globals. */
  function LegacyClearAll(bs: seq<WorkspaceBlock>, vs: seq<GlobalVariable>): (r: (seq<WorkspaceBlock>, seq<GlobalVariable>))
    ensures r.0 == [] && r.1 == vs
  {
    ([], vs)
  }

  /** What the legacy page saves: the four lists, but no snippets. */
  datatype LegacySavedState = LegacySavedState(
    globalVariables: Option<seq<GlobalVariable>>,
    eventHandlers: Option<seq<EventHandler>>,
    documentations: Option<seq<Documentation>>,
    workspaceBlocks: Option<seq<WorkspaceBlock>>)

  class LegacyDashboard {
    var activeTab: string
    var snippets: seq<Snippet>
    var blocks: seq<WorkspaceBlock>
    var globals: seq<GlobalVariable>
    var handlers: seq<EventHandler>
    var docs: seq<Documentation>
    var dragged: Option<Snippet>
    var searchQuery: string

    /** The initial state: the catalog, the registry, an empty workspace. */
    constructor()
      ensures activeTab == "utilities" && snippets == Catalog.DefaultSnippets() && handlers == Handlers.DefaultEventHandlers()
      ensures blocks == [] && globals == [] && docs == [] && dragged == None && searchQuery == ""
    {
      activeTab := "utilities";
      snippets := Catalog.DefaultSnippets();
      blocks := [];
      globals := [];
      handlers := Handlers.DefaultEventHandlers();
      docs := [];
      dragged := None;
      searchQuery := "";
    }

    method Load(saved: Option<LegacySavedState>)
      modifies this`globals, this`handlers, this`docs, this`blocks
      ensures saved.None? ==> globals == old(globals) && handlers == old(handlers)
                              && docs == old(docs) && blocks == old(blocks)
      ensures saved.Some? ==>
        && globals == saved.value.globalVariables.GetOr(old(globals))
        && handlers == saved.value.eventHandlers.GetOr(old(handlers))
        && docs == saved.value.documentations.GetOr(old(docs))
        && blocks == saved.value.workspaceBlocks.GetOr(old(blocks))
    {
      if saved.Some? {
        var st := saved.value;
        if st.globalVariables.Some? { globals := st.globalVariables.value; }
        if st.eventHandlers.Some? { handlers := st.eventHandlers.value; }
        if st.documentations.Some? { docs := st.documentations.value; }
        if st.workspaceBlocks.Some? { blocks := st.workspaceBlocks.value; }
      }
    }

    method ToggleEventHandler(id: string)
      modifies this`handlers
      ensures handlers == Workspace.ToggleHandler(old(handlers), id)
    {
      handlers := Workspace.ToggleHandler(handlers, id);
    }

    method UpdateGlobal(id: string, value: Value)
      modifies this`globals
      ensures globals == Workspace.UpdateGlobal(old(globals), id, value)
    {
      globals := Workspace.UpdateGlobal(globals, id, value);
    }

    method DeleteGlobal(id: string, confirmed: bool)
      modifies this`globals
      ensures globals == Workspace.DeleteGlobal(old(globals), id, confirmed)
    {
      globals := Workspace.DeleteGlobal(globals, id, confirmed);
    }

    method ResetGlobal(id: string)
      modifies this`globals
      ensures globals == Workspace.ResetGlobal(old(globals), id)
    {
      globals := Workspace.ResetGlobal(globals, id);
    }

    method DragStart(s: Snippet)
      modifies this`dragged
      ensures dragged == Some(s)
    {
      dragged := Some(s);
    }

    method Drop(blockStamp: string)
      modifies this`blocks, this`globals, this`dragged
      ensures old(dragged).None? ==> blocks == old(blocks) && globals == old(globals) && dragged == None
      ensures old(dragged).Some? ==>
        && blocks == old(blocks) + [Workspace.DroppedBlock(old(blocks), old(dragged).value, "block-" + blockStamp)]
        && globals == LegacyDropGlobals(old(globals), old(dragged).value)
        && dragged == None
      ensures Workspace.NamesUnique(old(globals))
              && (old(dragged).Some? ==> Workspace.NamesUnique(old(dragged).value.globalVariables))
              ==> Workspace.NamesUnique(globals)
    {
      if dragged.Some? {
        var s := dragged.value;
        if Workspace.NamesUnique(globals) && Workspace.NamesUnique(s.globalVariables) {
          LegacyDropKeepsNamesUnique(globals, s);
        }
        blocks, globals := blocks + [Workspace.DroppedBlock(blocks, s, "block-" + blockStamp)],
                           LegacyDropGlobals(globals, s);
        dragged := None;
      }
    }

    method DeleteBlock(id: string)
      modifies this`blocks, this`globals
      ensures (blocks, globals) == LegacyDeleteBlock(old(blocks), old(globals), id)
    {
      var r := LegacyDeleteBlock(blocks, globals, id);
      blocks, globals := r.0, r.1;
    }

    method ClearAll()
      modifies this`blocks
      ensures blocks == [] && (blocks, globals) == LegacyClearAll(old(blocks), globals)
    {
      blocks := [];
    }

    function ShownSnippets(): (r: seq<Snippet>)
      reads this
      ensures r == LegacyFilteredSnippets(snippets, activeTab, searchQuery)
      ensures forall i :: 0 <= i < |r| ==> r[i] in snippets
    {
      LegacyFilteredSnippets(snippets, activeTab, searchQuery)
    }
  }
}
