/** The builder's dashboard page: its state and the event handlers that change it.
    Each handler applies the matching transition of `Workspace` to the fields it
    sets and leaves the others alone. */
module Page {
  import opened Types
  import Workspace
  import Views
  import Catalog
  import Handlers

  /** What the page saves to local storage, as read back: each list is present or not
      (`if (state.x)`); `None` for the whole record is a missing key or unreadable JSON. */
  datatype SavedState = SavedState(
    globalVariables: Option<seq<GlobalVariable>>,
    eventHandlers: Option<seq<EventHandler>>,
    documentations: Option<seq<Documentation>>,
    workspaceBlocks: Option<seq<WorkspaceBlock>>,
    snippets: Option<seq<Snippet>>)

  class Dashboard {
    var tabs: seq<LibraryTab>
    var activeTab: string
    var snippets: seq<Snippet>
    var blocks: seq<WorkspaceBlock>
    var globals: seq<GlobalVariable>
    var handlers: seq<EventHandler>
    var docs: seq<Documentation>
    var dragged: Option<Snippet>
    var editingDoc: Option<Documentation>
    var searchQuery: string
    var filterCategory: Option<DocCategory>

    /** The initial state: the catalog, the registry, an empty workspace. */
    constructor()
      ensures tabs == Catalog.DefaultTabs() && activeTab == "utilities"
      ensures snippets == Catalog.DefaultSnippets() && handlers == Handlers.DefaultEventHandlers()
      ensures blocks == [] && globals == [] && docs == []
      ensures dragged == None && editingDoc == None
      ensures searchQuery == "" && filterCategory == None
    {
      tabs := Catalog.DefaultTabs();
      activeTab := "utilities";
      snippets := Catalog.DefaultSnippets();
      blocks := [];
      globals := [];
      handlers := Handlers.DefaultEventHandlers();
      docs := [];
      dragged := None;
      editingDoc := None;
      searchQuery := "";
      filterCategory := None;
    }

    /** The record the page saves after every change: the lists, with only the custom
        snippets. */
    function Snapshot(): (s: SavedState)
      reads this
      ensures s.snippets == Some(Views.SavedSnippets(snippets))
      ensures s.globalVariables == Some(globals) && s.eventHandlers == Some(handlers)
      ensures s.documentations == Some(docs) && s.workspaceBlocks == Some(blocks)
    {
      SavedState(Some(globals), Some(handlers), Some(docs), Some(blocks), Some(Views.SavedSnippets(snippets)))
    }

    /** The load on mount: every list that is present replaces the current one, and the
        snippets become the catalog followed by the saved custom snippets. */
    method Load(saved: Option<SavedState>)
      modifies this`globals, this`handlers, this`docs, this`blocks, this`snippets
      ensures saved.None? ==> globals == old(globals) && handlers == old(handlers) && docs == old(docs)
                              && blocks == old(blocks) && snippets == old(snippets)
      ensures saved.Some? ==>
        && globals == saved.value.globalVariables.GetOr(old(globals))
        && handlers == saved.value.eventHandlers.GetOr(old(handlers))
        && docs == saved.value.documentations.GetOr(old(docs))
        && blocks == saved.value.workspaceBlocks.GetOr(old(blocks))
        && snippets == (if saved.value.snippets.Some?
                        then Views.LoadedSnippets(Catalog.DefaultSnippets(), saved.value.snippets.value)
                        else old(snippets))
    {
      if saved.Some? {
        var st := saved.value;
        if st.globalVariables.Some? { globals := st.globalVariables.value; }
        if st.eventHandlers.Some? { handlers := st.eventHandlers.value; }
        if st.documentations.Some? { docs := st.documentations.value; }
        if st.workspaceBlocks.Some? { blocks := st.workspaceBlocks.value; }
        if st.snippets.Some? { snippets := Views.LoadedSnippets(Catalog.DefaultSnippets(), st.snippets.value); }
      }
    }

    /** Reloading what was saved restores every list, provided the snippets are the
        catalog followed by custom snippets. */
    method Reload()
      requires |snippets| >= |Catalog.DefaultSnippets()|
      requires snippets[..|Catalog.DefaultSnippets()|] == Catalog.DefaultSnippets()
      requires forall i :: |Catalog.DefaultSnippets()| <= i < |snippets| ==> snippets[i].isCustom
      modifies this`globals, this`handlers, this`docs, this`blocks, this`snippets
      ensures globals == old(globals) && handlers == old(handlers) && docs == old(docs)
      ensures blocks == old(blocks) && snippets == old(snippets)
    {
      var d := Catalog.DefaultSnippets();
      var custom := snippets[|d|..];
      assert snippets == d + custom;
      Views.CatalogRoundTrip(custom, []);
      Load(Some(Snapshot()));
    }

    method SelectTab(tab: string)
      modifies this`activeTab
      ensures activeTab == tab
    {
      activeTab := tab;
    }

    method ToggleEventHandler(id: string)
      modifies this`handlers
      ensures handlers == Workspace.ToggleHandler(old(handlers), id)
    {
      handlers := Workspace.ToggleHandler(handlers, id);
    }

    method UpdateGlobal(id: string, value: Value)
      modifies this`globals
      ensures globals == Workspace.UpdateGlobal(old(globals), id, value)
      ensures Workspace.AllFlagsConsistent(old(globals)) ==> Workspace.AllFlagsConsistent(globals)
    {
      if Workspace.AllFlagsConsistent(globals) {
        Workspace.UpdateResetKeepFlags(globals, id, value);
      }
      globals := Workspace.UpdateGlobal(globals, id, value);
    }

    method DeleteGlobal(id: string, confirmed: bool)
      modifies this`globals
      ensures globals == Workspace.DeleteGlobal(old(globals), id, confirmed)
    {
      globals := Workspace.DeleteGlobal(globals, id, confirmed);
    }

    method ResetGlobal(id: string)
      modifies this`globals
      ensures globals == Workspace.ResetGlobal(old(globals), id)
      ensures Workspace.AllFlagsConsistent(old(globals)) ==> Workspace.AllFlagsConsistent(globals)
    {
      if Workspace.AllFlagsConsistent(globals) {
        Workspace.UpdateResetKeepFlags(globals, id, Num(0.0));
      }
      globals := Workspace.ResetGlobal(globals, id);
    }

    method DragStart(s: Snippet)
      modifies this`dragged
      ensures dragged == Some(s)
    {
      dragged := Some(s);
    }

    /** `handleDrop` with the drop-time stamps as parameters: without a dragged snippet
        nothing happens; otherwise the block `block-<blockStamp>` is appended and the
        snippet's globals with a new name are appended as `Workspace.DropGlobals` does. */
    method Drop(blockStamp: string, globalStamp: string)
      modifies this`blocks, this`globals, this`dragged
      ensures old(dragged).None? ==> blocks == old(blocks) && globals == old(globals) && dragged == None
      ensures old(dragged).Some? ==>
        && blocks == old(blocks) + [Workspace.DroppedBlock(old(blocks), old(dragged).value, "block-" + blockStamp)]
        && globals == Workspace.DropGlobals(old(globals), old(dragged).value, "block-" + blockStamp, globalStamp)
        && dragged == None
      ensures Workspace.NamesUnique(old(globals))
              && (old(dragged).Some? ==> Workspace.NamesUnique(old(dragged).value.globalVariables))
              ==> Workspace.NamesUnique(globals)
      ensures Workspace.AllFlagsConsistent(old(globals))
              && (old(dragged).Some? ==> Workspace.AllFlagsConsistent(old(dragged).value.globalVariables))
              ==> Workspace.AllFlagsConsistent(globals)
    {
      if dragged.Some? {
        var s := dragged.value;
        var blockId := "block-" + blockStamp;
        if Workspace.NamesUnique(globals) && Workspace.NamesUnique(s.globalVariables) {
          Workspace.DropKeepsNamesUnique(globals, s, blockId, globalStamp);
        }
        if Workspace.AllFlagsConsistent(globals) && Workspace.AllFlagsConsistent(s.globalVariables) {
          Workspace.DropKeepsFlags(globals, s, blockId, globalStamp);
        }
        blocks, globals := blocks + [Workspace.DroppedBlock(blocks, s, blockId)],
                           Workspace.DropGlobals(globals, s, blockId, globalStamp);
        dragged := None;
      }
    }

    method DeleteBlock(id: string)
      modifies this`blocks, this`globals
      ensures (blocks, globals) == Workspace.DeleteBlock(old(blocks), old(globals), id)
      ensures Workspace.Covered(old(blocks), old(globals)) ==> Workspace.Covered(blocks, globals)
      ensures Workspace.AllFlagsConsistent(old(globals)) ==> Workspace.AllFlagsConsistent(globals)
    {
      if Workspace.Covered(blocks, globals) {
        Workspace.DeleteBlockKeepsCovered(blocks, globals, id);
      }
      if Workspace.AllFlagsConsistent(globals) {
        Workspace.DeleteBlockKeepsFlags(blocks, globals, id);
      }
      var r := Workspace.DeleteBlock(blocks, globals, id);
      blocks, globals := r.0, r.1;
    }

    method ToggleExpand(id: string)
      modifies this`blocks
      ensures blocks == Workspace.ToggleExpand(old(blocks), id)
    {
      blocks := Workspace.ToggleExpand(blocks, id);
    }

    /** `handleAddCustomSnippet` with the form's fields and the stamp as parameters. */
    method AddCustomSnippet(name: string, description: string, code: string, stamp: string)
      modifies this`snippets
      ensures snippets == Workspace.AddCustomSnippet(old(snippets), name, description, code, activeTab, stamp)
    {
      snippets := Workspace.AddCustomSnippet(snippets, name, description, code, activeTab, stamp);
    }

    /** `handleViewDoc` and `handleEditDoc` (which do the same): open the entry. */
    method EditDoc(d: Documentation)
      modifies this`editingDoc
      ensures editingDoc == Some(d)
    {
      editingDoc := Some(d);
    }

    method SaveDoc(data: DocData, now: string, stamp: string)
      modifies this`docs, this`editingDoc
      ensures docs == Workspace.SaveDoc(old(docs), old(editingDoc), data, now, stamp)
      ensures editingDoc == None
    {
      docs := Workspace.SaveDoc(docs, editingDoc, data, now, stamp);
      editingDoc := None;
    }

    method DeleteDoc(id: string, confirmed: bool)
      modifies this`docs
      ensures docs == Workspace.DeleteDoc(old(docs), id, confirmed)
    {
      docs := Workspace.DeleteDoc(docs, id, confirmed);
    }

    method TogglePin(id: string)
      modifies this`docs
      ensures docs == Workspace.TogglePin(old(docs), id)
    {
      docs := Workspace.TogglePin(docs, id);
    }

    method ClearAll(confirmed: bool)
      modifies this`blocks, this`globals
      ensures (blocks, globals) == Workspace.ClearAll(old(blocks), old(globals), confirmed)
    {
      var r := Workspace.ClearAll(blocks, globals, confirmed);
      blocks, globals := r.0, r.1;
    }

    /** The snippet cards the library shows. */
    function ShownSnippets(): (r: seq<Snippet>)
      reads this
      ensures r == Views.FilteredSnippets(snippets, activeTab, searchQuery)
      ensures forall i :: 0 <= i < |r| ==> r[i] in snippets
    {
      Views.FilteredSnippets(snippets, activeTab, searchQuery)
    }

    /** The documentation cards, in display order. */
    function ShownDocs(time: string -> int): (r: seq<Documentation>)
      reads this
      ensures r == Views.FilteredDocs(docs, searchQuery, filterCategory, time)
      ensures forall i :: 0 <= i < |r| ==> r[i] in docs
    {
      Views.FilteredDocs(docs, searchQuery, filterCategory, time)
    }
  }
}
