# MQL5 Builder — a verified model of its core

MQL5 Builder is a browser application for composing MetaTrader 5 expert advisors from
code snippets. Its dashboard page holds a snippet library, a workspace of dropped
blocks, the global input variables the blocks create, the MQL5 event handlers to
generate, and a set of documentation notes. A separate trading-journal page records
trades and shows per-day and per-month statistics. This project models the state
transitions and pure computations of those pages and their components in Dafny:

| module | file | models |
|---|---|---|
| `Seqs`, `Text` | seqs.dfy, text.dfy | list and string building blocks (`filter`, `map`, `split`, `join`, `trim`, `toLowerCase`, `includes`, `substring`, string `<`) |
| `Types` | types.dfy | the record shapes and enumerations of `lib/types.ts` |
| `Handlers` | handlers.dfy | the event-handler registry, its grouping, the enabled filter and stub generation |
| `Catalog` | catalog.dfy | the built-in snippet catalog with its embedded globals, and the library tabs |
| `Workspace` | workspace.dfy | the dashboard's list transitions (toggle, update, reset, delete, drop, delete block, clear, custom snippet, documentation save/delete/pin) |
| `Views` | views.dfy | the snippet filter, the documentation filter and order, the counters, the custom-snippet save/load split |
| `Page` | dashboard.dfy | the dashboard page as a class whose methods apply those transitions to its fields |
| `Legacy` | legacy.dfy | the earlier dashboard page with its other drop and delete rules, compared with the current one |
| `VariableEditor` | value_editor.dfy | the global-variable editor: validation, conversion on save, stepping, the bool toggle, and the editor's state machine |
| `HandlerPanel` | handler_panel.dfy | the event-handler tab and sidebar: group partition, accordion, required guard, presets (a loop over the page), dependency icon |
| `TradingJournal` | journal.dfy | trade filter, daily and monthly statistics, tile colour, adding a trade, CSV export |
| `DocPanel` | doc_panel.dfy | the documentation card (preview, tag chips) and the editor dialog (fields, tag parse/join, save) |
| `Navigation` | navigation.dfy | the application sidebar: entries, current page, click action, expanded state |

Modelling conventions:

- JavaScript numbers are exact `real`s; NaN is the separate `Value` constructor `NaN`.
- `parseFloat`, `parseInt` and `String(number)` are parameters of `VariableEditor.Numerics`, with `None` standing for NaN.
- The calendar-day key of a trade (`format(parseISO(dateTime), 'yyyy-MM-dd')`) is the parameter `dayKey`; the month test of the year view is `inMonth`.
- Timestamps (`Date.now()`, `toISOString()`) are `stamp`/`now` string parameters; `new Date(updatedAt).getTime()` is the parameter `time`. One `now` stands for every `new Date()` of a single handler, so `Workspace.SaveDoc` (page.tsx:218-219) and `TradingJournal.NewTrade` (trading-journal/page.tsx:157, 163) give the two stamps they take the same value, where the source's two clock reads may differ by a tick. Likewise one `globalStamp` serves every global of a drop (`Page.Dashboard.Drop`, `Workspace.DropGlobals`), while page.tsx reads `Date.now()` once for the block (line 124) and again for each global inside the `.map` (line 137).
- A number input read with `parseFloat` holds NaN once it is cleared; the journal's form models such a field as `Option<real>` with `None` for NaN.
- `confirm(...)` answers are boolean parameters; `alert` is a returned flag.
- State kept with React `useState` becomes a class field that the class's methods reassign.
- Snippet code and handler templates are modelled as text; only the parts the contracts talk about are spelled out.

## Model

| member | source | states |
|---|---|---|
| Handlers.RegistryEntry | mql5-builder/lib/eventHandlers.ts:5-162 | each registry entry's id, name, category and dependencies come from its key, `displayName` equals `name`, and `enabled` equals `required` |
| Handlers.DefaultEventHandlers | mql5-builder/lib/eventHandlers.ts:3-162 | the registry is the fourteen keyed entries, in source order |
| Handlers.DefaultRegistryFlags | mql5-builder/lib/eventHandlers.ts:5-162 | fourteen handlers; exactly OnInit and OnDeinit are required; a handler starts enabled iff it is required; required handlers are lifecycle handlers |
| Handlers.DefaultRegistryDistinct | mql5-builder/lib/eventHandlers.ts:5-162 | handler ids are pairwise distinct and so are handler names |
| Handlers.HandlersByCategory | mql5-builder/lib/eventHandlers.ts:165-174 | each group holds exactly the handlers with its category (lifecycle without required ones; required as its own group) |
| Handlers.GroupsKeepRegistryOrder | mql5-builder/lib/eventHandlers.ts:165-174 | every group is an order-preserving subsequence of the input |
| Handlers.RegistryGroupsPartition | mql5-builder/lib/eventHandlers.ts:165-174 | when only lifecycle handlers are required, each handler lands in exactly one group |
| Handlers.EnabledHandlers | mql5-builder/lib/eventHandlers.ts:176-178 | the result holds exactly the enabled handlers and is no longer than the input |
| Handlers.EnabledKeepsOrder | mql5-builder/lib/eventHandlers.ts:176-178 | the enabled handlers keep their registry order |
| Handlers.EnabledPrefix | mql5-builder/lib/eventHandlers.ts:176-178 | when exactly the first n handlers are enabled, the enabled list is that prefix |
| Handlers.DefaultEnabledHandlers | mql5-builder/lib/eventHandlers.ts:5-178 | in the default registry the enabled handlers are OnInit then OnDeinit |
| Handlers.HandlerCodeShape | mql5-builder/lib/eventHandlers.ts:180-199 | the stub starts with the signature and ` {` and ends with `}`; OnInit's stub returns `INIT_SUCCEEDED`, OnDeinit's prints the deinit message, every other stub names the handler's display name |
| Handlers.HandlerCodeDependsOnTemplateFields | mql5-builder/lib/eventHandlers.ts:180-199 | the stub depends only on name, signature and display name |
| Catalog.CatalogEntry | mql5-builder/lib/snippets.ts:5-463 | each catalog snippet carries its key's id, name, category and globals and is not custom |
| Catalog.DefaultSnippets | mql5-builder/lib/snippets.ts:5-464 | the catalog is the twelve keyed snippets, in source order |
| Catalog.DefaultSnippetsWellFormed | mql5-builder/lib/snippets.ts:5-464 | twelve snippets with distinct ids and distinct names, each in one of the three library categories, none custom |
| Catalog.DefaultGlobalsWellFormed | mql5-builder/lib/snippets.ts:10-265 | every embedded global has its id equal to its name, is used by its own snippet only, starts unmodified at its default, and has its default within its bounds |
| Catalog.DefaultGlobalNamesDistinct | mql5-builder/lib/snippets.ts:10-265 | the catalog embeds six globals in all, with distinct names |
| Catalog.DefaultTabsWellFormed | mql5-builder/lib/snippets.ts:466-472 | tab ids are distinct, the three snippet tabs, the event-handler tab and the documentation tab are all present, and every tab is a default tab |
| Workspace.ToggleHandler | mql5-builder/app/page.tsx:71-77 | flips `enabled` of exactly the handlers with the id, with no required check, and leaves the others unchanged |
| Workspace.ToggleHandlerTwice | mql5-builder/app/page.tsx:71-77 | toggling twice restores the list |
| Workspace.ToggleHandlerCommutes | mql5-builder/app/page.tsx:71-77 | toggles of two ids commute |
| Workspace.ToggleExpand | mql5-builder/app/page.tsx:176-182 | flips `isExpanded` of exactly the blocks with the id |
| Workspace.ToggleExpandTwice | mql5-builder/app/page.tsx:176-182 | expanding twice restores the blocks |
| Workspace.TogglePin | mql5-builder/app/page.tsx:232-236 | flips `isPinned` of exactly the entries with the id |
| Workspace.TogglePinTwice | mql5-builder/app/page.tsx:232-236 | pinning twice restores the entries |
| Workspace.UpdateGlobal | mql5-builder/app/page.tsx:80-88 | the matching global gets the value and `isModified` iff the value is not strictly equal to its default; the others are unchanged |
| Workspace.ResetGlobal | mql5-builder/app/page.tsx:100-108 | the matching global gets its default back and `isModified` false; the others are unchanged |
| Workspace.UpdateResetKeepFlags | mql5-builder/app/page.tsx:80-108 | update and reset keep every `isModified` flag equal to "current differs from default" |
| Workspace.ResetUndoesUpdate | mql5-builder/app/page.tsx:80-108 | a reset after an update is the same as the reset alone |
| Workspace.UpdateToDefaultIsUnmodified | mql5-builder/app/page.tsx:80-88 | setting a global to its own default leaves it unmodified |
| Workspace.FindGlobal | mql5-builder/app/page.tsx:91 | finds a global with the id exactly when one exists, and it is the first such global in the list, as `find` returns |
| Workspace.DeleteGlobal | mql5-builder/app/page.tsx:90-98 | a global still used by a block is kept unless the deletion is confirmed; otherwise exactly the globals with the id are removed, and every other global keeps all its copies |
| Workspace.DeleteGlobalKeepsOrder | mql5-builder/app/page.tsx:90-98 | deletion keeps the order of the remaining globals |
| Workspace.DroppedBlock | mql5-builder/app/page.tsx:121-129 | the new block carries the snippet and its id, is collapsed, lies in the main section, and is positioned at the number of main-section blocks |
| Workspace.Instances | mql5-builder/app/page.tsx:135-138 | each snippet global, in snippet order, with the stamped id and the new block as its only user |
| Workspace.DropGlobals | mql5-builder/app/page.tsx:131-145 | the existing globals are kept unchanged, in front; each snippet global with a new name is appended, instantiated for the block; every appended global is an instantiated snippet global whose name is new, used by the new block only |
| Workspace.DropKeepsSnippetOrder | mql5-builder/app/page.tsx:134-142 | the appended globals are a subsequence of the snippet's instantiated globals, so they keep the snippet's order |
| Workspace.DropKeepsNamesUnique | mql5-builder/app/page.tsx:131-145 | a drop keeps global names unique |
| Workspace.DropKeepsFlags | mql5-builder/app/page.tsx:131-145 | a drop keeps every `isModified` flag consistent |
| Workspace.WithoutUser | mql5-builder/app/page.tsx:160 | the remaining users are exactly the entries of the `usedBy` list other than the block id: none is the id, each comes from the list, and every other user keeps all its copies |
| Workspace.WithoutUserKeepsOrder | mql5-builder/app/page.tsx:160 | the remaining users keep their order |
| Workspace.RemovedWithBlockIff | mql5-builder/app/page.tsx:157-166 | a global goes with the block iff it listed the block and no other user remains |
| Workspace.DeleteBlockGlobals | mql5-builder/app/page.tsx:157-166 | no remaining global lists the block; every global that still has a user survives with the block id stripped; every survivor comes from the input |
| Workspace.DeleteBlockGlobalsIsFilterMap | mql5-builder/app/page.tsx:157-166 | the one-pass definition equals the source's `filter` of the globals not taken with the block followed by the `map` that strips the block id |
| Workspace.DeleteBlockGlobalsKeepsOrder | mql5-builder/app/page.tsx:157-166 | the survivors are a subsequence of the stripped globals, so they keep their order |
| Workspace.DeleteBlock | mql5-builder/app/page.tsx:149-174 | removes exactly the blocks with the id, every other block keeping all its copies; the globals change only when such a block exists |
| Workspace.DeleteBlockKeepsOrder | mql5-builder/app/page.tsx:149-174 | the remaining blocks keep their order |
| Workspace.DeleteBlockKeepsFlags | mql5-builder/app/page.tsx:149-174 | deleting a block keeps every `isModified` flag consistent |
| Workspace.DeleteBlockKeepsCovered | mql5-builder/app/page.tsx:149-174 | when every block's snippet globals are provided to it, that still holds after a block is deleted |
| Workspace.ClearAll | mql5-builder/app/page.tsx:322-327 | a confirmed clear of a non-empty workspace empties blocks and globals; otherwise nothing changes |
| Workspace.CustomCategory | mql5-builder/app/page.tsx:193 | a custom snippet created on the utilities tab is a Utility, on the indicators tab an Indicator, on any other tab a Pre-made Function |
| Workspace.AddCustomSnippet | mql5-builder/app/page.tsx:185-199 | with a name and code, exactly one custom snippet is appended with the active tab's category; without either nothing changes |
| Workspace.SaveDoc | mql5-builder/app/page.tsx:202-224 | editing replaces the fields of exactly the entry being edited and stamps `updatedAt`; a new entry is appended with both stamps set |
| Workspace.SaveDocKeepsIdentity | mql5-builder/app/page.tsx:204-212 | an edit keeps the entry's id and creation time |
| Workspace.DeleteDoc | mql5-builder/app/page.tsx:226-230 | a confirmed delete keeps exactly the entries with another id: no entry has the id, each comes from the list, and every other entry keeps all its copies; otherwise nothing changes |
| Workspace.DeleteDocKeepsOrder | mql5-builder/app/page.tsx:226-230 | the remaining entries keep their order |
| Workspace.AsWrittenDropLosesSharedGlobal | mql5-builder/app/page.tsx:134-166 | a global shared by name between two dropped blocks is removed when the first block is deleted, though the second still uses it |
| Workspace.DropGlobalsSharing | mql5-builder/app/page.tsx:134-142 | corrected drop: an existing global with a dropped name gains the new block as a user; new names are appended as before |
| Workspace.DropSharingKeepsInvariants | mql5-builder/app/page.tsx:134-142 | the corrected drop keeps names unique and flags consistent |
| Workspace.DropSharingKeepsCovered | mql5-builder/app/page.tsx:134-142 | after the corrected drop every block's snippet globals are provided to it |
| Views.TabCategory | mql5-builder/app/page.tsx:266-270 | exactly the three library tabs map to a category |
| Views.FilteredSnippets | mql5-builder/app/page.tsx:263-278 | nothing on the documentation and event-handler tabs; elsewhere exactly the snippets of the tab's category that match the search |
| Views.FilteredSnippetsKeepOrder | mql5-builder/app/page.tsx:263-278 | the shown snippets keep their library order |
| Views.EmptyQueryShowsCategory | mql5-builder/app/page.tsx:272-273 | with an empty search a library tab shows exactly its category |
| Views.UnknownTabShowsNothing | mql5-builder/app/page.tsx:266-272 | a tab with no category shows nothing |
| Views.InsertDoc | mql5-builder/app/page.tsx:289-294 | inserting adds exactly one entry |
| Views.SortDocs | mql5-builder/app/page.tsx:289-294 | sorting is a permutation |
| Views.InsertDocOrdered | mql5-builder/app/page.tsx:289-294 | insertion into an ordered list keeps it ordered |
| Views.SortDocsOrdered | mql5-builder/app/page.tsx:289-294 | the sorted list has pinned entries first and newer entries before older ones |
| Views.FilteredDocs | mql5-builder/app/page.tsx:280-294 | the shown entries are exactly the matching ones (as a multiset) |
| Views.FilteredDocsOrder | mql5-builder/app/page.tsx:289-294 | no unpinned entry precedes a pinned one, and within a pin group update times do not increase |
| Views.ModifiedCountMatchesValues | mql5-builder/app/page.tsx:297 | with consistent flags, the modified counter counts the globals whose value differs from the default |
| Views.ToggleChangesCountByOne | mql5-builder/app/page.tsx:71-77 | toggling a handler with a unique id moves the enabled counter by exactly one |
| Views.SavedSnippets | mql5-builder/app/page.tsx:63 | the saved snippets are exactly the custom ones |
| Views.LoadedSnippets | mql5-builder/app/page.tsx:50-53 | loading puts the catalog first, followed only by saved custom snippets |
| Views.SaveLoadRoundTrip | mql5-builder/app/page.tsx:50-63 | catalog plus custom snippets survive a save and a load |
| Views.SaveAfterLoadIsStable | mql5-builder/app/page.tsx:50-63 | saving what was loaded saves the same custom snippets |
| Views.CatalogRoundTrip | mql5-builder/app/page.tsx:50-63 | the round trip for the built-in catalog |
| Page.Dashboard.constructor | mql5-builder/app/page.tsx:22-39 | the page starts with the catalog, the registry, an empty workspace and no search |
| Page.Dashboard.Snapshot | mql5-builder/app/page.tsx:59-68 | what is saved: all lists, with only the custom snippets |
| Page.Dashboard.Load | mql5-builder/app/page.tsx:41-56 | each present list replaces the current one; snippets become the catalog and the saved custom snippets |
| Page.Dashboard.Reload | mql5-builder/app/page.tsx:41-68 | loading what was saved leaves every list unchanged |
| Page.Dashboard.SelectTab | mql5-builder/app/page.tsx:23 | selects the library tab |
| Page.Dashboard.ToggleEventHandler | mql5-builder/app/page.tsx:71-77 | applies `Workspace.ToggleHandler` to the handlers |
| Page.Dashboard.UpdateGlobal | mql5-builder/app/page.tsx:80-88 | applies the update and keeps the flags consistent |
| Page.Dashboard.DeleteGlobal | mql5-builder/app/page.tsx:90-98 | applies the guarded deletion |
| Page.Dashboard.ResetGlobal | mql5-builder/app/page.tsx:100-108 | applies the reset and keeps the flags consistent |
| Page.Dashboard.DragStart | mql5-builder/app/page.tsx:111-113 | remembers the dragged snippet |
| Page.Dashboard.Drop | mql5-builder/app/page.tsx:119-147 | without a dragged snippet nothing happens; otherwise one block and the as-written globals are added and the drag ends; unique names and consistent flags are kept |
| Page.Dashboard.DeleteBlock | mql5-builder/app/page.tsx:149-174 | applies `Workspace.DeleteBlock`, keeping flags and block coverage |
| Page.Dashboard.ToggleExpand | mql5-builder/app/page.tsx:176-182 | applies the expand toggle |
| Page.Dashboard.AddCustomSnippet | mql5-builder/app/page.tsx:185-199 | adds the custom snippet for the active tab |
| Page.Dashboard.EditDoc | mql5-builder/app/page.tsx:238-246 | opens the entry for editing |
| Page.Dashboard.SaveDoc | mql5-builder/app/page.tsx:202-224 | saves the entry and closes the editor |
| Page.Dashboard.DeleteDoc | mql5-builder/app/page.tsx:226-230 | applies the confirmed delete |
| Page.Dashboard.TogglePin | mql5-builder/app/page.tsx:232-236 | applies the pin toggle |
| Page.Dashboard.ClearAll | mql5-builder/app/page.tsx:322-327 | applies the confirmed clear |
| Page.Dashboard.ShownSnippets | mql5-builder/app/page.tsx:263-278 | the cards shown are the library filtered by the page's tab and search query (`Views.FilteredSnippets`), so all are library snippets |
| Page.Dashboard.ShownDocs | mql5-builder/app/page.tsx:280-294 | the cards shown are the stored entries searched, filtered and sorted by `Views.FilteredDocs`, so all are stored entries |
| Legacy.LegacyDropGlobals | mql5-builder/app/page-old.tsx:111-135 | the legacy drop keeps the existing globals and appends the snippet's globals with a new name verbatim |
| Legacy.LegacyDropKeepsOrder | mql5-builder/app/page-old.tsx:111-135 | the appended globals are a subsequence of the snippet's globals, so they keep the snippet's order |
| Legacy.LegacyDropKeepsNamesUnique | mql5-builder/app/page-old.tsx:111-135 | the legacy drop keeps names unique |
| Legacy.FindBlock | mql5-builder/app/page-old.tsx:138 | finds a block with the id exactly when one exists, and it is the first such block in the list, as `find` returns |
| Legacy.DeclaredIds | mql5-builder/app/page-old.tsx:140 | the ids the block's snippet declares, in order |
| Legacy.LegacyDeleteBlock | mql5-builder/app/page-old.tsx:137-146 | removes the blocks with the id and, when one existed, every global whose id its snippet declares |
| Legacy.LegacyDeleteBlockKeepsOrder | mql5-builder/app/page-old.tsx:137-146 | the remaining blocks and the remaining globals are subsequences of the old lists, so both keep their order |
| Legacy.DeleteRulesDiffer | mql5-builder/app/page-old.tsx:137-146 | a global declared by the deleted block and still used by another block is removed by the legacy rule and kept by the current one |
| Legacy.DeleteRulesAgreeOnPrivateGlobal | mql5-builder/app/page-old.tsx:137-146 | a global used only by the deleted block is removed by both rules |
| Legacy.LegacyFilteredSnippets | mql5-builder/app/page-old.tsx:235-250 | nothing on the documentation tab; shown snippets match tab and search |
| Legacy.FilterVersionsAgree | mql5-builder/app/page-old.tsx:235-250 | the legacy and current snippet filters give the same list |
| Legacy.LegacyClearAll | mql5-builder/app/page-old.tsx:295 | the legacy Clear All empties the blocks and keeps the globals |
| Legacy.LegacyDashboard.constructor | mql5-builder/app/page-old.tsx:16-33 | the legacy page starts with the catalog, the registry and an empty workspace |
| Legacy.LegacyDashboard.Load | mql5-builder/app/page-old.tsx:35-48 | each present list replaces the current one |
| Legacy.LegacyDashboard.ToggleEventHandler | mql5-builder/app/page-old.tsx:62-69 | applies the toggle |
| Legacy.LegacyDashboard.UpdateGlobal | mql5-builder/app/page-old.tsx:72-80 | applies the update |
| Legacy.LegacyDashboard.DeleteGlobal | mql5-builder/app/page-old.tsx:82-90 | applies the guarded deletion |
| Legacy.LegacyDashboard.ResetGlobal | mql5-builder/app/page-old.tsx:92-100 | applies the reset |
| Legacy.LegacyDashboard.DragStart | mql5-builder/app/page-old.tsx:103-105 | remembers the dragged snippet |
| Legacy.LegacyDashboard.Drop | mql5-builder/app/page-old.tsx:111-135 | appends one block and the legacy globals; unique names are kept |
| Legacy.LegacyDashboard.DeleteBlock | mql5-builder/app/page-old.tsx:137-146 | applies the legacy delete rule |
| Legacy.LegacyDashboard.ClearAll | mql5-builder/app/page-old.tsx:295 | empties the blocks only |
| Legacy.LegacyDashboard.ShownSnippets | mql5-builder/app/page-old.tsx:235-250 | the cards shown are the library under the legacy filter, so all are library snippets |
| VariableEditor.ValidateValue | mql5-builder/components/GlobalVariableBlock.tsx:37-49 | a number kind accepts exactly text that parses as a float within the bounds; bool accepts exactly `true` and `false`; other kinds accept anything |
| VariableEditor.SaveValue | mql5-builder/components/GlobalVariableBlock.tsx:53-56 | int text is stored as `parseInt`, double as `parseFloat`, bool as `text == "true"`, the rest as the text |
| VariableEditor.SavedDoubleInBounds | mql5-builder/components/GlobalVariableBlock.tsx:37-56 | a validated double is stored as a number within the bounds |
| VariableEditor.SaveShowRoundTrip | mql5-builder/components/GlobalVariableBlock.tsx:51-57 | a saved string value shows as the text typed |
| VariableEditor.AsWrittenIntSaveEscapesBounds | mql5-builder/components/GlobalVariableBlock.tsx:37-53 | the text `15e-1` passes validation for an int with maximum 10 and is stored as 15 |
| VariableEditor.ValidateSaved | mql5-builder/components/GlobalVariableBlock.tsx:37-53 | corrected validation: checks the value that will be stored |
| VariableEditor.ValidateSavedKeepsBounds | mql5-builder/components/GlobalVariableBlock.tsx:37-56 | under the corrected validation every stored number lies within the bounds |
| VariableEditor.StepOf | mql5-builder/components/GlobalVariableBlock.tsx:80-100 | the step is the variable's non-zero step, else 1 |
| VariableEditor.Incremented | mql5-builder/components/GlobalVariableBlock.tsx:80-89 | a step up happens iff the text is a number and the result does not exceed the maximum |
| VariableEditor.Decremented | mql5-builder/components/GlobalVariableBlock.tsx:91-100 | a step down happens iff the text is a number and the result is not below the minimum |
| VariableEditor.StepsKeepInBounds | mql5-builder/components/GlobalVariableBlock.tsx:80-100 | from a value within the bounds, steps stay within the bounds |
| VariableEditor.DecrementUndoesIncrement | mql5-builder/components/GlobalVariableBlock.tsx:80-100 | with a round-tripping number display, a step down undoes a step up |
| VariableEditor.BoolToggleValue | mql5-builder/components/GlobalVariableBlock.tsx:165 | the toggle sends the negated truthiness of the current value |
| VariableEditor.BoolToggleTwice | mql5-builder/components/GlobalVariableBlock.tsx:165 | two toggles of a boolean restore it |
| VariableEditor.ValueEditor.constructor | mql5-builder/components/GlobalVariableBlock.tsx:20-22 | the editor starts closed, valid, showing the current value |
| VariableEditor.ValueEditor.StartEdit | mql5-builder/components/GlobalVariableBlock.tsx:32-35 | opens editing with the current value |
| VariableEditor.ValueEditor.Type | mql5-builder/components/GlobalVariableBlock.tsx:183 | the typed text becomes the edit value |
| VariableEditor.ValueEditor.Save | mql5-builder/components/GlobalVariableBlock.tsx:51-64 | a valid text is converted and sent, closing the editor; an invalid one marks the editor invalid and sends nothing |
| VariableEditor.ValueEditor.Cancel | mql5-builder/components/GlobalVariableBlock.tsx:66-70 | closes, restores the current value and clears the error |
| VariableEditor.ValueEditor.KeyDown | mql5-builder/components/GlobalVariableBlock.tsx:72-78 | Enter saves as `Save` does (a valid text yields the converted value and ends editing; an invalid one yields nothing, keeps the editing state and marks the editor invalid), Escape cancels, other keys change nothing |
| VariableEditor.ValueEditor.Increment | mql5-builder/components/GlobalVariableBlock.tsx:80-89 | applies the bounded step up to the edit text |
| VariableEditor.ValueEditor.Decrement | mql5-builder/components/GlobalVariableBlock.tsx:91-100 | applies the bounded step down to the edit text |
| HandlerPanel.GroupIdsDistinct | mql5-builder/components/EventHandlerTab.tsx:23-30 | the panel's group ids are distinct |
| HandlerPanel.PanelGroup | mql5-builder/components/EventHandlerTab.tsx:16-21 | each panel group holds exactly its handlers |
| HandlerPanel.GroupsOf | mql5-builder/components/EventHandlerTab.tsx:16-21 | lists exactly the groups a handler falls in |
| HandlerPanel.GroupsPartition | mql5-builder/components/EventHandlerTab.tsx:16-21 | a handler lies in one group, except a required handler of a category other than trading and lifecycle, which lies in two |
| HandlerPanel.DefaultRegistryGroupsPartition | mql5-builder/components/EventHandlerSidebar.tsx:16-21 | every registry handler lies in exactly one group |
| HandlerPanel.AtMostOneOpen | mql5-builder/components/EventHandlerTab.tsx:32-34 | at most one collapsible group is open |
| HandlerPanel.ShowsDependencyIcon | mql5-builder/components/EventHandlerSidebar.tsx:130 | the tab shows the icon iff the dependency list is non-empty; the sidebar iff it is present |
| HandlerPanel.FormsDisagreeOnEmptyDependencies | mql5-builder/components/EventHandlerTab.tsx:139 | the two forms differ exactly on an empty dependency list |
| HandlerPanel.DescriptionLine | mql5-builder/components/EventHandlerTab.tsx:136 | the first min(60, length) characters of the description, then `...`; a description of 60 characters or fewer is shown whole |
| HandlerPanel.Preset | mql5-builder/components/EventHandlerTab.tsx:59-79 | a preset enables exactly the named handlers and touches nothing else |
| HandlerPanel.ToggleAllPrefix | mql5-builder/components/EventHandlerTab.tsx:61-65 | toggling the picks of the first k handlers gives the preset applied to those k |
| HandlerPanel.PresetToggles | mql5-builder/components/EventHandlerTab.tsx:61-65 | with distinct ids, toggling every disabled named handler is the preset |
| HandlerPanel.PresetPicksNothingAfter | mql5-builder/components/EventHandlerTab.tsx:61-65 | after a preset no handler is picked again |
| HandlerPanel.PresetIdempotent | mql5-builder/components/EventHandlerSidebar.tsx:56-78 | applying a preset twice is applying it once |
| HandlerPanel.DefaultPresets | mql5-builder/components/EventHandlerTab.tsx:59-79 | on the registry, Standard enables OnTick, Time-Based OnTick and OnTimer, and nothing else changes |
| HandlerPanel.ApplyPreset | mql5-builder/components/EventHandlerTab.tsx:59-79 | the preset loop toggles the picked handlers on the page, which with distinct ids is the preset |
| HandlerPanel.ClickHandler | mql5-builder/components/EventHandlerSidebar.tsx:114-115 | a click on a required handler changes nothing; on any other it toggles it |
| HandlerPanel.Accordion.constructor | mql5-builder/components/EventHandlerTab.tsx:13 | the trading group starts open |
| HandlerPanel.Accordion.ToggleCategory | mql5-builder/components/EventHandlerSidebar.tsx:32-34 | re-selecting the open group closes it; any other becomes the open one |
| HandlerPanel.Accordion.ClickHeader | mql5-builder/components/EventHandlerTab.tsx:94 | the required group's header does nothing; others toggle |
| TradingJournal.FilteredTrades | mql5-builder/app/trading-journal/page.tsx:132-143 | exactly the trades meeting every active criterion are kept |
| TradingJournal.FilteredTradesKeepOrder | mql5-builder/app/trading-journal/page.tsx:132-143 | the filtered trades keep their order |
| TradingJournal.InitialFiltersKeepAll | mql5-builder/app/trading-journal/page.tsx:132-143 | the initial criteria keep every trade |
| TradingJournal.SameDayRange | mql5-builder/app/trading-journal/page.tsx:139-140 | with start and end the same day, exactly that day's trades are kept |
| TradingJournal.WinRate | mql5-builder/app/trading-journal/page.tsx:116 | 0 without trades, otherwise wins per trade times 100, always in [0, 100] |
| TradingJournal.DirectionNeedsATrade | mql5-builder/app/trading-journal/page.tsx:111-115 | trades with a positive P/L total include a win, and with a negative total a loss |
| TradingJournal.DayTrades | mql5-builder/app/trading-journal/page.tsx:108-110 | the day's trades are exactly the recorded trades that pass the filters and fall on that day |
| TradingJournal.DayComments | mql5-builder/app/trading-journal/page.tsx:117 | the first min(50, length) characters of the non-empty comments joined with `; ` |
| TradingJournal.BlankCommentAddsNothing | mql5-builder/app/trading-journal/page.tsx:117 | a trade without a comment does not change the day's comment text |
| TradingJournal.CalculateDailyStats | mql5-builder/app/trading-journal/page.tsx:107-129 | over the day's filtered trades: their number, the numbers with positive and negative P/L, the volume and P/L totals, the win rate of those counts and the day's comments; wins plus losses do not exceed the count; an empty day has zero totals and no comments |
| TradingJournal.AddTradeUpdatesDay | mql5-builder/app/trading-journal/page.tsx:107-166 | recording a trade the filters keep on that day adds one to the count, its volume and P/L to the totals and one to the win or loss count as its P/L says; any other trade leaves the day's figures unchanged |
| TradingJournal.DayDirectionNeedsATrade | mql5-builder/app/trading-journal/page.tsx:111-115 | a day in profit has a winning trade and a day at a loss a losing one |
| TradingJournal.MonthTrades | mql5-builder/app/trading-journal/page.tsx:321-324 | the month's trades are exactly the recorded trades that pass the filters and fall in the month |
| TradingJournal.CalculateMonthStats | mql5-builder/app/trading-journal/page.tsx:321-328 | over the month's filtered trades: their number, P/L total and number of wins, and the win rate of those counts |
| TradingJournal.MonthOfOneDay | mql5-builder/app/trading-journal/page.tsx:107-328 | when the month test picks exactly one day's trades, the month's count, total, wins and rate are that day's |
| TradingJournal.MonthTileHasWitness | mql5-builder/app/trading-journal/page.tsx:337-342 | a green month tile has a winning trade and a positive win rate |
| TradingJournal.TileClass | mql5-builder/app/trading-journal/page.tsx:199-204 | neutral without trades or at zero, positive iff trades and profit, negative iff trades and loss |
| TradingJournal.DayTileHasWitness | mql5-builder/app/trading-journal/page.tsx:199-204 | a green tile has a winning trade and a red one a losing trade |
| TradingJournal.InitialForm | mql5-builder/app/trading-journal/page.tsx:29-39 | the form opens empty, so incomplete |
| TradingJournal.NewTrade | mql5-builder/app/trading-journal/page.tsx:152-164 | the recorded trade: stamped id, upper-cased symbol, the form's date or now, the form's non-zero volume, its P/L or 0 when the input is NaN, and the form's other fields |
| TradingJournal.AddTrade | mql5-builder/app/trading-journal/page.tsx:146-166 | an incomplete form, including a NaN or zero volume, leaves the list unchanged; otherwise exactly the new trade is appended, with P/L 0 when the input is NaN |
| TradingJournal.InitialFormRefused | mql5-builder/app/trading-journal/page.tsx:146-150 | the fresh form is refused |
| TradingJournal.HeaderPlain | mql5-builder/app/trading-journal/page.tsx:184 | the header is one line of the nine column names |
| TradingJournal.CsvFields | mql5-builder/app/trading-journal/page.tsx:186 | a row has nine fields |
| TradingJournal.CsvLines | mql5-builder/app/trading-journal/page.tsx:183-188 | without line breaks in fields the export is the header and one row per filtered trade, in filter order |
| TradingJournal.CsvRowFields | mql5-builder/app/trading-journal/page.tsx:186 | without commas in fields a row splits back into its fields |
| TradingJournal.CommaInCommentAddsField | mql5-builder/app/trading-journal/page.tsx:186 | fields are not quoted: a comma in a comment gives ten fields |
| TradingJournal.JournalPage.constructor | mql5-builder/app/trading-journal/page.tsx:18-39 | no trades, the closed dialog, the initial form and filters |
| TradingJournal.JournalPage.SubmitTrade | mql5-builder/app/trading-journal/page.tsx:146-179 | an incomplete form alerts and changes nothing; otherwise the trade is added, the dialog closed and the form reset |
| TradingJournal.JournalPage.Shown | mql5-builder/app/trading-journal/page.tsx:132-143 | the listed trades are the page's trades under its filters (`FilteredTrades`), so all are recorded trades |
| DocPanel.ParseTags | mql5-builder/components/DocumentationComponents.tsx:138 | parsed tags are non-empty, trimmed and comma-free, no more than the pieces |
| DocPanel.TagsRoundTrip | mql5-builder/components/DocumentationComponents.tsx:121-138 | joining non-empty, trimmed, comma-free tags with `, ` and parsing gives them back |
| DocPanel.ParsedTagsArePlain | mql5-builder/components/DocumentationComponents.tsx:121-138 | saved tags survive the next edit unchanged |
| DocPanel.Preview | mql5-builder/components/DocumentationComponents.tsx:70 | the first min(120, length) characters of the content, then `...` |
| DocPanel.Chips | mql5-builder/components/DocumentationComponents.tsx:76 | the first min(3, n) tags |
| DocPanel.MoreCount | mql5-builder/components/DocumentationComponents.tsx:81-83 | the `+n more` note appears iff there are more than three tags, and counts the rest |
| DocPanel.Submitted | mql5-builder/components/DocumentationComponents.tsx:132-143 | something is saved iff title and content are non-empty, with the parsed tags |
| DocPanel.EditUnchangedRoundTrip | mql5-builder/components/DocumentationComponents.tsx:116-143 | opening an entry and saving it unchanged gives its own fields |
| DocPanel.DocModal.constructor | mql5-builder/components/DocumentationComponents.tsx:110-114 | the fields start from the entry, or blank with category general |
| DocPanel.DocModal.Open | mql5-builder/components/DocumentationComponents.tsx:116-130 | the fields copy the entry, or reset to blank with category general |
| DocPanel.DocModal.Save | mql5-builder/components/DocumentationComponents.tsx:132-143 | sends the submitted data and closes exactly when title and content are set |
| Navigation.NavItems | mql5-builder/components/Sidebar.tsx:21-65 | six entries |
| Navigation.NavItemsWellFormed | mql5-builder/components/Sidebar.tsx:21-65 | ids and paths are distinct; only dashboard and trading journal are available |
| Navigation.PageOfPath | mql5-builder/components/Sidebar.tsx:75-81 | every path maps to an entry's id |
| Navigation.CurrentPage | mql5-builder/components/Sidebar.tsx:73-82 | a non-empty prop wins, otherwise the path decides |
| Navigation.PathRoundTrip | mql5-builder/components/Sidebar.tsx:21-82 | each entry's path makes it the current page |
| Navigation.UnknownPathIsDashboard | mql5-builder/components/Sidebar.tsx:81 | an unknown path shows the dashboard |
| Navigation.ActiveEntryUnique | mql5-builder/components/Sidebar.tsx:155-159 | at most one entry is highlighted |
| Navigation.Click | mql5-builder/components/Sidebar.tsx:145-152 | an unavailable entry does nothing; an available one calls `onNavigate` with its id if given, else routes to its path |
| Navigation.ClickLandsOnItem | mql5-builder/components/Sidebar.tsx:145-152 | routing lands on the clicked entry's page, and only available entries act |
| Navigation.Sidebar.constructor | mql5-builder/components/Sidebar.tsx:71 | starts collapsed |
| Navigation.Sidebar.Restore | mql5-builder/components/Sidebar.tsx:87-92 | a stored state replaces the current one |
| Navigation.Sidebar.Toggle | mql5-builder/components/Sidebar.tsx:95-99 | flips the state and stores the new one |
| Navigation.Sidebar.KeyDown | mql5-builder/components/Sidebar.tsx:104-107 | Ctrl+B or Cmd+B toggles; other keys change nothing |
| Navigation.Sidebar.ToggleTwice | mql5-builder/components/Sidebar.tsx:95-99 | two toggles restore the state |
| Text.Split | mql5-builder/components/DocumentationComponents.tsx:138 | `split` on one character gives at least one piece, none containing it |
| Text.Trim | mql5-builder/components/DocumentationComponents.tsx:138 | `trim` leaves no white space at either end |
| Text.LexTrichotomy | mql5-builder/app/trading-journal/page.tsx:139-140 | string `<` is a strict total order |

## Left out

- `assembleCode`, `downloadCode` and `getCodeStatistics` come from `@/lib/utils`, which is not part of this model; the code preview, download and statistics panel are left out with them.
- The `Trade` and `FilterOptions` types of the journal are not declared in `lib/types.ts`; `TradingJournal.Trade` and `TradingJournal.Filters` follow the fields the journal page reads.
- local storage, JSON encoding and the `try/catch` around loading: the model takes the parsed record (`Page.SavedState`, `Legacy.LegacySavedState`, `Navigation.Sidebar.Restore`'s argument) as input; the journal's load, its save guard and sample data are left out.
- date-fns (`format`, `parseISO`, `startOfMonth`, `addDays`, time zones) and the calendar loops that build the month, week and year grids: the day key and the month test are parameters, and the grid layout is presentation.
- JavaScript floating point, `toFixed` rounding and the exact grammar of `parseFloat`/`parseInt`: numbers are exact, parsing and display are abstract.
- `new Date(updatedAt).getTime()` for an unparsable date (NaN in the comparator) is not modelled: `time` is a total function to integers.
- `confirm`, `alert`, the clipboard, Blob/URL download, drag events, focus handling and the router: confirmations are boolean inputs, the alert a returned flag, routing a returned action.
- JSX rendering, styling and the presentation-only components (WorkspaceBlock.tsx, SnippetCard.tsx, ComingSoonPage.tsx, layout.tsx); the hovered-handler tooltip state.
- The text of snippet code and handler templates beyond what the contracts use; `Template` and a block's `parameters` record, which no modelled operation reads.
- Form field setters (`setNewSnippet`, `setFormData`, the filter panel inputs) other than the values the handlers read; the legacy page's documentation handlers, which repeat the current page's.
- The wiring between the dashboard and the documentation components (the page passes props the components do not read): the components are modelled by their own props.
- Case mapping in `Text.Lower`/`Text.Upper` covers ASCII letters only; other characters are left as they are.
- Page.Dashboard.Drop: keeps the source's drop, which does not add the new block to an existing same-named global's `usedBy`; the corrected rule is `Workspace.DropGlobalsSharing` (see Findings).
- VariableEditor.ValueEditor.Save: keeps the source's validation by `parseFloat` for int variables; the corrected check is `VariableEditor.ValidateSaved` (see Findings).

## Findings

| source | as written | input that shows it | evidently intended | confidence | as-written member | corrected member |
|---|---|---|---|---|---|---|
| mql5-builder/app/page.tsx:134-166 | a dropped snippet whose global name already exists neither creates a global nor adds the new block to the existing global's `usedBy` | drop a snippet with global `g` as block `a`, drop it again as block `b`, delete block `a`: `g` lost its only listed user and is removed, though block `b` still refers to it | the existing global gains the new block as a user, so it survives until its last block is deleted | not executed | Workspace.AsWrittenDropLosesSharedGlobal | Workspace.DropGlobalsSharing |
| mql5-builder/components/GlobalVariableBlock.tsx:37-56 | an int value is checked against its bounds through `parseFloat` but stored through `parseInt` | an int variable with maximum 10 and the text `15e-1`: `parseFloat` gives 1.5, which passes, and `parseInt` gives 15, which is stored | the bounds hold for the value that is stored | not executed | VariableEditor.AsWrittenIntSaveEscapesBounds | VariableEditor.ValidateSaved |

The page classes keep the behaviour as written; the corrected definitions sit beside
them with their properties proved: `Workspace.DropSharingKeepsCovered` shows that after
the corrected drop every block is still provided with its snippet's globals (and
`Workspace.DeleteBlockKeepsCovered` that deleting a block keeps this), and
`VariableEditor.ValidateSavedKeepsBounds` shows that under the corrected check every
stored number lies within its bounds.
