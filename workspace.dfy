/** The dashboard's state transitions over its four lists (workspace blocks, global
    variables, event handlers and documentation entries) and the custom snippets.
    Every transition is a function from the old lists to the new ones; the
    `Dashboard` class in `dashboard.dfy` applies them to its fields. */
module Workspace {
  import opened Types
  import opened Seqs

  // ---------------------------------------------------------------- toggles

  /** `handleToggleEventHandler`: flip `enabled` on the handlers with this id. There is
      no check of `required` here. */
  function ToggleHandler(hs: seq<EventHandler>, id: string): (r: seq<EventHandler>)
    ensures |r| == |hs|
    ensures forall i :: 0 <= i < |hs| && hs[i].id == id ==> r[i] == hs[i].(enabled := !hs[i].enabled)
    ensures forall i :: 0 <= i < |hs| && hs[i].id != id ==> r[i] == hs[i]
  {
    Map(hs, (h: EventHandler) => if h.id == id then h.(enabled := !h.enabled) else h)
  }

  /** Toggling the same handler twice restores the list. */
  lemma ToggleHandlerTwice(hs: seq<EventHandler>, id: string)
    ensures ToggleHandler(ToggleHandler(hs, id), id) == hs
  {
    var r := ToggleHandler(ToggleHandler(hs, id), id);
    assert forall i :: 0 <= i < |hs| ==> r[i] == hs[i];
  }

  /** Toggles of two different handlers commute. */
  lemma ToggleHandlerCommutes(hs: seq<EventHandler>, a: string, b: string)
    ensures ToggleHandler(ToggleHandler(hs, a), b) == ToggleHandler(ToggleHandler(hs, b), a)
  {
    var l := ToggleHandler(ToggleHandler(hs, a), b);
    var r := ToggleHandler(ToggleHandler(hs, b), a);
    assert forall i :: 0 <= i < |hs| ==> l[i] == r[i];
  }

  /** `handleToggleExpand`: flip `isExpanded` on the blocks with this id. */
  function ToggleExpand(bs: seq<WorkspaceBlock>, id: string): (r: seq<WorkspaceBlock>)
    ensures |r| == |bs|
    ensures forall i :: 0 <= i < |bs| && bs[i].id == id ==> r[i] == bs[i].(isExpanded := !bs[i].isExpanded)
    ensures forall i :: 0 <= i < |bs| && bs[i].id != id ==> r[i] == bs[i]
  {
    Map(bs, (b: WorkspaceBlock) => if b.id == id then b.(isExpanded := !b.isExpanded) else b)
  }

  lemma ToggleExpandTwice(bs: seq<WorkspaceBlock>, id: string)
    ensures ToggleExpand(ToggleExpand(bs, id), id) == bs
  {
    var r := ToggleExpand(ToggleExpand(bs, id), id);
    assert forall i :: 0 <= i < |bs| ==> r[i] == bs[i];
  }

  /** `handleTogglePin`: flip `isPinned` on the entries with this id. */
  function TogglePin(ds: seq<Documentation>, id: string): (r: seq<Documentation>)
    ensures |r| == |ds|
    ensures forall i :: 0 <= i < |ds| && ds[i].id == id ==> r[i] == ds[i].(isPinned := !ds[i].isPinned)
    ensures forall i :: 0 <= i < |ds| && ds[i].id != id ==> r[i] == ds[i]
  {
    Map(ds, (d: Documentation) => if d.id == id then d.(isPinned := !d.isPinned) else d)
  }

  lemma TogglePinTwice(ds: seq<Documentation>, id: string)
    ensures TogglePin(TogglePin(ds, id), id) == ds
  {
    var r := TogglePin(TogglePin(ds, id), id);
    assert forall i :: 0 <= i < |ds| ==> r[i] == ds[i];
  }

  // ------------------------------------------------------- global variables

  /** The stored `isModified` flag agrees with the values: a global is modified exactly
      when its current value is not `===` its default, and no default is `NaN`. */
  predicate FlagConsistent(v: GlobalVariable)
  {
    !v.defaultValue.NaN? && v.isModified == !StrictEquals(v.currentValue, v.defaultValue)
  }

  predicate AllFlagsConsistent(vs: seq<GlobalVariable>)
  {
    forall i :: 0 <= i < |vs| ==> FlagConsistent(vs[i])
  }

  /** `handleUpdateGlobal`: on the globals with this id, store the value and set
      `isModified` to `value !== defaultValue`. */
  function UpdateGlobal(vs: seq<GlobalVariable>, id: string, value: Value): (r: seq<GlobalVariable>)
    ensures |r| == |vs|
    ensures forall i :: 0 <= i < |vs| && vs[i].id == id ==>
      r[i] == vs[i].(currentValue := value, isModified := !StrictEquals(value, vs[i].defaultValue))
    ensures forall i :: 0 <= i < |vs| && vs[i].id != id ==> r[i] == vs[i]
  {
    Map(vs, (v: GlobalVariable) =>
      if v.id == id then v.(currentValue := value, isModified := !StrictEquals(value, v.defaultValue)) else v)
  }

  /** `handleResetGlobal`: on the globals with this id, restore the default and clear
      `isModified`. */
  function ResetGlobal(vs: seq<GlobalVariable>, id: string): (r: seq<GlobalVariable>)
    ensures |r| == |vs|
    ensures forall i :: 0 <= i < |vs| && vs[i].id == id ==>
      r[i] == vs[i].(currentValue := vs[i].defaultValue, isModified := false)
    ensures forall i :: 0 <= i < |vs| && vs[i].id != id ==> r[i] == vs[i]
  {
    Map(vs, (v: GlobalVariable) => if v.id == id then v.(currentValue := v.defaultValue, isModified := false) else v)
  }

  /** Update and reset keep every `isModified` flag consistent with the values. */
  lemma UpdateResetKeepFlags(vs: seq<GlobalVariable>, id: string, value: Value)
    requires AllFlagsConsistent(vs)
    ensures AllFlagsConsistent(UpdateGlobal(vs, id, value))
    ensures AllFlagsConsistent(ResetGlobal(vs, id))
  {
  }

  /** Resetting after any update gives the same list as resetting alone. */
  lemma ResetUndoesUpdate(vs: seq<GlobalVariable>, id: string, value: Value)
    ensures ResetGlobal(UpdateGlobal(vs, id, value), id) == ResetGlobal(vs, id)
  {
    var l := ResetGlobal(UpdateGlobal(vs, id, value), id);
    var r := ResetGlobal(vs, id);
    assert forall i :: 0 <= i < |vs| ==> l[i] == r[i];
  }

  /** Updating a consistent global to its own default leaves it unmodified. */
  lemma UpdateToDefaultIsUnmodified(vs: seq<GlobalVariable>, i: nat, id: string)
    requires i < |vs| && vs[i].id == id && !vs[i].defaultValue.NaN?
    ensures !UpdateGlobal(vs, id, vs[i].defaultValue)[i].isModified
  {
  }

  /** `globalVariables.find(v => v.id === id)`: the first global with this id. */
  function FindGlobal(vs: seq<GlobalVariable>, id: string): (r: Option<GlobalVariable>)
    ensures r.Some? <==> exists i :: 0 <= i < |vs| && vs[i].id == id
    ensures r.Some? ==> r.value in vs && r.value.id == id
    ensures r.Some? ==> exists i :: 0 <= i < |vs| && vs[i] == r.value && forall k :: 0 <= k < i ==> vs[k].id != id
  {
    if vs == [] then None
    else if vs[0].id == id then Some(vs[0])
    else
      var r := FindGlobal(vs[1..], id);
      assert r.Some? ==> exists i :: 1 <= i < |vs| && vs[i] == r.value && forall k :: 0 <= k < i ==> vs[k].id != id by {
        if r.Some? {
          var i :| 0 <= i < |vs[1..]| && vs[1..][i] == r.value && forall k :: 0 <= k < i ==> vs[1..][k].id != id;
          assert forall k :: 0 <= k < i + 1 ==> vs[k].id != id by {
            forall k | 0 <= k < i + 1 ensures vs[k].id != id {
              if k > 0 { assert vs[k] == vs[1..][k - 1]; }
            }
          }
        }
      }
      r
  }

  /** A confirmation is asked before deleting a global that some block uses. */
  predicate DeleteNeedsConfirm(vs: seq<GlobalVariable>, id: string)
  {
    var found := FindGlobal(vs, id);
    found.Some? && |found.value.usedBy| > 0
  }

  /** `handleDeleteGlobal`, with the user's answer to the confirmation as `confirmed`
      (consulted only when a confirmation is asked). */
  function DeleteGlobal(vs: seq<GlobalVariable>, id: string, confirmed: bool): (r: seq<GlobalVariable>)
    ensures DeleteNeedsConfirm(vs, id) && !confirmed ==> r == vs
    ensures !(DeleteNeedsConfirm(vs, id) && !confirmed) ==>
      && (forall i :: 0 <= i < |r| ==> r[i].id != id)
      && (forall i :: 0 <= i < |vs| && vs[i].id != id ==> vs[i] in r)
      && (forall x: GlobalVariable :: x.id != id ==> multiset(r)[x] == multiset(vs)[x])
      && |r| <= |vs|
  {
    if DeleteNeedsConfirm(vs, id) && !confirmed then vs
    else
      FilterMultiplicity(vs, (v: GlobalVariable) => v.id != id);
      Filter(vs, (v: GlobalVariable) => v.id != id)
  }

  /** A deletion that goes ahead keeps the other globals in their order. */
  lemma DeleteGlobalKeepsOrder(vs: seq<GlobalVariable>, id: string, confirmed: bool)
    ensures IsSubsequence(DeleteGlobal(vs, id, confirmed), vs)
  {
    if DeleteNeedsConfirm(vs, id) && !confirmed {
      SubsequenceRefl(vs);
    } else {
      FilterIsSubsequence(vs, (v: GlobalVariable) => v.id != id);
    }
  }

  lemma {:induction false} SubsequenceRefl<T>(xs: seq<T>)
    ensures IsSubsequence(xs, xs)
  {
    if xs != [] {
      SubsequenceRefl(xs[1..]);
    }
  }

  // ------------------------------------------------------------------ drop

  /** `globalVariables.some(existing => existing.name === name)` */
  predicate HasName(vs: seq<GlobalVariable>, name: string)
  {
    exists i :: 0 <= i < |vs| && vs[i].name == name
  }

  /** The names of `vs` are pairwise distinct. */
  predicate NamesUnique(vs: seq<GlobalVariable>)
  {
    forall i, j :: 0 <= i < j < |vs| ==> vs[i].name != vs[j].name
  }

  /** The block a drop appends: it copies the snippet, goes to the main section,
      starts collapsed and is placed after the main blocks already there. */
  function DroppedBlock(bs: seq<WorkspaceBlock>, s: Snippet, blockId: string): (b: WorkspaceBlock)
    ensures b.id == blockId && b.snippetId == s.id && b.snippet == s
    ensures b.section == MainSection && !b.isExpanded
    ensures b.position == Count(bs, (x: WorkspaceBlock) => x.section == MainSection)
  {
    WorkspaceBlock(blockId, s.id, s, Count(bs, (x: WorkspaceBlock) => x.section == MainSection), false, MainSection)
  }

  /** A snippet global as a drop instantiates it: the id gets the drop's stamp and the
      global is used by the new block only. */
  function Instantiate(g: GlobalVariable, blockId: string, stamp: string): GlobalVariable
  {
    g.(id := g.id + "-" + stamp, usedBy := [blockId])
  }

  /** The snippet's globals as a drop instantiates them, in snippet order. */
  function Instances(s: Snippet, blockId: string, stamp: string): (r: seq<GlobalVariable>)
    ensures |r| == |s.globalVariables|
    ensures forall j :: 0 <= j < |r| ==> r[j] == Instantiate(s.globalVariables[j], blockId, stamp)
  {
    Map(s.globalVariables, (g: GlobalVariable) => Instantiate(g, blockId, stamp))
  }

  /** The globals `handleDrop` appends: the snippet's globals, instantiated, except those
      whose name some existing global already has. */
  function NewGlobals(existing: seq<GlobalVariable>, s: Snippet, blockId: string, stamp: string): seq<GlobalVariable>
  {
    Filter(Instances(s, blockId, stamp), (g: GlobalVariable) => !HasName(existing, g.name))
  }

  /** The globals after `handleDrop`: the existing ones untouched, then the new ones.
      An existing global whose name the snippet declares again is not told about the
      new block. */
  function DropGlobals(existing: seq<GlobalVariable>, s: Snippet, blockId: string, stamp: string): (r: seq<GlobalVariable>)
    ensures |existing| <= |r| <= |existing| + |s.globalVariables|
    ensures r[..|existing|] == existing
    ensures forall i :: |existing| <= i < |r| ==>
      r[i].usedBy == [blockId] && !HasName(existing, r[i].name)
    ensures forall j :: 0 <= j < |s.globalVariables| && !HasName(existing, s.globalVariables[j].name) ==>
      Instantiate(s.globalVariables[j], blockId, stamp) in r[|existing|..]
    ensures forall i :: |existing| <= i < |r| ==>
      exists j :: 0 <= j < |s.globalVariables| && r[i] == Instantiate(s.globalVariables[j], blockId, stamp)
  {
    var inst := Instances(s, blockId, stamp);
    var added := NewGlobals(existing, s, blockId, stamp);
    var r := existing + added;
    assert r[|existing|..] == added;
    forall i | |existing| <= i < |r|
      ensures exists j :: 0 <= j < |s.globalVariables| && r[i] == Instantiate(s.globalVariables[j], blockId, stamp)
    {
      assert r[i] == added[i - |existing|];
      assert r[i] in inst;
      var j :| 0 <= j < |inst| && inst[j] == r[i];
    }
    r
  }

  /** The appended globals follow the snippet's order. */
  lemma DropKeepsSnippetOrder(existing: seq<GlobalVariable>, s: Snippet, blockId: string, stamp: string)
    ensures var r := DropGlobals(existing, s, blockId, stamp);
      IsSubsequence(r[|existing|..], Instances(s, blockId, stamp))
  {
    var added := NewGlobals(existing, s, blockId, stamp);
    assert (existing + added)[|existing|..] == added;
    FilterIsSubsequence(Instances(s, blockId, stamp), (g: GlobalVariable) => !HasName(existing, g.name));
  }

  /** A drop keeps global names unique when the snippet's own names are distinct. */
  lemma DropKeepsNamesUnique(existing: seq<GlobalVariable>, s: Snippet, blockId: string, stamp: string)
    requires NamesUnique(existing)
    requires NamesUnique(s.globalVariables)
    ensures NamesUnique(DropGlobals(existing, s, blockId, stamp))
  {
    var inst := Instances(s, blockId, stamp);
    var keep := (g: GlobalVariable) => !HasName(existing, g.name);
    assert NamesUnique(inst);
    FilterKeepsNamesUnique(inst, keep);
    var added := Filter(inst, keep);
    var r := existing + added;
    forall i, j | 0 <= i < j < |r| ensures r[i].name != r[j].name {
      if j >= |existing| && i < |existing| {
        assert r[j] == added[j - |existing|];
        assert !HasName(existing, r[j].name);
      }
    }
  }

  lemma {:induction false} FilterKeepsNamesUnique(vs: seq<GlobalVariable>, p: GlobalVariable -> bool)
    requires NamesUnique(vs)
    ensures NamesUnique(Filter(vs, p))
  {
    if vs != [] {
      FilterKeepsNamesUnique(vs[1..], p);
      var rest := Filter(vs[1..], p);
      if p(vs[0]) {
        var r := [vs[0]] + rest;
        forall i, j | 0 <= i < j < |r| ensures r[i].name != r[j].name {
          if i == 0 {
            assert r[j] in vs[1..];
          }
        }
      }
    }
  }

  /** A drop keeps `isModified` consistent when the snippet's globals are. */
  lemma DropKeepsFlags(existing: seq<GlobalVariable>, s: Snippet, blockId: string, stamp: string)
    requires AllFlagsConsistent(existing)
    requires AllFlagsConsistent(s.globalVariables)
    ensures AllFlagsConsistent(DropGlobals(existing, s, blockId, stamp))
  {
    var r := DropGlobals(existing, s, blockId, stamp);
    var inst := Instances(s, blockId, stamp);
    assert AllFlagsConsistent(inst);
    var added := Filter(inst, (g: GlobalVariable) => !HasName(existing, g.name));
    assert r == existing + added;
    forall i | 0 <= i < |r| ensures FlagConsistent(r[i]) {
      if i >= |existing| {
        assert r[i] == added[i - |existing|];
        assert added[i - |existing|] in inst;
      }
    }
  }

  // ---------------------------------------------------------- delete block

  /** `v.usedBy.filter(blockId => blockId !== id)` */
  function WithoutUser(users: seq<string>, id: string): (r: seq<string>)
    ensures forall k :: 0 <= k < |r| ==> r[k] != id
    ensures forall k :: 0 <= k < |users| && users[k] != id ==> users[k] in r
    ensures forall k :: 0 <= k < |r| ==> r[k] in users
    ensures forall u :: u != id ==> multiset(r)[u] == multiset(users)[u]
  {
    FilterMultiplicity(users, (u: string) => u != id);
    Filter(users, (u: string) => u != id)
  }

  /** The remaining users keep their order. */
  lemma WithoutUserKeepsOrder(users: seq<string>, id: string)
    ensures IsSubsequence(WithoutUser(users, id), users)
  {
    FilterIsSubsequence(users, (u: string) => u != id);
  }

  /** `handleDeleteBlock` drops a global when `id` was among its users and nobody else. */
  predicate RemovedWithBlock(v: GlobalVariable, id: string)
  {
    id in v.usedBy && WithoutUser(v.usedBy, id) == []
  }

  /** Nothing is left after removing `id` exactly when every user is `id`. */
  lemma {:induction false} WithoutUserEmpty(users: seq<string>, id: string)
    ensures WithoutUser(users, id) == [] <==> forall k :: 0 <= k < |users| ==> users[k] == id
  {
    if users != [] {
      WithoutUserEmpty(users[1..], id);
      assert forall k :: 1 <= k < |users| ==> users[k] == users[1..][k - 1];
    }
  }

  /** A global with block `id` struck from its users. */
  function Stripped(v: GlobalVariable, id: string): GlobalVariable
  {
    v.(usedBy := WithoutUser(v.usedBy, id))
  }

  /** `handleDeleteBlock` drops a global exactly when `id` was among its users and
      nobody else was. */
  lemma RemovedWithBlockIff(v: GlobalVariable, id: string)
    ensures RemovedWithBlock(v, id) <==>
      id in v.usedBy && forall k :: 0 <= k < |v.usedBy| ==> v.usedBy[k] == id
  {
    WithoutUserEmpty(v.usedBy, id);
  }

  /** `x` is the stripped copy of some global of `vs` that block `id` does not take
      with it. */
  predicate SurvivorOf(vs: seq<GlobalVariable>, id: string, x: GlobalVariable)
  {
    exists i :: 0 <= i < |vs| && !RemovedWithBlock(vs[i], id) && x == Stripped(vs[i], id)
  }

  /** The globals after `handleDeleteBlock(id)` when the block exists (a filter
      followed by a map, written here as one pass): the globals used by `id` alone are
      gone, and every other one survives, in order, with `id` struck from its users. */
  function DeleteBlockGlobals(vs: seq<GlobalVariable>, id: string): (r: seq<GlobalVariable>)
    ensures |r| <= |vs|
    ensures forall j :: 0 <= j < |r| ==> id !in r[j].usedBy
    ensures forall i :: 0 <= i < |vs| && !RemovedWithBlock(vs[i], id) ==> Stripped(vs[i], id) in r
    ensures forall j :: 0 <= j < |r| ==> SurvivorOf(vs, id, r[j])
  {
    if vs == [] then []
    else
      var rest := DeleteBlockGlobals(vs[1..], id);
      SurvivorsOfTail(vs, id, rest);
      (if RemovedWithBlock(vs[0], id) then [] else [Stripped(vs[0], id)]) + rest
  }

  /** The one pass is the source's filter followed by its map. */
  lemma {:induction false} DeleteBlockGlobalsIsFilterMap(vs: seq<GlobalVariable>, id: string)
    ensures DeleteBlockGlobals(vs, id) ==
      Map(Filter(vs, (v: GlobalVariable) => !RemovedWithBlock(v, id)), (v: GlobalVariable) => Stripped(v, id))
  {
    if vs != [] {
      DeleteBlockGlobalsIsFilterMap(vs[1..], id);
      var kept := Filter(vs[1..], (v: GlobalVariable) => !RemovedWithBlock(v, id));
      if !RemovedWithBlock(vs[0], id) {
        var m := Map([vs[0]] + kept, (v: GlobalVariable) => Stripped(v, id));
        assert m == [Stripped(vs[0], id)] + Map(kept, (v: GlobalVariable) => Stripped(v, id));
      }
    }
  }

  /** The survivors keep the order of the globals they come from. */
  lemma {:induction false} DeleteBlockGlobalsKeepsOrder(vs: seq<GlobalVariable>, id: string)
    ensures IsSubsequence(DeleteBlockGlobals(vs, id), Map(vs, (v: GlobalVariable) => Stripped(v, id)))
  {
    if vs != [] {
      var all := Map(vs, (v: GlobalVariable) => Stripped(v, id));
      var tail := Map(vs[1..], (v: GlobalVariable) => Stripped(v, id));
      var rest := DeleteBlockGlobals(vs[1..], id);
      DeleteBlockGlobalsKeepsOrder(vs[1..], id);
      assert IsSubsequence(rest, tail);
      assert all[1..] == tail;
      var r := DeleteBlockGlobals(vs, id);
      if RemovedWithBlock(vs[0], id) {
        assert r == rest;
        SubsequenceSkip(rest, all);
      } else {
        assert r == [Stripped(vs[0], id)] + rest;
        assert r[0] == all[0] && r[1..] == rest;
      }
    }
  }

  /** Dropping the head of the longer list keeps a subsequence a subsequence. */
  lemma SubsequenceSkip<T>(r: seq<T>, xs: seq<T>)
    requires xs != [] && IsSubsequence(r, xs[1..])
    ensures IsSubsequence(r, xs)
  {
  }

  /** The survivors of the tail of `vs` are survivors of `vs`. */
  lemma SurvivorsOfTail(vs: seq<GlobalVariable>, id: string, rest: seq<GlobalVariable>)
    requires vs != []
    requires forall j :: 0 <= j < |rest| ==> SurvivorOf(vs[1..], id, rest[j])
    ensures forall j :: 0 <= j < |rest| ==> SurvivorOf(vs, id, rest[j])
  {
    forall j | 0 <= j < |rest| ensures SurvivorOf(vs, id, rest[j]) {
      var i :| 0 <= i < |vs[1..]| && !RemovedWithBlock(vs[1..][i], id) && rest[j] == Stripped(vs[1..][i], id);
      assert vs[i + 1] == vs[1..][i];
    }
  }

  /** `handleDeleteBlock`: the blocks without `id`, and the globals cleaned up when the
      block was found (otherwise they are left alone). */
  function DeleteBlock(bs: seq<WorkspaceBlock>, vs: seq<GlobalVariable>, id: string): (r: (seq<WorkspaceBlock>, seq<GlobalVariable>))
    ensures forall i :: 0 <= i < |r.0| ==> r.0[i].id != id && r.0[i] in bs
    ensures forall i :: 0 <= i < |bs| && bs[i].id != id ==> bs[i] in r.0
    ensures forall x: WorkspaceBlock :: x.id != id ==> multiset(r.0)[x] == multiset(bs)[x]
    ensures (exists i :: 0 <= i < |bs| && bs[i].id == id) ==> r.1 == DeleteBlockGlobals(vs, id)
    ensures (forall i :: 0 <= i < |bs| ==> bs[i].id != id) ==> r.1 == vs && r.0 == bs
  {
    var found := exists i :: 0 <= i < |bs| && bs[i].id == id;
    if !found then
      FilterAll(bs, (b: WorkspaceBlock) => b.id != id);
      (bs, vs)
    else
      FilterMultiplicity(bs, (b: WorkspaceBlock) => b.id != id);
      (Filter(bs, (b: WorkspaceBlock) => b.id != id), DeleteBlockGlobals(vs, id))
  }

  /** Deleting a block keeps the other blocks in their order. */
  lemma DeleteBlockKeepsOrder(bs: seq<WorkspaceBlock>, vs: seq<GlobalVariable>, id: string)
    ensures IsSubsequence(DeleteBlock(bs, vs, id).0, bs)
  {
    if exists i :: 0 <= i < |bs| && bs[i].id == id {
      FilterIsSubsequence(bs, (b: WorkspaceBlock) => b.id != id);
    } else {
      SubsequenceRefl(bs);
    }
  }

  /** Deleting a block keeps `isModified` consistent. */
  lemma DeleteBlockKeepsFlags(bs: seq<WorkspaceBlock>, vs: seq<GlobalVariable>, id: string)
    requires AllFlagsConsistent(vs)
    ensures AllFlagsConsistent(DeleteBlock(bs, vs, id).1)
  {
  }

  /** Clear All (enabled only while the workspace has blocks): after confirmation, no
      blocks and no globals. */
  function ClearAll(bs: seq<WorkspaceBlock>, vs: seq<GlobalVariable>, confirmed: bool): (r: (seq<WorkspaceBlock>, seq<GlobalVariable>))
    ensures bs != [] && confirmed ==> r == ([], [])
    ensures !(bs != [] && confirmed) ==> r == (bs, vs)
  {
    if bs != [] && confirmed then ([], []) else (bs, vs)
  }

  // ------------------------------------------------------- custom snippets

  /** The category a custom snippet gets from the active tab. */
  function CustomCategory(activeTab: string): (c: string)
    ensures c == "Utilities" || c == "Indicators" || c == "Pre-made Functions"
    ensures activeTab == "utilities" <==> c == "Utilities"
    ensures activeTab == "indicators" <==> c == "Indicators"
  {
    if activeTab == "utilities" then "Utilities"
    else if activeTab == "indicators" then "Indicators"
    else "Pre-made Functions"
  }

  /** `handleAddCustomSnippet`: with a name and code, one custom snippet is appended
      (stamped `custom-<stamp>`); otherwise the list is unchanged. */
  function AddCustomSnippet(ss: seq<Snippet>, name: string, description: string, code: string,
                            activeTab: string, stamp: string): (r: seq<Snippet>)
    ensures name != "" && code != "" ==>
      && |r| == |ss| + 1 && r[..|ss|] == ss
      && r[|ss|].isCustom && r[|ss|].name == name && r[|ss|].description == description
      && r[|ss|].code == code && r[|ss|].category == CustomCategory(activeTab)
      && r[|ss|].id == "custom-" + stamp && r[|ss|].globalVariables == []
    ensures name == "" || code == "" ==> r == ss
  {
    if name != "" && code != "" then
      var s := Snippet("custom-" + stamp, name, description, code, CustomCategory(activeTab),
                       None, None, true, []);
      assert (ss + [s])[..|ss|] == ss;
      ss + [s]
    else ss
  }

  // ---------------------------------------------------------- documentation

  /** `handleSaveDoc`. Editing an entry overwrites its edited fields and stamps
      `updatedAt`; otherwise a new entry `doc-<stamp>` is appended, created and updated
      `now`. */
  function SaveDoc(ds: seq<Documentation>, editing: Option<Documentation>, data: DocData,
                   now: string, stamp: string): (r: seq<Documentation>)
    ensures editing.Some? ==> |r| == |ds|
    ensures editing.Some? ==> forall i :: 0 <= i < |ds| && ds[i].id == editing.value.id ==>
      r[i] == Documentation(ds[i].id, data.title, data.category, data.content, data.tags,
                            ds[i].createdAt, now, data.isPinned)
    ensures editing.Some? ==> forall i :: 0 <= i < |ds| && ds[i].id != editing.value.id ==> r[i] == ds[i]
    ensures editing.None? ==>
      r == ds + [Documentation("doc-" + stamp, data.title, data.category, data.content, data.tags, now, now, data.isPinned)]
  {
    match editing
    case Some(e) =>
      Map(ds, (d: Documentation) =>
        if d.id == e.id then d.(title := data.title, category := data.category, content := data.content,
                                tags := data.tags, isPinned := data.isPinned, updatedAt := now)
        else d)
    case None =>
      ds + [Documentation("doc-" + stamp, data.title, data.category, data.content, data.tags, now, now, data.isPinned)]
  }

  /** Saving an edit keeps every entry's id and creation time. */
  lemma SaveDocKeepsIdentity(ds: seq<Documentation>, e: Documentation, data: DocData, now: string, stamp: string)
    ensures var r := SaveDoc(ds, Some(e), data, now, stamp);
      forall i :: 0 <= i < |ds| ==> r[i].id == ds[i].id && r[i].createdAt == ds[i].createdAt
  {
  }

  /** `handleDeleteDoc`: after confirmation, the entries with another id. */
  function DeleteDoc(ds: seq<Documentation>, id: string, confirmed: bool): (r: seq<Documentation>)
    ensures !confirmed ==> r == ds
    ensures confirmed ==>
      && (forall i :: 0 <= i < |r| ==> r[i].id != id)
      && (forall i :: 0 <= i < |ds| && ds[i].id != id ==> ds[i] in r)
      && (forall i :: 0 <= i < |r| ==> r[i] in ds)
      && (forall x: Documentation :: x.id != id ==> multiset(r)[x] == multiset(ds)[x])
  {
    if confirmed then
      FilterMultiplicity(ds, (d: Documentation) => d.id != id);
      Filter(ds, (d: Documentation) => d.id != id)
    else ds
  }

  /** The remaining entries keep their order. */
  lemma DeleteDocKeepsOrder(ds: seq<Documentation>, id: string, confirmed: bool)
    ensures IsSubsequence(DeleteDoc(ds, id, confirmed), ds)
  {
    if confirmed {
      FilterIsSubsequence(ds, (d: Documentation) => d.id != id);
    } else {
      SubsequenceRefl(ds);
    }
  }

  // --------------------------------------------------------------- finding

  /** Every global a block's snippet declares is present under its name with that
      block among its users: deleting some other block can then never take it away. */
  predicate Covered(bs: seq<WorkspaceBlock>, vs: seq<GlobalVariable>)
  {
    forall i, k :: 0 <= i < |bs| && 0 <= k < |bs[i].snippet.globalVariables| ==>
      Provides(vs, bs[i].snippet.globalVariables[k].name, bs[i].id)
  }

  /** Some global of `vs` has this name and counts this block among its users. */
  predicate Provides(vs: seq<GlobalVariable>, name: string, blockId: string)
  {
    exists j :: 0 <= j < |vs| && vs[j].name == name && blockId in vs[j].usedBy
  }

  /** Drop followed as the source writes it: dropping the same snippet twice and then
      deleting the first block leaves the second block without its global. */
  lemma AsWrittenDropLosesSharedGlobal()
    ensures var g := GlobalVariable("g", "g", IntKind, Num(1.0), Num(1.0), "", None, None, None, ["s"], false);
      var s := Snippet("s", "S", "", "", "Utilities", None, None, false, [g]);
      var bs1 := [DroppedBlock([], s, "b1")];
      var vs1 := DropGlobals([], s, "b1", "1");
      var bs2 := bs1 + [DroppedBlock(bs1, s, "b2")];
      var vs2 := DropGlobals(vs1, s, "b2", "2");
      var after := DeleteBlock(bs2, vs2, "b1");
      && Covered(bs2, vs1) == false
      && after.1 == []
      && |after.0| == 1 && after.0[0].snippet == s
      && !Covered(after.0, after.1)
  {
    var g := GlobalVariable("g", "g", IntKind, Num(1.0), Num(1.0), "", None, None, None, ["s"], false);
    var s := Snippet("s", "S", "", "", "Utilities", None, None, false, [g]);
    var b1 := DroppedBlock([], s, "b1");
    var bs1 := [b1];
    var vs1 := DropGlobals([], s, "b1", "1");
    assert Instances(s, "b1", "1") == [Instantiate(g, "b1", "1")];
    assert vs1 == [Instantiate(g, "b1", "1")];
    var b2 := DroppedBlock(bs1, s, "b2");
    var bs2 := bs1 + [b2];
    assert HasName(vs1, "g");
    var inst2 := Instances(s, "b2", "2");
    assert inst2 == [Instantiate(g, "b2", "2")];
    assert NewGlobals(vs1, s, "b2", "2") == [];
    var vs2 := DropGlobals(vs1, s, "b2", "2");
    assert vs2 == vs1;
    assert b2 in bs2 && g in b2.snippet.globalVariables;
    assert !("b2" in vs1[0].usedBy);
    var after := DeleteBlock(bs2, vs2, "b1");
    assert bs2[0].id == "b1";
    assert RemovedWithBlock(vs1[0], "b1");
    assert after.1 == [];
    assert Filter(bs2, (b: WorkspaceBlock) => b.id != "b1") == [b2];
    assert after.0 == [b2];
  }

  /** The evidently intended drop: a snippet global whose name already exists is not
      added again, but the existing global records the new block among its users. */
  function DropGlobalsSharing(existing: seq<GlobalVariable>, s: Snippet, blockId: string, stamp: string): (r: seq<GlobalVariable>)
    ensures |r| >= |existing|
    ensures forall i :: 0 <= i < |existing| ==>
      r[i] == (if HasName(s.globalVariables, existing[i].name)
               then existing[i].(usedBy := existing[i].usedBy + [blockId]) else existing[i])
    ensures r[|existing|..] == NewGlobals(existing, s, blockId, stamp)
  {
    var shared := Map(existing, (v: GlobalVariable) =>
      if HasName(s.globalVariables, v.name) then v.(usedBy := v.usedBy + [blockId]) else v);
    var added := NewGlobals(existing, s, blockId, stamp);
    assert (shared + added)[|existing|..] == added;
    shared + added
  }

  /** The intended drop differs from the written one only in the users of the existing
      globals, so it keeps the flags consistent and the names unique as that one does. */
  lemma DropSharingKeepsInvariants(existing: seq<GlobalVariable>, s: Snippet, blockId: string, stamp: string)
    ensures AllFlagsConsistent(existing) && AllFlagsConsistent(s.globalVariables) ==>
      AllFlagsConsistent(DropGlobalsSharing(existing, s, blockId, stamp))
    ensures NamesUnique(existing) && NamesUnique(s.globalVariables) ==>
      NamesUnique(DropGlobalsSharing(existing, s, blockId, stamp))
  {
    var r := DropGlobalsSharing(existing, s, blockId, stamp);
    var w := DropGlobals(existing, s, blockId, stamp);
    assert |r| == |w|;
    assert forall i :: 0 <= i < |r| ==> r[i].(usedBy := w[i].usedBy) == w[i] by {
      forall i | 0 <= i < |r| ensures r[i].(usedBy := w[i].usedBy) == w[i] {
        if i >= |existing| {
          assert r[i] == r[|existing|..][i - |existing|];
          assert w[i] == w[|existing|..][i - |existing|];
        } else {
          assert w[i] == w[..|existing|][i];
        }
      }
    }
    if AllFlagsConsistent(existing) && AllFlagsConsistent(s.globalVariables) {
      DropKeepsFlags(existing, s, blockId, stamp);
      assert forall i :: 0 <= i < |r| ==> FlagConsistent(w[i]);
    }
    if NamesUnique(existing) && NamesUnique(s.globalVariables) {
      DropKeepsNamesUnique(existing, s, blockId, stamp);
      assert forall i :: 0 <= i < |r| ==> r[i].name == w[i].name;
    }
  }

  /** The intended drop keeps every block's globals present and attributed to it. */
  lemma DropSharingKeepsCovered(bs: seq<WorkspaceBlock>, vs: seq<GlobalVariable>, s: Snippet,
                                blockId: string, stamp: string)
    requires Covered(bs, vs)
    ensures Covered(bs + [DroppedBlock(bs, s, blockId)], DropGlobalsSharing(vs, s, blockId, stamp))
  {
    var nb := DroppedBlock(bs, s, blockId);
    var bs' := bs + [nb];
    var r := DropGlobalsSharing(vs, s, blockId, stamp);
    var added := NewGlobals(vs, s, blockId, stamp);
    assert r == r[..|vs|] + added;
    forall i, k | 0 <= i < |bs'| && 0 <= k < |bs'[i].snippet.globalVariables|
      ensures Provides(r, bs'[i].snippet.globalVariables[k].name, bs'[i].id)
    {
      var b := bs'[i];
      var g := b.snippet.globalVariables[k];
      if i < |bs| {
        assert b == bs[i];
        var j :| 0 <= j < |vs| && vs[j].name == g.name && b.id in vs[j].usedBy;
        assert r[j].name == vs[j].name && b.id in r[j].usedBy;
      } else {
        assert b == nb && b.snippet == s;
        if HasName(vs, g.name) {
          var j :| 0 <= j < |vs| && vs[j].name == g.name;
          assert HasName(s.globalVariables, vs[j].name);
          assert r[j] == vs[j].(usedBy := vs[j].usedBy + [blockId]);
          assert blockId in r[j].usedBy;
        } else {
          var x := Instantiate(g, blockId, stamp);
          var inst := Instances(s, blockId, stamp);
          assert inst[k] == x;
          assert x in added;
          var j :| 0 <= j < |added| && added[j] == x;
          assert r[|vs| + j] == x;
        }
      }
    }
  }

  /** Deleting a block never takes a global from the blocks that remain, provided the
      globals were covered beforehand. */
  lemma DeleteBlockKeepsCovered(bs: seq<WorkspaceBlock>, vs: seq<GlobalVariable>, id: string)
    requires Covered(bs, vs)
    ensures Covered(DeleteBlock(bs, vs, id).0, DeleteBlock(bs, vs, id).1)
  {
    var r := DeleteBlock(bs, vs, id);
    if exists i :: 0 <= i < |bs| && bs[i].id == id {
      forall i, k | 0 <= i < |r.0| && 0 <= k < |r.0[i].snippet.globalVariables|
        ensures Provides(r.1, r.0[i].snippet.globalVariables[k].name, r.0[i].id)
      {
        var b := r.0[i];
        var g := b.snippet.globalVariables[k];
        var bi :| 0 <= bi < |bs| && bs[bi] == b;
        assert Provides(vs, bs[bi].snippet.globalVariables[k].name, bs[bi].id);
        var j :| 0 <= j < |vs| && vs[j].name == g.name && b.id in vs[j].usedBy;
        assert b.id in WithoutUser(vs[j].usedBy, id);
        assert !RemovedWithBlock(vs[j], id);
        var m :| 0 <= m < |r.1| && r.1[m] == Stripped(vs[j], id);
        assert r.1[m].name == g.name && b.id in r.1[m].usedBy;
      }
    }
  }
}
