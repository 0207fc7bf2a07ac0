/** The process editor's state and the handlers that change its two stage
    collections: adding a process or final stage, adding a substage, and merging
    updates into a stage or a substage. Each handler rebuilds a collection with
    `map`, so only the matching elements change. */
module Editor {
  import opened Common
  import opened StageModel

  datatype ViewMode = ListView | MapView

  datatype EditorState = EditorState(
    viewMode: ViewMode,
    isGenerating: bool,
    visibleStagesCount: int,
    showAddDropdown: bool,
    isWorkflowDropdownOpen: bool,
    selectedStageId: Option<string>,
    selectedSubstageId: Option<string>,
    processStages: seq<Stage>,
    finalStages: seq<Stage>)

  /** `allStages`: process stages first, then final stages, in render order. */
  function AllStages(e: EditorState): seq<Stage> {
    e.processStages + e.finalStages
  }

  /** `totalStages`. */
  function TotalStages(e: EditorState): nat {
    |e.processStages| + |e.finalStages|
  }

  /** `id` names no stage of either collection (what `Date.now()` is trusted to give). */
  predicate FreshStageId(e: EditorState, id: string) {
    !HasStage(AllStages(e), id)
  }

  /** `id` names no substage of any stage. */
  predicate FreshSubstageId(e: EditorState, id: string) {
    forall i :: 0 <= i < |AllStages(e)| ==> !HasSubstage(Subs(AllStages(e)[i]), id)
  }

  /** The reveal counter never runs past the rows there are, and once generation
      has finished every row has been counted. */
  predicate RevealBounded(e: EditorState) {
    0 <= e.visibleStagesCount <= TotalStages(e) && (!e.isGenerating ==> e.visibleStagesCount == TotalStages(e))
  }

  /** The invariant the editor's handlers keep: stage ids are unique across both
      collections, substage ids are unique within each stage and no substage id
      occurs under two stages, `isFinal` agrees with the collection that holds a
      stage, and the reveal counter is bounded. */
  predicate Valid(e: EditorState) {
    && DistinctStageIds(AllStages(e))
    && (forall i :: 0 <= i < |AllStages(e)| ==> DistinctSubstageIds(Subs(AllStages(e)[i])))
    && SubstageIdsDisjoint(AllStages(e))
    && (forall i :: 0 <= i < |e.processStages| ==> !Truthy(e.processStages[i].isFinal))
    && (forall i :: 0 <= i < |e.finalStages| ==> Truthy(e.finalStages[i].isFinal))
    && RevealBounded(e)
  }

  /** In a valid editor every substage id is unique across the whole editor: two
      substages at different (stage, position) pairs have different ids. */
  lemma ValidSubstageIdsUnique(e: EditorState, i: nat, j: nat, i2: nat, j2: nat)
    requires Valid(e)
    requires i < |AllStages(e)| && j < |Subs(AllStages(e)[i])|
    requires i2 < |AllStages(e)| && j2 < |Subs(AllStages(e)[i2])|
    requires i != i2 || j != j2
    ensures Subs(AllStages(e)[i])[j].id != Subs(AllStages(e)[i2])[j2].id
  {
    var all := AllStages(e);
    if i == i2 {
      assert DistinctSubstageIds(Subs(all[i]));
    } else {
      assert Subs(all[i])[j].id in SubstageIdSet(all[i]);
      assert Subs(all[i2])[j2].id in SubstageIdSet(all[i2]);
      assert SubstageIdSet(all[i]) !! SubstageIdSet(all[i2]);
    }
  }

  /** `addNewProcessStage`: appends one new editable stage to `processStages`, closes
      the "Add stage" menu, and, when generation has already finished, reveals the
      new row at once. `finalStages` and the selection are untouched. */
  function AddProcessStage(e: EditorState, newId: string): (r: EditorState)
    ensures r.processStages == e.processStages + [NewProcessStage(newId)]
    ensures r.finalStages == e.finalStages
    ensures TotalStages(r) == TotalStages(e) + 1
    ensures r.selectedStageId == e.selectedStageId && r.selectedSubstageId == e.selectedSubstageId
    ensures r.isGenerating == e.isGenerating && r.viewMode == e.viewMode && !r.showAddDropdown
    ensures r.isWorkflowDropdownOpen == e.isWorkflowDropdownOpen
    ensures r.(processStages := e.processStages, showAddDropdown := e.showAddDropdown,
               visibleStagesCount := e.visibleStagesCount) == e
  {
    e.(processStages := e.processStages + [NewProcessStage(newId)],
       showAddDropdown := false,
       visibleStagesCount := if e.isGenerating then e.visibleStagesCount else e.visibleStagesCount + 1)
  }

  /** `addNewFinalStage`: the mirror image on `finalStages`. */
  function AddFinalStage(e: EditorState, newId: string): (r: EditorState)
    ensures r.finalStages == e.finalStages + [NewFinalStage(newId)]
    ensures r.processStages == e.processStages
    ensures TotalStages(r) == TotalStages(e) + 1
    ensures r.selectedStageId == e.selectedStageId && r.selectedSubstageId == e.selectedSubstageId
    ensures r.isGenerating == e.isGenerating && r.viewMode == e.viewMode && !r.showAddDropdown
    ensures r.isWorkflowDropdownOpen == e.isWorkflowDropdownOpen
    ensures r.(finalStages := e.finalStages, showAddDropdown := e.showAddDropdown,
               visibleStagesCount := e.visibleStagesCount) == e
  {
    e.(finalStages := e.finalStages + [NewFinalStage(newId)],
       showAddDropdown := false,
       visibleStagesCount := if e.isGenerating then e.visibleStagesCount else e.visibleStagesCount + 1)
  }

  /** The stage `s` after `handleAddSubstage(stageId)` has visited it. */
  function WithNewSubstage(s: Stage, stageId: string, sub: Substage): Stage {
    if s.id != stageId then s else s.(substages := Some(Subs(s) + [sub]))
  }

  /** `prev.map(...)` of `handleAddSubstage`: each stage whose id is `stageId` gets
      `sub` appended to its substages; every other stage is kept as it was. */
  function AppendSubstageWhere(ss: seq<Stage>, stageId: string, sub: Substage): (r: seq<Stage>)
    ensures |r| == |ss|
    ensures forall i :: 0 <= i < |ss| && ss[i].id != stageId ==> r[i] == ss[i]
    ensures forall i :: 0 <= i < |ss| && ss[i].id == stageId ==>
      r[i] == ss[i].(substages := Some(Subs(ss[i]) + [sub]))
  {
    if ss == [] then [] else [WithNewSubstage(ss[0], stageId, sub)] + AppendSubstageWhere(ss[1..], stageId, sub)
  }

  /** `handleAddSubstage(stageId)`: appends a "New Substage" to the process stage
      `stageId` and selects it. The selection is set even when no process stage has
      that id, in which case the collections are left exactly as they were. Nothing
      else changes: the reveal, the view and both dropdowns are left alone. */
  function AddSubstage(e: EditorState, stageId: string, newSubId: string): (r: EditorState)
    ensures |r.processStages| == |e.processStages|
    ensures forall i :: 0 <= i < |e.processStages| && e.processStages[i].id != stageId ==>
      r.processStages[i] == e.processStages[i]
    ensures forall i :: 0 <= i < |e.processStages| && e.processStages[i].id == stageId ==>
      r.processStages[i] == e.processStages[i].(substages := Some(Subs(e.processStages[i]) + [NewSubstage(newSubId)]))
    ensures r.finalStages == e.finalStages
    ensures r.selectedStageId == Some(stageId) && r.selectedSubstageId == Some(newSubId)
    ensures !HasStage(e.processStages, stageId) ==> r.processStages == e.processStages
    ensures r.(processStages := e.processStages, selectedStageId := e.selectedStageId,
               selectedSubstageId := e.selectedSubstageId) == e
  {
    var ps := AppendSubstageWhere(e.processStages, stageId, NewSubstage(newSubId));
    assert !HasStage(e.processStages, stageId) ==> ps == e.processStages;
    e.(processStages := ps,
       selectedStageId := Some(stageId),
       selectedSubstageId := Some(newSubId))
  }

  /** `prev.map(s => s.id === id ? { ...s, ...u } : s)`. */
  function MergeWhere(ss: seq<Stage>, id: string, u: StagePatch): (r: seq<Stage>)
    ensures |r| == |ss|
    ensures forall i :: 0 <= i < |ss| && ss[i].id != id ==> r[i] == ss[i]
    ensures forall i :: 0 <= i < |ss| && ss[i].id == id ==> r[i] == MergeStage(ss[i], u)
  {
    if ss == [] then []
    else [if ss[0].id == id then MergeStage(ss[0], u) else ss[0]] + MergeWhere(ss[1..], id, u)
  }

  /** `handleUpdateStage(id, u)`: merges `u` into every stage, process or final,
      whose id is `id`, and leaves every other stage and every other part of the
      state as it was. */
  function UpdateStage(e: EditorState, id: string, u: StagePatch): (r: EditorState)
    ensures |r.processStages| == |e.processStages| && |r.finalStages| == |e.finalStages|
    ensures forall i :: 0 <= i < |e.processStages| ==>
      r.processStages[i] == if e.processStages[i].id == id then MergeStage(e.processStages[i], u) else e.processStages[i]
    ensures forall i :: 0 <= i < |e.finalStages| ==>
      r.finalStages[i] == if e.finalStages[i].id == id then MergeStage(e.finalStages[i], u) else e.finalStages[i]
    ensures r.(processStages := e.processStages, finalStages := e.finalStages) == e
  {
    e.(processStages := MergeWhere(e.processStages, id, u), finalStages := MergeWhere(e.finalStages, id, u))
  }

  /** `subs.map(sub => sub.id === subId ? { ...sub, ...u } : sub)`. */
  function MergeSubstageWhere(subs: seq<Substage>, subId: string, u: SubstagePatch): (r: seq<Substage>)
    ensures |r| == |subs|
    ensures forall i :: 0 <= i < |subs| && subs[i].id != subId ==> r[i] == subs[i]
    ensures forall i :: 0 <= i < |subs| && subs[i].id == subId ==> r[i] == MergeSubstage(subs[i], u)
  {
    if subs == [] then []
    else [if subs[0].id == subId then MergeSubstage(subs[0], u) else subs[0]] + MergeSubstageWhere(subs[1..], subId, u)
  }

  /** The stage `s` after `handleUpdateSubstage(stageId, subId, u)` has visited it;
      a stage without a substage list keeps none (`s.substages?.map`). */
  function WithMergedSubstage(s: Stage, stageId: string, subId: string, u: SubstagePatch): Stage {
    if s.id != stageId then s
    else s.(substages := match s.substages
                         case None => None
                         case Some(subs) => Some(MergeSubstageWhere(subs, subId, u)))
  }

  function UpdateSubstageWhere(ss: seq<Stage>, stageId: string, subId: string, u: SubstagePatch): (r: seq<Stage>)
    ensures |r| == |ss|
    ensures forall i :: 0 <= i < |ss| ==> r[i] == WithMergedSubstage(ss[i], stageId, subId, u)
  {
    if ss == [] then []
    else [WithMergedSubstage(ss[0], stageId, subId, u)] + UpdateSubstageWhere(ss[1..], stageId, subId, u)
  }

  /** `handleUpdateSubstage(stageId, subId, u)`: under the process stage `stageId`
      only, merges `u` into the substage `subId`. No substage list changes length,
      no other stage changes, and `finalStages` is never touched. */
  function UpdateSubstage(e: EditorState, stageId: string, subId: string, u: SubstagePatch): (r: EditorState)
    ensures |r.processStages| == |e.processStages|
    ensures forall i :: 0 <= i < |e.processStages| && e.processStages[i].id != stageId ==>
      r.processStages[i] == e.processStages[i]
    ensures forall i :: 0 <= i < |e.processStages| ==>
      r.processStages[i].(substages := e.processStages[i].substages) == e.processStages[i]
      && |Subs(r.processStages[i])| == |Subs(e.processStages[i])|
      && r.processStages[i].substages.Some? == e.processStages[i].substages.Some?
    ensures forall i, j :: 0 <= i < |e.processStages| && 0 <= j < |Subs(e.processStages[i])| ==>
      Subs(r.processStages[i])[j] ==
        if e.processStages[i].id == stageId && Subs(e.processStages[i])[j].id == subId
        then MergeSubstage(Subs(e.processStages[i])[j], u)
        else Subs(e.processStages[i])[j]
    ensures r.(processStages := e.processStages) == e
  {
    e.(processStages := UpdateSubstageWhere(e.processStages, stageId, subId, u))
  }

  /** Adding a process stage under a fresh id keeps the editor valid, and the new
      id then names exactly one stage: the last process stage. */
  lemma AddProcessStageKeepsValid(e: EditorState, newId: string)
    requires Valid(e) && FreshStageId(e, newId)
    ensures Valid(AddProcessStage(e, newId))
    ensures forall i :: 0 <= i < TotalStages(e) + 1 ==>
      (AllStages(AddProcessStage(e, newId))[i].id == newId <==> i == |e.processStages|)
  {
    var r := AddProcessStage(e, newId);
    var all, all' := AllStages(e), AllStages(r);
    var n := |e.processStages|;
    assert |all'| == |all| + 1;
    assert forall i :: 0 <= i < |all'| ==> all'[i] == if i < n then all[i] else if i == n then NewProcessStage(newId) else all[i - 1] by {
      forall i | 0 <= i < |all'|
        ensures all'[i] == if i < n then all[i] else if i == n then NewProcessStage(newId) else all[i - 1]
      {
        if i < n {
          assert all'[i] == r.processStages[i];
        } else if i > n {
          assert all'[i] == r.finalStages[i - n - 1] && all[i - 1] == e.finalStages[i - n - 1];
        }
      }
    }
    forall i | 0 <= i < |all| ensures all[i].id != newId {
      if all[i].id == newId {
        assert HasStage(all, newId);
      }
    }
    forall i | 0 <= i < |all'| ensures DistinctSubstageIds(Subs(all'[i])) && (all'[i].id == newId <==> i == n) {
      if i != n {
        assert all'[i] == all[if i < n then i else i - 1];
      }
    }
    forall i, j | 0 <= i < j < |all'|
      ensures all'[i].id != all'[j].id && SubstageIdSet(all'[i]) !! SubstageIdSet(all'[j])
    {
      if i != n && j != n {
        var i', j' := if i < n then i else i - 1, if j < n then j else j - 1;
        assert i' < j';
        assert all'[i] == all[i'] && all'[j] == all[j'];
      } else {
        assert SubstageIdSet(NewProcessStage(newId)) == {};
      }
    }
  }

  /** Adding a final stage under a fresh id keeps the editor valid, and the new id
      then names exactly one stage: the last final stage. */
  lemma AddFinalStageKeepsValid(e: EditorState, newId: string)
    requires Valid(e) && FreshStageId(e, newId)
    ensures Valid(AddFinalStage(e, newId))
    ensures forall i :: 0 <= i < TotalStages(e) + 1 ==>
      (AllStages(AddFinalStage(e, newId))[i].id == newId <==> i == TotalStages(e))
  {
    var r := AddFinalStage(e, newId);
    assert AllStages(r) == AllStages(e) + [NewFinalStage(newId)];
    assert SubstageIdSet(NewFinalStage(newId)) == {};
  }

  /** What adding a substage does to the stage at position `i` of `allStages`:
      its substage ids stay unique and gain at most the fresh id, and only when
      it is a process stage with the id. */
  lemma AddSubstageAt(e: EditorState, stageId: string, newSubId: string, i: nat)
    requires Valid(e) && FreshSubstageId(e, newSubId) && i < |AllStages(e)|
    ensures var all, all' := AllStages(e), AllStages(AddSubstage(e, stageId, newSubId));
      && |all'| == |all| && all'[i].id == all[i].id && all'[i].isFinal == all[i].isFinal
      && DistinctSubstageIds(Subs(all'[i]))
      && newSubId !in SubstageIdSet(all[i])
      && SubstageIdSet(all'[i]) <= SubstageIdSet(all[i]) + (if i < |e.processStages| && all[i].id == stageId then {newSubId} else {})
  {
    var r := AddSubstage(e, stageId, newSubId);
    var all, all' := AllStages(e), AllStages(r);
    var n := |e.processStages|;
    assert DistinctSubstageIds(Subs(all[i]));
    assert !HasSubstage(Subs(all[i]), newSubId);
    SubstageIdSetIff(all[i], newSubId);
    if i < n && all[i].id == stageId {
      assert all'[i] == r.processStages[i] && all[i] == e.processStages[i];
      assert Subs(all'[i]) == Subs(all[i]) + [NewSubstage(newSubId)];
      forall id | id in SubstageIdSet(all'[i]) ensures id in SubstageIdSet(all[i]) + {newSubId} {
        var j :| 0 <= j < |Subs(all'[i])| && Subs(all'[i])[j].id == id;
        if j < |Subs(all[i])| {
          assert Subs(all[i])[j].id in SubstageIdSet(all[i]);
        }
      }
    } else if i < n {
      assert all'[i] == r.processStages[i] && all[i] == e.processStages[i];
    } else {
      assert all'[i] == r.finalStages[i - n] && all[i] == e.finalStages[i - n];
    }
  }

  /** Adding a substage under a fresh substage id keeps the editor valid; when the
      stage exists, it is the one stage that gains a substage, and it gains exactly one. */
  lemma AddSubstageKeepsValid(e: EditorState, stageId: string, newSubId: string)
    requires Valid(e) && FreshSubstageId(e, newSubId)
    ensures Valid(AddSubstage(e, stageId, newSubId))
    ensures forall i :: 0 <= i < |e.processStages| ==>
      |Subs(AddSubstage(e, stageId, newSubId).processStages[i])| ==
        |Subs(e.processStages[i])| + (if e.processStages[i].id == stageId then 1 else 0)
  {
    var r := AddSubstage(e, stageId, newSubId);
    var all, all' := AllStages(e), AllStages(r);
    var n := |e.processStages|;
    forall i | 0 <= i < |all|
      ensures all'[i].id == all[i].id && all'[i].isFinal == all[i].isFinal
      ensures DistinctSubstageIds(Subs(all'[i]))
      ensures newSubId !in SubstageIdSet(all[i])
      ensures SubstageIdSet(all'[i]) <= SubstageIdSet(all[i]) + (if i < n && all[i].id == stageId then {newSubId} else {})
    {
      AddSubstageAt(e, stageId, newSubId, i);
    }
    var k: int := -1;
    if i :| 0 <= i < n && all[i].id == stageId {
      k := i;
      assert forall i' :: 0 <= i' < n && all[i'].id == stageId ==> i' == k;
    }
    SubstageIdsDisjointKept(all, all', newSubId, k);
  }

  /** An update that keeps identities keeps every stage's id, final flag and
      substage list in place, and so keeps the editor valid. */
  lemma UpdateStageKeepsValid(e: EditorState, id: string, u: StagePatch)
    requires Valid(e) && KeepsIdentity(u)
    ensures |AllStages(UpdateStage(e, id, u))| == |AllStages(e)|
    ensures forall i :: 0 <= i < |AllStages(e)| ==>
      var st, st' := AllStages(e)[i], AllStages(UpdateStage(e, id, u))[i];
      st'.id == st.id && st'.isFinal == st.isFinal && Subs(st') == Subs(st)
    ensures Valid(UpdateStage(e, id, u))
  {
    var r := UpdateStage(e, id, u);
    var all, all' := AllStages(e), AllStages(r);
    var n := |e.processStages|;
    forall i | 0 <= i < |all|
      ensures all'[i].id == all[i].id && all'[i].isFinal == all[i].isFinal && Subs(all'[i]) == Subs(all[i])
    {
      MergeStageKeys(all[i], u);
      if i < n {
        assert all'[i] == r.processStages[i] && all[i] == e.processStages[i];
      } else {
        assert all'[i] == r.finalStages[i - n] && all[i] == e.finalStages[i - n];
      }
    }
    SubstageIdsDisjointKept(all, all', "", -1);
  }

  /** An update of a stage id that names no stage changes nothing. */
  lemma UpdateUnknownStageIsNoop(e: EditorState, id: string, u: StagePatch)
    requires !HasStage(AllStages(e), id)
    ensures UpdateStage(e, id, u) == e
  {
    var r := UpdateStage(e, id, u);
    var n := |e.processStages|;
    forall i | 0 <= i < n ensures e.processStages[i].id != id {
      assert AllStages(e)[i] == e.processStages[i];
    }
    forall i | 0 <= i < |e.finalStages| ensures e.finalStages[i].id != id {
      assert AllStages(e)[n + i] == e.finalStages[i];
    }
    assert r.processStages == e.processStages;
    assert r.finalStages == e.finalStages;
  }

  /** A substage update that keeps the substage id keeps the editor valid. */
  lemma UpdateSubstageKeepsValid(e: EditorState, stageId: string, subId: string, u: SubstagePatch)
    requires Valid(e) && u.id.None?
    ensures Valid(UpdateSubstage(e, stageId, subId, u))
  {
    var r := UpdateSubstage(e, stageId, subId, u);
    var all, all' := AllStages(e), AllStages(r);
    var n := |e.processStages|;
    forall i | 0 <= i < |all|
      ensures all'[i].id == all[i].id && all'[i].isFinal == all[i].isFinal
      ensures DistinctSubstageIds(Subs(all'[i]))
      ensures SubstageIdSet(all'[i]) == SubstageIdSet(all[i])
    {
      if i < n {
        assert all'[i] == r.processStages[i] && all[i] == e.processStages[i];
        assert DistinctSubstageIds(Subs(all[i]));
        forall j | 0 <= j < |Subs(all[i])| ensures Subs(all'[i])[j].id == Subs(all[i])[j].id {
          MergeSubstageKeys(Subs(all[i])[j], u);
        }
        SameIdsSameSet(all[i], all'[i]);
      } else {
        assert all'[i] == r.finalStages[i - n] && all[i] == e.finalStages[i - n];
      }
    }
    SubstageIdsDisjointKept(all, all', "", -1);
  }

  /** A substage update under a stage id that names no process stage changes nothing. */
  lemma UpdateSubstageOfUnknownStageIsNoop(e: EditorState, stageId: string, subId: string, u: SubstagePatch)
    requires !HasStage(e.processStages, stageId)
    ensures UpdateSubstage(e, stageId, subId, u) == e
  {
    assert UpdateSubstage(e, stageId, subId, u).processStages == e.processStages;
  }
}
