/** The editor's selection, `(selectedStageId, selectedSubstageId)`, the clicks
    that set it, and the side panel it drives. The two ids are set independently
    at each call site, so nothing forces a selected substage to belong to the
    selected stage; closing the stage panel clears the stage id only. */
module Selection {
  import opened Common
  import opened StageModel
  import opened Editor

  /** A click on a stage card: `(stageId, null)`. */
  function ClickStage(e: EditorState, stageId: string): EditorState {
    e.(selectedStageId := Some(stageId), selectedSubstageId := None)
  }

  /** A click on a substage card of the stage `stageId`: `(stageId, subId)`. */
  function ClickSubstage(e: EditorState, subId: string, stageId: string): EditorState {
    e.(selectedStageId := Some(stageId), selectedSubstageId := Some(subId))
  }

  /** The "List" toggle: switches view and clears both ids. */
  function ShowList(e: EditorState): EditorState {
    e.(viewMode := ListView, selectedStageId := None, selectedSubstageId := None)
  }

  /** The "Map" toggle: switches view and keeps the selection. */
  function ShowMap(e: EditorState): EditorState {
    e.(viewMode := MapView)
  }

  /** The close button of the substage panel. */
  function CloseSubstagePanel(e: EditorState): EditorState {
    e.(selectedSubstageId := None)
  }

  /** The close button of the stage panel. */
  function CloseStagePanel(e: EditorState): EditorState {
    e.(selectedStageId := None)
  }

  /** `allStages.find(s => s.id === selectedStageId)`. */
  function SelectedStage(e: EditorState): Option<Stage> {
    match e.selectedStageId
    case None => None
    case Some(id) =>
      match FindFrom(AllStages(e), StageId, id, 0)
      case None => None
      case Some(i) => Some(AllStages(e)[i])
  }

  /** `selectedStage?.substages?.find(s => s.id === selectedSubstageId)`. */
  function SelectedSubstage(e: EditorState): Option<Substage> {
    match SelectedStage(e)
    case None => None
    case Some(st) =>
      match e.selectedSubstageId
      case None => None
      case Some(subId) =>
        match FindFrom(Subs(st), SubstageId, subId, 0)
        case None => None
        case Some(j) => Some(Subs(st)[j])
  }

  /** What the side panel shows. */
  datatype Panel = Hidden | StagePanel(stage: Stage) | SubstagePanel(stage: Stage, sub: Substage)

  /** `selectedStageId && selectedStage`, then `selectedSubstageId && selectedSubstage`
      choose between the substage panel and the stage panel. An empty id is falsy. */
  function SidePanel(e: EditorState): Panel {
    if TruthyText(e.selectedStageId) && SelectedStage(e).Some? then
      if TruthyText(e.selectedSubstageId) && SelectedSubstage(e).Some? then
        SubstagePanel(SelectedStage(e).value, SelectedSubstage(e).value)
      else StagePanel(SelectedStage(e).value)
    else Hidden
  }

  /** The panel is shown exactly when the selected stage id is non-empty and names
      a stage of either collection; the stage it shows is the first such stage.
      It is the substage panel exactly when the selected substage id is non-empty
      and names a substage of that stage, and the substage it shows has that id. */
  lemma SidePanelShownIff(e: EditorState)
    ensures SidePanel(e) != Hidden <==>
      TruthyText(e.selectedStageId) && HasStage(AllStages(e), e.selectedStageId.value)
    ensures SidePanel(e) != Hidden ==>
      SidePanel(e).stage.id == e.selectedStageId.value && SidePanel(e).stage in AllStages(e)
    ensures SidePanel(e) != Hidden ==>
      SidePanel(e).stage == AllStages(e)[FindFrom(AllStages(e), StageId, e.selectedStageId.value, 0).value]
    ensures SidePanel(e) != Hidden ==>
      (SidePanel(e).SubstagePanel? <==>
        TruthyText(e.selectedSubstageId) && HasSubstage(Subs(SidePanel(e).stage), e.selectedSubstageId.value))
    ensures SidePanel(e).SubstagePanel? ==>
      SidePanel(e).sub.id == e.selectedSubstageId.value && SidePanel(e).sub in Subs(SidePanel(e).stage)
  {
    if TruthyText(e.selectedStageId) && HasStage(AllStages(e), e.selectedStageId.value) {
      var k :| 0 <= k < |AllStages(e)| && AllStages(e)[k].id == e.selectedStageId.value;
      assert FindFrom(AllStages(e), StageId, e.selectedStageId.value, 0).Some?;
      var st := SelectedStage(e).value;
      if TruthyText(e.selectedSubstageId) && HasSubstage(Subs(st), e.selectedSubstageId.value) {
        assert FindFrom(Subs(st), SubstageId, e.selectedSubstageId.value, 0).Some?;
      }
    }
  }

  /** When stage ids are unique, the panel for a stage id shows the stage with that id. */
  lemma FindUniqueStage(ss: seq<Stage>, i: nat)
    requires DistinctStageIds(ss) && i < |ss|
    ensures FindFrom(ss, StageId, ss[i].id, 0) == Some(i)
  {
  }

  /** Clicking an existing stage card, with a non-empty id, opens the stage panel on it. */
  lemma ClickStageOpensStagePanel(e: EditorState, i: nat)
    requires DistinctStageIds(AllStages(e)) && i < |AllStages(e)| && AllStages(e)[i].id != ""
    ensures SidePanel(ClickStage(e, AllStages(e)[i].id)) == StagePanel(AllStages(e)[i])
  {
    FindUniqueStage(AllStages(e), i);
  }

  /** Clicking an existing substage card opens the substage panel on that substage
      and its parent stage. */
  lemma ClickSubstageOpensSubstagePanel(e: EditorState, i: nat, j: nat)
    requires DistinctStageIds(AllStages(e)) && i < |AllStages(e)| && AllStages(e)[i].id != ""
    requires DistinctSubstageIds(Subs(AllStages(e)[i])) && j < |Subs(AllStages(e)[i])|
    requires Subs(AllStages(e)[i])[j].id != ""
    ensures var st := AllStages(e)[i];
      SidePanel(ClickSubstage(e, Subs(st)[j].id, st.id)) == SubstagePanel(st, Subs(st)[j])
  {
    var st := AllStages(e)[i];
    FindUniqueStage(AllStages(e), i);
    assert FindFrom(Subs(st), SubstageId, Subs(st)[j].id, 0) == Some(j);
  }

  /** Switching to the list view clears the selection and hides the panel. */
  lemma ShowListHidesPanel(e: EditorState)
    ensures ShowList(e).selectedStageId.None? && ShowList(e).selectedSubstageId.None?
    ensures SidePanel(ShowList(e)) == Hidden
  {
  }

  /** The Map toggle keeps the selection, so the same panel stays open. */
  lemma ShowMapKeepsPanel(e: EditorState)
    ensures ShowMap(e).viewMode == MapView
    ensures ShowMap(e).selectedStageId == e.selectedStageId && ShowMap(e).selectedSubstageId == e.selectedSubstageId
    ensures SidePanel(ShowMap(e)) == SidePanel(e)
  {
  }

  /** Closing the substage panel returns to the stage panel of the same stage. */
  lemma CloseSubstagePanelShowsStage(e: EditorState)
    requires SidePanel(e).SubstagePanel?
    ensures SidePanel(CloseSubstagePanel(e)) == StagePanel(SidePanel(e).stage)
  {
  }

  /** Closing the stage panel hides the panel but, as written, keeps the substage id. */
  lemma CloseStagePanelKeepsSubstageId(e: EditorState)
    ensures SidePanel(CloseStagePanel(e)) == Hidden
    ensures CloseStagePanel(e).selectedSubstageId == e.selectedSubstageId
  {
  }

  /** The substage id kept by closing the stage panel never reaches the panel
      again: selecting a stage card clears it, and a substage card or an added
      substage replaces it. */
  lemma StaleSubstageIdIsReplaced(e: EditorState, stageId: string, subId: string)
    ensures !SidePanel(ClickStage(CloseStagePanel(e), stageId)).SubstagePanel?
    ensures ClickSubstage(CloseStagePanel(e), subId, stageId).selectedSubstageId == Some(subId)
    ensures AddSubstage(CloseStagePanel(e), stageId, subId).selectedSubstageId == Some(subId)
  {
  }

  /** After adding a substage to an existing process stage under fresh, non-empty
      ids, the panel shows the new substage under that stage. */
  lemma AddSubstageOpensItsPanel(e: EditorState, i: nat, newSubId: string)
    requires Valid(e) && FreshSubstageId(e, newSubId) && newSubId != ""
    requires i < |e.processStages| && e.processStages[i].id != ""
    ensures var r := AddSubstage(e, e.processStages[i].id, newSubId);
      SidePanel(r) == SubstagePanel(r.processStages[i], NewSubstage(newSubId))
  {
    var stageId := e.processStages[i].id;
    var r := AddSubstage(e, stageId, newSubId);
    AddSubstageKeepsValid(e, stageId, newSubId);
    assert AllStages(r)[i] == r.processStages[i];
    FindUniqueStage(AllStages(r), i);
    var before := Subs(e.processStages[i]);
    var subs := Subs(r.processStages[i]);
    assert subs == before + [NewSubstage(newSubId)];
    assert AllStages(e)[i] == e.processStages[i];
    assert !HasSubstage(before, newSubId);
    assert forall k :: 0 <= k < |before| ==> subs[k] == before[k];
    assert subs[|before|].id == newSubId;
    assert FindFrom(subs, SubstageId, newSubId, 0) == Some(|before|);
  }

  /** Adding a substage under a final stage appends nothing, since only process
      stages are searched, yet still selects the final stage and the fresh id: the
      panel shows that final stage's own stage panel. */
  lemma AddSubstageToFinalStageShowsStage(e: EditorState, i: nat, newSubId: string)
    requires Valid(e) && FreshSubstageId(e, newSubId)
    requires i < |e.finalStages| && e.finalStages[i].id != ""
    ensures var r := AddSubstage(e, e.finalStages[i].id, newSubId);
      r.processStages == e.processStages && r.finalStages == e.finalStages
      && SidePanel(r) == StagePanel(e.finalStages[i])
  {
    var n := |e.processStages|;
    var stageId := e.finalStages[i].id;
    var all := AllStages(e);
    assert all[n + i] == e.finalStages[i];
    assert !HasStage(e.processStages, stageId) by {
      forall k | 0 <= k < n ensures e.processStages[k].id != stageId {
        assert all[k] == e.processStages[k];
      }
    }
    var r := AddSubstage(e, stageId, newSubId);
    assert AllStages(r) == all;
    FindUniqueStage(all, n + i);
    assert !HasSubstage(Subs(all[n + i]), newSubId);
  }
}
