/** The edits made through the side panel and the list rows. Every edit is live:
    it is merged into the collections at once through `handleUpdateStage` or
    `handleUpdateSubstage`, addressed by the ids of what the panel shows. */
module Inspector {
  import opened Common
  import opened StageModel
  import opened Editor
  import opened Selection
  import opened Workflow
  import opened MapView

  /** A list row commits its typed name on blur or Enter. */
  function CommitRowName(e: EditorState, stageId: string, name: string): EditorState {
    UpdateStage(e, stageId, CommitNamePatch(name))
  }

  /** Typing in the stage panel's name field. */
  function EditStageName(e: EditorState, text: string): EditorState {
    match SidePanel(e)
    case StagePanel(st) => UpdateStage(e, st.id, NamePatch(text))
    case _ => e
  }

  /** Typing in the stage panel's description box. */
  function EditStageDescription(e: EditorState, text: string): EditorState {
    match SidePanel(e)
    case StagePanel(st) => UpdateStage(e, st.id, DescriptionPatch(text))
    case _ => e
  }

  /** The stage panel's "Incoming transitions" toggle: writes the negation of `!!allowIncomingTransitions`. */
  function ToggleIncoming(e: EditorState): EditorState {
    match SidePanel(e)
    case StagePanel(st) => UpdateStage(e, st.id, IncomingPatch(!Truthy(st.allowIncomingTransitions)))
    case _ => e
  }

  /** Typing in the substage panel's name field. */
  function EditSubstageName(e: EditorState, text: string): EditorState {
    match SidePanel(e)
    case SubstagePanel(st, sub) => UpdateSubstage(e, st.id, sub.id, SubstageNamePatch(text))
    case _ => e
  }

  /** The workflow dropdown button. */
  function ToggleWorkflowDropdown(e: EditorState): EditorState {
    e.(isWorkflowDropdownOpen := !e.isWorkflowDropdownOpen)
  }

  /** Choosing workflow option `k` in the substage panel: stores its encoding in the
      substage's description and closes the dropdown. */
  function ChooseWorkflow(e: EditorState, k: nat): EditorState
    requires k < |Options|
  {
    match SidePanel(e)
    case SubstagePanel(st, sub) =>
      UpdateSubstage(e, st.id, sub.id, SubstageDescriptionPatch(Encode(Options[k].name))).(isWorkflowDropdownOpen := false)
    case _ => e
  }

  /** Choosing a workflow keeps the selection and the ids of every stage, so the
      selected stage is still found at the same place. */
  lemma ChooseWorkflowKeepsStage(e: EditorState, k: nat, i: nat, j: nat)
    requires DistinctStageIds(AllStages(e)) && k < |Options|
    requires i < |e.processStages| && j < |Subs(e.processStages[i])|
    requires SidePanel(e) == SubstagePanel(e.processStages[i], Subs(e.processStages[i])[j])
    ensures var r := ChooseWorkflow(e, k);
      && r.selectedStageId == e.selectedStageId && r.selectedSubstageId == e.selectedSubstageId
      && |r.processStages| == |e.processStages|
      && SelectedStage(r) == Some(r.processStages[i])
  {
    var st := e.processStages[i];
    var r := ChooseWorkflow(e, k);
    var n := |e.processStages|;
    var all, all' := AllStages(e), AllStages(r);
    assert all[i] == st;
    forall i' | 0 <= i' < |all| ensures all'[i'].id == all[i'].id {
      if i' < n {
        assert all'[i'] == r.processStages[i'] && all[i'] == e.processStages[i'];
      } else {
        assert all'[i'] == r.finalStages[i' - n] && all[i'] == e.finalStages[i' - n];
      }
    }
    SidePanelShownIff(e);
    FindByKeysOnly(all, all', StageId, st.id, 0);
    FindUniqueStage(all, i);
    assert all'[i] == r.processStages[i];
  }

  /** Choosing a workflow keeps the side panel on the same substage of the same stage. */
  lemma ChooseWorkflowKeepsPanel(e: EditorState, k: nat, i: nat, j: nat)
    requires DistinctStageIds(AllStages(e)) && k < |Options|
    requires i < |e.processStages| && j < |Subs(e.processStages[i])|
    requires DistinctSubstageIds(Subs(e.processStages[i]))
    requires SidePanel(e) == SubstagePanel(e.processStages[i], Subs(e.processStages[i])[j])
    ensures var r := ChooseWorkflow(e, k);
      |r.processStages| == |e.processStages| && |Subs(r.processStages[i])| == |Subs(e.processStages[i])|
      && SidePanel(r) == SubstagePanel(r.processStages[i], Subs(r.processStages[i])[j])
  {
    var st, sub := e.processStages[i], Subs(e.processStages[i])[j];
    var u := SubstageDescriptionPatch(Encode(Options[k].name));
    var r := ChooseWorkflow(e, k);
    ChooseWorkflowKeepsStage(e, k, i, j);
    SidePanelShownIff(e);
    forall j' | 0 <= j' < |Subs(st)| ensures Subs(r.processStages[i])[j'].id == Subs(st)[j'].id {
      MergeSubstageKeys(Subs(st)[j'], u);
    }
    FindByKeysOnly(Subs(st), Subs(r.processStages[i]), SubstageId, sub.id, 0);
    assert FindFrom(Subs(st), SubstageId, sub.id, 0) == Some(j);
    assert SelectedSubstage(r) == Some(Subs(r.processStages[i])[j]);
  }

  /** Choosing workflow `k` for the substage shown in the panel, under a process
      stage, rewrites that substage's description alone: every other substage and
      stage, and all final stages, are kept. */
  lemma ChooseWorkflowEditsOneSubstage(e: EditorState, k: nat, i: nat, j: nat)
    requires DistinctStageIds(AllStages(e)) && k < |Options|
    requires i < |e.processStages| && j < |Subs(e.processStages[i])|
    requires DistinctSubstageIds(Subs(e.processStages[i]))
    requires SidePanel(e) == SubstagePanel(e.processStages[i], Subs(e.processStages[i])[j])
    ensures var r := ChooseWorkflow(e, k);
      && r.finalStages == e.finalStages
      && !r.isWorkflowDropdownOpen
      && (forall i', j' :: 0 <= i' < |e.processStages| && 0 <= j' < |Subs(e.processStages[i'])| ==>
            Subs(r.processStages[i'])[j'] ==
              if i' == i && j' == j
              then Subs(e.processStages[i])[j].(description := Some(Encode(Options[k].name)))
              else Subs(e.processStages[i'])[j'])
  {
    var st := e.processStages[i];
    var all := AllStages(e);
    assert all[i] == st;
    forall i' | 0 <= i' < |e.processStages| && i' != i ensures e.processStages[i'].id != st.id {
      assert all[i'] == e.processStages[i'];
    }
  }

  /** After choosing workflow `k` for the substage shown in the panel, the panel
      stays on that substage, its button reads the workflow's name and only option
      `k` is checked. */
  lemma ChooseWorkflowEffect(e: EditorState, k: nat, i: nat, j: nat)
    requires DistinctStageIds(AllStages(e)) && k < |Options|
    requires i < |e.processStages| && j < |Subs(e.processStages[i])|
    requires DistinctSubstageIds(Subs(e.processStages[i]))
    requires SidePanel(e) == SubstagePanel(e.processStages[i], Subs(e.processStages[i])[j])
    ensures var r := ChooseWorkflow(e, k);
      && SidePanel(r).SubstagePanel?
      && SidePanel(r).sub == Subs(e.processStages[i])[j].(description := Some(Encode(Options[k].name)))
      && Label(SidePanel(r).sub.description) == Options[k].name
      && (forall o :: 0 <= o < |Options| ==> (CheckShown(SidePanel(r).sub.description, Options[o]) <==> o == k))
  {
    ChooseWorkflowKeepsPanel(e, k, i, j);
    ChooseWorkflowEditsOneSubstage(e, k, i, j);
    LabelRoundTrip(Options[k].name);
    forall o | 0 <= o < |Options| ensures CheckShown(Some(Encode(Options[k].name)), Options[o]) <==> o == k {
      CheckShownExactlyForChosen(k, o);
    }
  }

  /** Toggling incoming transitions on a process stage shown in the panel moves it
      between the connected chain and the freestanding group of the map view, and
      changes nothing else in the collections. */
  lemma ToggleIncomingMovesStage(e: EditorState, i: nat)
    requires Valid(e) && i < |e.processStages|
    requires SidePanel(e) == StagePanel(e.processStages[i])
    ensures var r := ToggleIncoming(e);
      && |r.processStages| == |e.processStages|
      && IsFreestanding(r.processStages[i]) == !IsFreestanding(e.processStages[i])
      && r.processStages[i] == e.processStages[i].(allowIncomingTransitions := r.processStages[i].allowIncomingTransitions)
      && (forall i' :: 0 <= i' < |e.processStages| && i' != i ==> r.processStages[i'] == e.processStages[i'])
      && r.finalStages == e.finalStages
  {
    var st := e.processStages[i];
    var n := |e.processStages|;
    assert AllStages(e)[i] == st;
    forall i' | 0 <= i' < n && i' != i ensures e.processStages[i'].id != st.id {
      assert AllStages(e)[i'] == e.processStages[i'];
    }
    forall f | 0 <= f < |e.finalStages| ensures e.finalStages[f].id != st.id {
      assert AllStages(e)[n + f] == e.finalStages[f];
    }
    assert ToggleIncoming(e).finalStages == e.finalStages;
  }

  /** With unique ids, updating the stage at position `i` of `allStages` by its id
      merges the update into that stage alone. */
  lemma UpdateOnlyStage(e: EditorState, i: nat, u: StagePatch)
    requires DistinctStageIds(AllStages(e)) && i < |AllStages(e)|
    ensures var r := UpdateStage(e, AllStages(e)[i].id, u);
      && |AllStages(r)| == |AllStages(e)|
      && (forall j :: 0 <= j < |AllStages(e)| ==>
            AllStages(r)[j] == if j == i then MergeStage(AllStages(e)[i], u) else AllStages(e)[j])
  {
    var r := UpdateStage(e, AllStages(e)[i].id, u);
    var n := |e.processStages|;
    forall j | 0 <= j < |AllStages(e)|
      ensures AllStages(r)[j] == if j == i then MergeStage(AllStages(e)[i], u) else AllStages(e)[j]
    {
      if j < n {
        assert AllStages(r)[j] == r.processStages[j] && AllStages(e)[j] == e.processStages[j];
      } else {
        assert AllStages(r)[j] == r.finalStages[j - n] && AllStages(e)[j] == e.finalStages[j - n];
      }
    }
  }

  /** Typing in the stage panel's name or description field rewrites that field of
      the stage shown, whatever the text (an empty name included), and changes no
      other stage. */
  lemma EditStageFieldsEffect(e: EditorState, i: nat, text: string)
    requires DistinctStageIds(AllStages(e)) && i < |AllStages(e)|
    requires SidePanel(e) == StagePanel(AllStages(e)[i])
    ensures var r := EditStageName(e, text);
      && |AllStages(r)| == |AllStages(e)|
      && (forall j :: 0 <= j < |AllStages(e)| ==>
            AllStages(r)[j] == if j == i then AllStages(e)[i].(name := text) else AllStages(e)[j])
    ensures var r := EditStageDescription(e, text);
      && |AllStages(r)| == |AllStages(e)|
      && (forall j :: 0 <= j < |AllStages(e)| ==>
            AllStages(r)[j] == if j == i then AllStages(e)[i].(description := Some(text)) else AllStages(e)[j])
  {
    UpdateOnlyStage(e, i, NamePatch(text));
    UpdateOnlyStage(e, i, DescriptionPatch(text));
  }

  /** Every stage edit, from a list row or the stage panel, keeps the editor
      invariant: ids stay unique and every stage stays in its collection. */
  lemma StageEditsKeepValid(e: EditorState, stageId: string, text: string)
    requires Valid(e)
    ensures Valid(CommitRowName(e, stageId, text))
    ensures Valid(EditStageName(e, text)) && Valid(EditStageDescription(e, text)) && Valid(ToggleIncoming(e))
  {
    UpdateStageKeepsValid(e, stageId, CommitNamePatch(text));
    if SidePanel(e).StagePanel? {
      var st := SidePanel(e).stage;
      UpdateStageKeepsValid(e, st.id, NamePatch(text));
      UpdateStageKeepsValid(e, st.id, DescriptionPatch(text));
      UpdateStageKeepsValid(e, st.id, IncomingPatch(!Truthy(st.allowIncomingTransitions)));
    }
  }

  /** Every substage-panel edit keeps the editor invariant too. */
  lemma SubstageEditsKeepValid(e: EditorState, text: string, k: nat)
    requires Valid(e) && k < |Options|
    ensures Valid(EditSubstageName(e, text)) && Valid(ToggleWorkflowDropdown(e)) && Valid(ChooseWorkflow(e, k))
  {
    if SidePanel(e).SubstagePanel? {
      var st, sub := SidePanel(e).stage, SidePanel(e).sub;
      UpdateSubstageKeepsValid(e, st.id, sub.id, SubstageNamePatch(text));
      UpdateSubstageKeepsValid(e, st.id, sub.id, SubstageDescriptionPatch(Encode(Options[k].name)));
    }
  }
}
