/** The editor as it opens: five process stages and three final stages, nothing
    selected, generation running with no row revealed yet. Two walkthroughs are
    checked against it: the full reveal, and choosing a workflow for the
    "Primary Interview" substage of the "Interview" stage. */
module EditorFixture {
  import opened Common
  import opened StageModel
  import opened Editor
  import opened Reveal
  import opened Selection
  import opened Workflow
  import opened Inspector

  function Sub(id: string, name: string, indicators: seq<Indicator>, description: Option<string>): Substage {
    Substage(id, name, indicators, description, None, None)
  }

  function ProcessStageOf(id: string, name: string, count: int, indicators: seq<Indicator>, subs: seq<Substage>, description: Option<string>): Stage {
    Stage(id, name, Some(count), indicators, Some(subs), None, None, None, description, Some(false))
  }

  function FinalStageOf(id: string, name: string, color: string, indicators: seq<Indicator>, subs: seq<Substage>): Stage {
    Stage(id, name, None, indicators, Some(subs), Some(color), Some(true), None, None, Some(false))
  }

  const DownUp: seq<Indicator> := [Indicator(Down, 1), Indicator(Up, 3)]

  const InitialProcessStages: seq<Stage> := [
    ProcessStageOf("p1", "New Applicant", 1, [Indicator(Up, 3)],
      [Sub("s1", "Initial Application", [Indicator(Up, 3)], None)], None),
    ProcessStageOf("p2", "Screening", 2, DownUp,
      [Sub("s2", "Assessment", [Indicator(Down, 1)], None),
       Sub("s3", "Recruiter Review", [Indicator(Up, 3)], None)], None),
    ProcessStageOf("p3", "Interview", 2, DownUp,
      [Sub("s4", "Primary Interview", DownUp, Some("Workflow: Interview Workflow")),
       Sub("s5", "Secondary Interview", DownUp, Some("Workflow: Interview Workflow"))], None),
    ProcessStageOf("p4", "Offer", 1, DownUp, [Sub("s6", "Offer", DownUp, None)], None),
    ProcessStageOf("p5", "Waitlist", 0, [], [], Some("Stage description"))
  ]

  const InitialFinalStages: seq<Stage> := [
    FinalStageOf("f1", "Hired", "bg-emerald-500", [Indicator(Down, 1)],
      [Sub("s7", "highly qualified", [], None), Sub("s8", "qualified", [], None)]),
    FinalStageOf("f2", "Rejected", "bg-rose-500", [Indicator(Down, 4)],
      [Sub("s9", "low fit score", [], None), Sub("s10", "assessment not passed", [], None)]),
    FinalStageOf("f3", "Withdrawn", "bg-rose-500", [Indicator(Down, 4)],
      [Sub("s11", "Response timeout", [], None), Sub("s12", "Offer declined", [], None)])
  ]

  function Initial(): EditorState {
    EditorState(ListView, true, 0, false, false, None, None, InitialProcessStages, InitialFinalStages)
  }

  /** A rank of the fixture's two-character ids: process ids before final ids,
      then by digit. */
  function IdRank(s: Stage): int {
    if |s.id| == 2 then (if s.id[0] == 'p' then 0 else 100) + s.id[1] as int else 0
  }

  /** Ranks that increase along a sequence of stages make its ids distinct. */
  lemma {:induction false} IncreasingRankIsDistinct(ss: seq<Stage>)
    requires forall i :: 0 <= i < |ss| - 1 ==> IdRank(ss[i]) < IdRank(ss[i + 1])
    ensures DistinctStageIds(ss)
  {
    if |ss| > 1 {
      IncreasingRankIsDistinct(ss[1..]);
      assert forall j :: 0 < j < |ss| ==> IdRank(ss[0]) < IdRank(ss[j]) by {
        forall j | 0 < j < |ss| ensures IdRank(ss[0]) < IdRank(ss[j]) {
          RankIncreases(ss, 0, j);
        }
      }
      forall i, j | 0 <= i < j < |ss| ensures ss[i].id != ss[j].id {
        if i > 0 {
          assert ss[i] == ss[1..][i - 1] && ss[j] == ss[1..][j - 1];
        }
      }
    }
  }

  lemma {:induction false} RankIncreases(ss: seq<Stage>, i: nat, j: nat)
    requires forall k :: 0 <= k < |ss| - 1 ==> IdRank(ss[k]) < IdRank(ss[k + 1])
    requires i < j < |ss|
    ensures IdRank(ss[i]) < IdRank(ss[j])
    decreases j - i
  {
    if i + 1 < j {
      RankIncreases(ss, i + 1, j);
    }
  }

  /** Stage ids are unique in the opening state, and the reveal counter starts bounded. */
  lemma InitialIdsDistinct()
    ensures DistinctStageIds(AllStages(Initial()))
    ensures RevealBounded(Initial()) && Initial().isGenerating && TotalStages(Initial()) == 8
  {
    var all := AllStages(Initial());
    assert all == InitialProcessStages + InitialFinalStages;
    assert |all| == 8;
    assert IdRank(all[0]) == 49 && IdRank(all[1]) == 50 && IdRank(all[2]) == 51 && IdRank(all[3]) == 52;
    assert IdRank(all[4]) == 53 && IdRank(all[5]) == 149 && IdRank(all[6]) == 150 && IdRank(all[7]) == 151;
    IncreasingRankIsDistinct(all);
  }

  /** Within each opening stage, substage ids are unique. */
  lemma InitialSubstageIdsDistinct(i: nat)
    requires i < |AllStages(Initial())|
    ensures DistinctSubstageIds(Subs(AllStages(Initial())[i]))
  {
    var all := AllStages(Initial());
    if i < |InitialProcessStages| {
      assert all[i] == InitialProcessStages[i];
    } else {
      assert all[i] == InitialFinalStages[i - |InitialProcessStages|];
    }
  }

  /** The id set of a stage with at most two substages, spelled out. */
  lemma SmallSubstageIdSet(st: Stage)
    requires |Subs(st)| <= 2
    ensures |Subs(st)| == 0 ==> SubstageIdSet(st) == {}
    ensures |Subs(st)| == 1 ==> SubstageIdSet(st) == {Subs(st)[0].id}
    ensures |Subs(st)| == 2 ==> SubstageIdSet(st) == {Subs(st)[0].id, Subs(st)[1].id}
  {
    if |Subs(st)| > 0 {
      assert Subs(st)[0].id in SubstageIdSet(st);
    }
    if |Subs(st)| > 1 {
      assert Subs(st)[1].id in SubstageIdSet(st);
    }
  }

  /** The substage ids of each opening stage. */
  lemma InitialSubstageIdSets()
    ensures var all := AllStages(Initial());
      && SubstageIdSet(all[0]) == {"s1"} && SubstageIdSet(all[1]) == {"s2", "s3"}
      && SubstageIdSet(all[2]) == {"s4", "s5"} && SubstageIdSet(all[3]) == {"s6"}
      && SubstageIdSet(all[4]) == {} && SubstageIdSet(all[5]) == {"s7", "s8"}
      && SubstageIdSet(all[6]) == {"s9", "s10"} && SubstageIdSet(all[7]) == {"s11", "s12"}
  {
    var all := AllStages(Initial());
    assert all == InitialProcessStages + InitialFinalStages;
    forall k | 0 <= k < 8 ensures |Subs(all[k])| <= 2 {
    }
    SmallSubstageIdSet(all[0]);
    SmallSubstageIdSet(all[1]);
    SmallSubstageIdSet(all[2]);
    SmallSubstageIdSet(all[3]);
    SmallSubstageIdSet(all[4]);
    SmallSubstageIdSet(all[5]);
    SmallSubstageIdSet(all[6]);
    SmallSubstageIdSet(all[7]);
  }

  /** No substage id of the opening data occurs under two stages. */
  lemma InitialSubstageIdsDisjoint()
    ensures SubstageIdsDisjoint(AllStages(Initial()))
  {
    InitialSubstageIdSets();
  }

  /** The editor opens in a state satisfying the invariant every handler keeps. */
  lemma InitialValid()
    ensures Valid(Initial())
  {
    InitialIdsDistinct();
    InitialSubstageIdsDisjoint();
    forall i | 0 <= i < |AllStages(Initial())| ensures DistinctSubstageIds(Subs(AllStages(Initial())[i])) {
      InitialSubstageIdsDistinct(i);
    }
  }

  /** Eight ticks reveal all eight rows while generation still runs; the ninth ends
      generation, and no later tick changes anything. */
  lemma InitialRevealScenario(extra: nat)
    ensures Ticks(Initial(), 8).isGenerating
    ensures forall i :: 0 <= i < 8 ==> RowVisible(Ticks(Initial(), 8), i)
    ensures !Ticks(Initial(), 9 + extra).isGenerating
    ensures Ticks(Initial(), 9 + extra) == Ticks(Initial(), 9)
  {
    InitialIdsDistinct();
    GenerationCompletes(Initial(), extra);
  }

  /** Clicking "Primary Interview" under "Interview" opens its substage panel. */
  lemma ClickPrimaryInterviewScenario()
    ensures var e := ClickSubstage(Initial(), "s4", "p3");
      && DistinctStageIds(AllStages(e))
      && 2 < |e.processStages| && 0 < |Subs(e.processStages[2])|
      && DistinctSubstageIds(Subs(e.processStages[2]))
      && SidePanel(e) == SubstagePanel(e.processStages[2], Subs(e.processStages[2])[0])
      && Subs(e.processStages[2])[0].name == "Primary Interview"
  {
    InitialIdsDistinct();
    assert DistinctSubstageIds(Subs(InitialProcessStages[2]));
    assert AllStages(Initial())[2] == InitialProcessStages[2];
    ClickSubstageOpensSubstagePanel(Initial(), 2, 0);
  }

  /** The stored form of the "HR Approval Flow" option. */
  lemma HrEncoding()
    ensures Encode(Options[1].name) == "Workflow: HR Approval Flow"
  {
  }

  /** Then choosing "HR Approval Flow" stores that workflow on the substage and
      shows it on the button. */
  lemma ChooseHrWorkflowScenario()
    ensures var r := ChooseWorkflow(ClickSubstage(Initial(), "s4", "p3"), 1);
      && Subs(r.processStages[2])[0].description == Some("Workflow: HR Approval Flow")
      && SidePanel(r).SubstagePanel?
      && Label(SidePanel(r).sub.description) == "HR Approval Flow"
  {
    var e := ClickSubstage(Initial(), "s4", "p3");
    ClickPrimaryInterviewScenario();
    ChooseWorkflowEditsOneSubstage(e, 1, 2, 0);
    ChooseWorkflowEffect(e, 1, 2, 0);
    HrEncoding();
  }

  /** The opening data spells the workflow "Interview Workflow", which is not the
      option "Interview workflow": the button shows the name but no option is checked. */
  lemma InitialWorkflowIsUnchecked()
    ensures Label(Subs(InitialProcessStages[2])[0].description) == "Interview Workflow"
    ensures forall o :: 0 <= o < |Options| ==> !CheckShown(Subs(InitialProcessStages[2])[0].description, Options[o])
  {
    assert Encode("Interview Workflow") == "Workflow: Interview Workflow";
    assert Subs(InitialProcessStages[2])[0].description == Some(Encode("Interview Workflow"));
    LabelRoundTrip("Interview Workflow");
    forall o | 0 <= o < |Options| ensures Options[o].name != "Interview Workflow" {
      assert Options[o].name[10] != 'W';
    }
    forall o | 0 <= o < |Options|
      ensures !CheckShown(Subs(InitialProcessStages[2])[0].description, Options[o])
    {
      EncodeInjective("Interview Workflow", Options[o].name);
    }
  }
}
