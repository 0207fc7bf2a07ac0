/** The records the process editor keeps in memory (`StageData`, `Substage` and
    their trend indicators), the partial updates its handlers merge into them with
    object spread, and the default records its "add" handlers create. Keys that
    the program declares optional are `Option`s. */
module StageModel {
  import opened Common

  datatype Direction = Up | Down

  /** A decorative trend badge `{ type, val }`. */
  datatype Indicator = Indicator(kind: Direction, val: int)

  datatype Substage = Substage(
    id: string,
    name: string,
    indicators: seq<Indicator>,
    description: Option<string>,
    associatedWorkflows: Option<seq<string>>,
    customStates: Option<seq<string>>)

  datatype Stage = Stage(
    id: string,
    name: string,
    count: Option<int>,
    indicators: seq<Indicator>,
    substages: Option<seq<Substage>>,
    statusColor: Option<string>,
    isFinal: Option<bool>,
    isEditing: Option<bool>,
    description: Option<string>,
    allowIncomingTransitions: Option<bool>)

  /** `Partial<StageData>`: `Some` marks a key the update object carries. */
  datatype StagePatch = StagePatch(
    id: Option<string>,
    name: Option<string>,
    count: Option<int>,
    indicators: Option<seq<Indicator>>,
    substages: Option<seq<Substage>>,
    statusColor: Option<string>,
    isFinal: Option<bool>,
    isEditing: Option<bool>,
    description: Option<string>,
    allowIncomingTransitions: Option<bool>)

  /** `Partial<Substage>`. */
  datatype SubstagePatch = SubstagePatch(
    id: Option<string>,
    name: Option<string>,
    indicators: Option<seq<Indicator>>,
    description: Option<string>,
    associatedWorkflows: Option<seq<string>>,
    customStates: Option<seq<string>>)

  /** The key stages are looked up by. */
  function StageId(s: Stage): string {
    s.id
  }

  /** The key substages are looked up by. */
  function SubstageId(sub: Substage): string {
    sub.id
  }

  /** The substage list of a stage, `s.substages || []`. */
  function Subs(s: Stage): seq<Substage> {
    s.substages.GetOr([])
  }

  /** `{ ...s, ...u }` for a stage. */
  function MergeStage(s: Stage, u: StagePatch): Stage {
    Stage(
      u.id.GetOr(s.id),
      u.name.GetOr(s.name),
      Or(u.count, s.count),
      u.indicators.GetOr(s.indicators),
      Or(u.substages, s.substages),
      Or(u.statusColor, s.statusColor),
      Or(u.isFinal, s.isFinal),
      Or(u.isEditing, s.isEditing),
      Or(u.description, s.description),
      Or(u.allowIncomingTransitions, s.allowIncomingTransitions))
  }

  /** `{ ...sub, ...u }` for a substage. */
  function MergeSubstage(sub: Substage, u: SubstagePatch): Substage {
    Substage(
      u.id.GetOr(sub.id),
      u.name.GetOr(sub.name),
      u.indicators.GetOr(sub.indicators),
      Or(u.description, sub.description),
      Or(u.associatedWorkflows, sub.associatedWorkflows),
      Or(u.customStates, sub.customStates))
  }

  const EmptyStagePatch := StagePatch(None, None, None, None, None, None, None, None, None, None)
  const EmptySubstagePatch := SubstagePatch(None, None, None, None, None, None)

  /** `{ name }`, sent by the side panel's stage-name input. */
  function NamePatch(name: string): StagePatch {
    EmptyStagePatch.(name := Some(name))
  }

  /** `{ name, isEditing: false }`, sent when a list row commits its name on blur or Enter. */
  function CommitNamePatch(name: string): StagePatch {
    EmptyStagePatch.(name := Some(name), isEditing := Some(false))
  }

  /** `{ description }`, sent by the side panel's description box. */
  function DescriptionPatch(text: string): StagePatch {
    EmptyStagePatch.(description := Some(text))
  }

  /** `{ allowIncomingTransitions }`, sent by the side panel's toggle. */
  function IncomingPatch(allow: bool): StagePatch {
    EmptyStagePatch.(allowIncomingTransitions := Some(allow))
  }

  /** `{ name }` for a substage. */
  function SubstageNamePatch(name: string): SubstagePatch {
    EmptySubstagePatch.(name := Some(name))
  }

  /** `{ description }` for a substage. */
  function SubstageDescriptionPatch(text: string): SubstagePatch {
    EmptySubstagePatch.(description := Some(text))
  }

  /** An update that never moves a stage between identities, collections or
      substage lists: it carries no `id`, `isFinal` or `substages` key. Every
      update the editor sends has this shape. */
  predicate KeepsIdentity(u: StagePatch) {
    u.id.None? && u.isFinal.None? && u.substages.None?
  }

  /** The keys of a merge: a key the update carries is overwritten, every other
      key is kept, and an empty update changes nothing. */
  lemma MergeStageKeys(s: Stage, u: StagePatch)
    ensures u.id.Some? ==> MergeStage(s, u).id == u.id.value
    ensures u.id.None? ==> MergeStage(s, u).id == s.id
    ensures u.name.Some? ==> MergeStage(s, u).name == u.name.value
    ensures u.name.None? ==> MergeStage(s, u).name == s.name
    ensures u.count.Some? ==> MergeStage(s, u).count == u.count
    ensures u.count.None? ==> MergeStage(s, u).count == s.count
    ensures u.indicators.Some? ==> MergeStage(s, u).indicators == u.indicators.value
    ensures u.indicators.None? ==> MergeStage(s, u).indicators == s.indicators
    ensures u.substages.Some? ==> MergeStage(s, u).substages == u.substages
    ensures u.substages.None? ==> MergeStage(s, u).substages == s.substages
    ensures u.statusColor.Some? ==> MergeStage(s, u).statusColor == u.statusColor
    ensures u.statusColor.None? ==> MergeStage(s, u).statusColor == s.statusColor
    ensures u.isFinal.Some? ==> MergeStage(s, u).isFinal == u.isFinal
    ensures u.isFinal.None? ==> MergeStage(s, u).isFinal == s.isFinal
    ensures u.isEditing.Some? ==> MergeStage(s, u).isEditing == u.isEditing
    ensures u.isEditing.None? ==> MergeStage(s, u).isEditing == s.isEditing
    ensures u.description.Some? ==> MergeStage(s, u).description == u.description
    ensures u.description.None? ==> MergeStage(s, u).description == s.description
    ensures u.allowIncomingTransitions.Some? ==> MergeStage(s, u).allowIncomingTransitions == u.allowIncomingTransitions
    ensures u.allowIncomingTransitions.None? ==> MergeStage(s, u).allowIncomingTransitions == s.allowIncomingTransitions
    ensures KeepsIdentity(u) ==> MergeStage(s, u).isFinal == s.isFinal && Subs(MergeStage(s, u)) == Subs(s)
    ensures MergeStage(s, EmptyStagePatch) == s
    ensures MergeStage(MergeStage(s, u), u) == MergeStage(s, u)
  {
  }

  /** Committing a row name sets exactly `name` and clears `isEditing`; an empty
      name is accepted like any other. */
  lemma CommitNameEffect(s: Stage, name: string)
    ensures MergeStage(s, CommitNamePatch(name)) == s.(name := name, isEditing := Some(false))
  {
  }

  /** The same laws for substages. */
  lemma MergeSubstageKeys(sub: Substage, u: SubstagePatch)
    ensures u.id.Some? ==> MergeSubstage(sub, u).id == u.id.value
    ensures u.id.None? ==> MergeSubstage(sub, u).id == sub.id
    ensures u.name.Some? ==> MergeSubstage(sub, u).name == u.name.value
    ensures u.name.None? ==> MergeSubstage(sub, u).name == sub.name
    ensures u.indicators.Some? ==> MergeSubstage(sub, u).indicators == u.indicators.value
    ensures u.indicators.None? ==> MergeSubstage(sub, u).indicators == sub.indicators
    ensures u.description.Some? ==> MergeSubstage(sub, u).description == u.description
    ensures u.description.None? ==> MergeSubstage(sub, u).description == sub.description
    ensures u.associatedWorkflows.Some? ==> MergeSubstage(sub, u).associatedWorkflows == u.associatedWorkflows
    ensures u.associatedWorkflows.None? ==> MergeSubstage(sub, u).associatedWorkflows == sub.associatedWorkflows
    ensures u.customStates.Some? ==> MergeSubstage(sub, u).customStates == u.customStates
    ensures u.customStates.None? ==> MergeSubstage(sub, u).customStates == sub.customStates
    ensures MergeSubstage(sub, EmptySubstagePatch) == sub
    ensures MergeSubstage(MergeSubstage(sub, u), u) == MergeSubstage(sub, u)
  {
  }

  /** The stage `addNewProcessStage` appends. */
  function NewProcessStage(id: string): Stage {
    Stage(id, "", Some(0), [], Some([]), None, None, Some(true), None, Some(false))
  }

  /** The stage `addNewFinalStage` appends. */
  function NewFinalStage(id: string): Stage {
    Stage(id, "", Some(0), [], Some([]), Some("bg-slate-400"), Some(true), Some(true), None, Some(false))
  }

  /** The substage `handleAddSubstage` appends. */
  function NewSubstage(id: string): Substage {
    Substage(id, "New Substage", [], Some("No associated workflows"), None, None)
  }

  /** No two stages of `ss` share an id. */
  predicate DistinctStageIds(ss: seq<Stage>) {
    forall i, j :: 0 <= i < j < |ss| ==> ss[i].id != ss[j].id
  }

  /** No two substages of `subs` share an id. */
  predicate DistinctSubstageIds(subs: seq<Substage>) {
    forall i, j :: 0 <= i < j < |subs| ==> subs[i].id != subs[j].id
  }

  /** Some stage of `ss` has the id `id`. */
  predicate HasStage(ss: seq<Stage>, id: string) {
    exists i :: 0 <= i < |ss| && ss[i].id == id
  }

  /** Some substage of `subs` has the id `id`. */
  predicate HasSubstage(subs: seq<Substage>, id: string) {
    exists i :: 0 <= i < |subs| && subs[i].id == id
  }

  /** The ids of a stage's substages. */
  function SubstageIdSet(st: Stage): set<string> {
    set j | 0 <= j < |Subs(st)| :: Subs(st)[j].id
  }

  /** No substage id occurs under two different stages of `ss`. */
  predicate SubstageIdsDisjoint(ss: seq<Stage>) {
    forall i, k :: 0 <= i < k < |ss| ==> SubstageIdSet(ss[i]) !! SubstageIdSet(ss[k])
  }

  /** An id is among a stage's substage ids exactly when some substage has it. */
  lemma SubstageIdSetIff(st: Stage, id: string)
    ensures id in SubstageIdSet(st) <==> HasSubstage(Subs(st), id)
  {
    if HasSubstage(Subs(st), id) {
      var j :| 0 <= j < |Subs(st)| && Subs(st)[j].id == id;
      assert Subs(st)[j].id in SubstageIdSet(st);
    }
  }

  /** Two substage lists with the same ids at the same positions have the same id set. */
  lemma SameIdsSameSet(st: Stage, st': Stage)
    requires |Subs(st')| == |Subs(st)|
    requires forall j :: 0 <= j < |Subs(st)| ==> Subs(st')[j].id == Subs(st)[j].id
    ensures SubstageIdSet(st') == SubstageIdSet(st)
  {
    forall id | id in SubstageIdSet(st') ensures id in SubstageIdSet(st) {
      var j :| 0 <= j < |Subs(st')| && Subs(st')[j].id == id;
      assert Subs(st)[j].id == id;
    }
    forall id | id in SubstageIdSet(st) ensures id in SubstageIdSet(st') {
      var j :| 0 <= j < |Subs(st)| && Subs(st)[j].id == id;
      assert Subs(st')[j].id == id;
    }
  }

  /** Disjointness survives a step in which every stage keeps its substage ids,
      except that the stage at `k` (if any) may gain the id `x`, which no stage had. */
  lemma SubstageIdsDisjointKept(ss: seq<Stage>, ss': seq<Stage>, x: string, k: int)
    requires SubstageIdsDisjoint(ss) && |ss'| == |ss|
    requires 0 <= k < |ss| ==> forall i :: 0 <= i < |ss| ==> x !in SubstageIdSet(ss[i])
    requires forall i :: 0 <= i < |ss| && i != k ==> SubstageIdSet(ss'[i]) <= SubstageIdSet(ss[i])
    requires 0 <= k < |ss| ==> SubstageIdSet(ss'[k]) <= SubstageIdSet(ss[k]) + {x}
    ensures SubstageIdsDisjoint(ss')
  {
    forall i, i' | 0 <= i < i' < |ss'| ensures SubstageIdSet(ss'[i]) !! SubstageIdSet(ss'[i']) {
      assert SubstageIdSet(ss[i]) !! SubstageIdSet(ss[i']);
    }
  }
}
