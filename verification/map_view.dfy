/** The map view's split of `processStages`: stages that do not allow incoming
    transitions form the connected main chain, the others are drawn below it as
    freestanding cards. Both groups keep collection order. */
module MapView {
  import opened Common
  import opened StageModel

  /** `!s.allowIncomingTransitions`: an absent flag counts as false. */
  predicate IsConnected(s: Stage) {
    !Truthy(s.allowIncomingTransitions)
  }

  /** `processStages.filter(s => !s.allowIncomingTransitions)`. */
  function ConnectedStages(ps: seq<Stage>): seq<Stage> {
    Filter(ps, IsConnected)
  }

  /** `s.allowIncomingTransitions`. */
  predicate IsFreestanding(s: Stage) {
    Truthy(s.allowIncomingTransitions)
  }

  /** `processStages.filter(s => s.allowIncomingTransitions)`. */
  function FreestandingStages(ps: seq<Stage>): seq<Stage> {
    Filter(ps, IsFreestanding)
  }

  /** The two groups are disjoint and together hold every process stage exactly
      as often as the collection does; each keeps the collection's order; a
      stage lands in the freestanding group exactly when it allows incoming
      transitions. */
  lemma PartitionIsExact(ps: seq<Stage>)
    ensures multiset(ConnectedStages(ps)) + multiset(FreestandingStages(ps)) == multiset(ps)
    ensures |ConnectedStages(ps)| + |FreestandingStages(ps)| == |ps|
    ensures IsSubsequence(ConnectedStages(ps), ps) && IsSubsequence(FreestandingStages(ps), ps)
    ensures forall s :: s in ConnectedStages(ps) <==> s in ps && !Truthy(s.allowIncomingTransitions)
    ensures forall s :: s in FreestandingStages(ps) <==> s in ps && Truthy(s.allowIncomingTransitions)
  {
    FilterSplits(ps, IsConnected, IsFreestanding);
    FilterIsSubsequence(ps, IsConnected);
    FilterIsSubsequence(ps, IsFreestanding);
    FilterMembership(ps, IsConnected);
    FilterMembership(ps, IsFreestanding);
  }
}
