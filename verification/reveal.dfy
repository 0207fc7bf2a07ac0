/** The "Generating Business Process from files..." reveal. An effect watches
    `visibleStagesCount` and `totalStages`: while the counter is below the total
    its timer adds one, otherwise its timer ends generation. Each timer firing is
    one discrete `Tick`; the 900 ms and 1200 ms delays are not modelled. While
    generating, the list view shows row `i` (final rows numbered after the
    process rows) only once the counter has passed it. */
module Reveal {
  import opened Editor

  /** One firing of the reveal effect's pending timer. */
  function Tick(e: EditorState): EditorState {
    if e.visibleStagesCount < TotalStages(e) then e.(visibleStagesCount := e.visibleStagesCount + 1)
    else e.(isGenerating := false)
  }

  /** `k` timer firings in a row. */
  function Ticks(e: EditorState, k: nat): EditorState
    decreases k
  {
    if k == 0 then e else Ticks(Tick(e), k - 1)
  }

  /** `visibleStagesCount > globalIdx || !isGenerating`. */
  predicate RowVisible(e: EditorState, globalIdx: int) {
    e.visibleStagesCount > globalIdx || !e.isGenerating
  }

  /** The final-stage row at `idx`; its global index follows every process row. */
  predicate FinalRowVisible(e: EditorState, idx: int) {
    RowVisible(e, |e.processStages| + idx)
  }

  /** A tick adds exactly one to the counter while it is below the total and
      otherwise ends generation; it keeps the counter bounded by the number of
      rows, never touches the stage collections or the selection, and a row once
      shown stays shown. */
  lemma TickKeepsBounded(e: EditorState)
    requires RevealBounded(e)
    ensures e.visibleStagesCount < TotalStages(e) ==>
      Tick(e).visibleStagesCount == e.visibleStagesCount + 1 && Tick(e).isGenerating == e.isGenerating
    ensures e.visibleStagesCount >= TotalStages(e) ==>
      Tick(e).visibleStagesCount == e.visibleStagesCount && !Tick(e).isGenerating
    ensures RevealBounded(Tick(e))
    ensures Tick(e).(visibleStagesCount := e.visibleStagesCount, isGenerating := e.isGenerating) == e
    ensures forall i :: RowVisible(e, i) ==> RowVisible(Tick(e), i)
  {
  }

  /** Adding a stage keeps the counter bounded: after generation the counter moves
      with the total, so the new row is shown at once; during generation only the
      total grows, so the reveal goes on to reach the new row. */
  lemma AddStageKeepsBounded(e: EditorState, newId: string)
    requires RevealBounded(e)
    ensures RevealBounded(AddProcessStage(e, newId))
    ensures RevealBounded(AddFinalStage(e, newId))
    ensures e.isGenerating ==> AddProcessStage(e, newId).visibleStagesCount == e.visibleStagesCount
    ensures e.isGenerating ==> AddFinalStage(e, newId).visibleStagesCount == e.visibleStagesCount
    ensures !e.isGenerating ==> AddProcessStage(e, newId).visibleStagesCount == TotalStages(AddProcessStage(e, newId))
    ensures !e.isGenerating ==> AddFinalStage(e, newId).visibleStagesCount == TotalStages(AddFinalStage(e, newId))
  {
  }

  /** Ticks change only the counter and the generating flag. */
  lemma {:induction false} TicksFrame(e: EditorState, k: nat)
    ensures Ticks(e, k).(visibleStagesCount := e.visibleStagesCount, isGenerating := e.isGenerating) == e
    ensures TotalStages(Ticks(e, k)) == TotalStages(e)
    decreases k
  {
    if k > 0 {
      TicksFrame(Tick(e), k - 1);
    }
  }

  /** While generation runs and the counter is `c`, exactly the first `c` rows are shown. */
  lemma VisibleRowsWhileGenerating(e: EditorState, i: int)
    requires e.isGenerating
    ensures RowVisible(e, i) <==> i < e.visibleStagesCount
  {
  }

  /** Final rows are revealed only after every process row, and in their own
      order: a shown final row means every process row and every earlier final
      row is shown too. */
  lemma FinalRowsFollowProcessRows(e: EditorState, idx: nat)
    ensures FinalRowVisible(e, idx) ==> forall i :: 0 <= i < |e.processStages| ==> RowVisible(e, i)
    ensures FinalRowVisible(e, idx) ==> forall j :: 0 <= j <= idx ==> FinalRowVisible(e, j)
    ensures e.isGenerating && e.visibleStagesCount <= |e.processStages| ==> !FinalRowVisible(e, idx)
  {
  }

  /** From a bounded state that is still generating, every tick until the counter
      reaches the total adds exactly one, and generation is still running then. */
  lemma {:induction false} TicksCount(e: EditorState, k: nat)
    requires RevealBounded(e) && e.isGenerating
    requires k <= TotalStages(e) - e.visibleStagesCount
    ensures Ticks(e, k).visibleStagesCount == e.visibleStagesCount + k
    ensures Ticks(e, k).isGenerating
    ensures RevealBounded(Ticks(e, k))
    decreases k
  {
    if k > 0 {
      TicksCount(Tick(e), k - 1);
    }
  }

  /** Generation ends exactly once: the tick after the counter has reached the total
      ends it, every row is then shown, and no later tick starts it again or changes anything. */
  lemma {:induction false} GenerationCompletes(e: EditorState, extra: nat)
    requires RevealBounded(e) && e.isGenerating
    ensures var n := TotalStages(e) - e.visibleStagesCount;
      && Ticks(e, n).isGenerating
      && (forall i :: 0 <= i < TotalStages(e) ==> RowVisible(Ticks(e, n), i))
      && !Ticks(e, n + 1 + extra).isGenerating
      && Ticks(e, n + 1 + extra) == Ticks(e, n + 1)
  {
    var n := TotalStages(e) - e.visibleStagesCount;
    TicksCount(e, n);
    TicksFrame(e, n);
    var done := Ticks(e, n);
    TicksAfterNTicks(e, n, 1);
    assert Ticks(e, n + 1) == Tick(done);
    TicksAfterNTicks(e, n + 1, extra);
    FinishedIsFixedPoint(Tick(done), extra);
  }

  /** Once generation has ended in a bounded state, ticks change nothing. */
  lemma {:induction false} FinishedIsFixedPoint(e: EditorState, k: nat)
    requires RevealBounded(e) && !e.isGenerating
    ensures Ticks(e, k) == e
    decreases k
  {
    if k > 0 {
      assert Tick(e) == e;
      FinishedIsFixedPoint(e, k - 1);
    }
  }

  /** `m + k` ticks are `m` ticks followed by `k` more. */
  lemma {:induction false} TicksAfterNTicks(e: EditorState, m: nat, k: nat)
    ensures Ticks(e, m + k) == Ticks(Ticks(e, m), k)
    decreases m
  {
    if m > 0 {
      TicksAfterNTicks(Tick(e), m - 1, k);
    }
  }
}
