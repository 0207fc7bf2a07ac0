# Process editor, upload, dashboard and create-process model

A functional Dafny model of the state logic of a single-page "business process"
designer. The model covers four screens:

- **Process editor**: a list of process stages followed by a list of final
  stages, each stage with optional substages. While the editor "generates" the
  process, a counter reveals the rows one by one. Stages and substages can be
  added, renamed and described. A stage can be marked as accepting incoming
  transitions, which moves it out of the connected chain in the map view. A
  substage can be given one of three workflows, which is stored in its
  description as `"Workflow: <name>"`. A side panel shows the stage or substage
  that is selected by a pair of ids.
- **File upload modal**: two mock files upload in steps of 10% per interval
  period; the submit button is enabled once all files are ready.
- **Process table**: filtering by type and by a case-insensitive search, and the
  per-type counts on the filter buttons.
- **Create-process modal**: a two-step wizard whose Continue button is enabled
  only when a type is chosen and the name is not blank. On step 2 one of three
  creation methods is picked: "ai" hands over to the file upload, and the
  others close the modal.

The state hooks of the editor and of the create-process wizard that the
handlers read or write become fields of immutable records (`EditorState`,
`Wizard`), and every handler becomes a pure function from state to state. The
upload modal's file list is a sequence passed from step to step, and the table's
filter and search are parameters. The purely visual hooks listed under
"Left out" are not modelled.
Optional TypeScript keys are `Option`s. A `Partial<T>` update is a patch record
whose `Some` fields are the keys it carries, and `{ ...s, ...u }` is
`MergeStage`/`MergeSubstage`. JavaScript truthiness is modelled exactly where
the code relies on it: an empty id or an empty description is falsy.

Ids built from `Date.now()` are parameters. The lemmas about the editor
invariant require them to be fresh; the operations themselves accept any id, as
the code does. Timers are modelled as discrete ticks, one per firing.

Two behaviours are modelled as the code has them, even though a reader might
expect otherwise:

- `handleAddSubstage` appends only to process stages, yet sets the selection to
  `(stageId, newSubId)` for any id. For an id that names no stage the side panel
  stays hidden. For the id of a final stage nothing is appended and the panel
  shows that final stage's stage panel.
- The stage panel's close button clears only `selectedStageId`, so the substage
  id stays in the state. It cannot reach the side panel again: every handler
  that selects a stage also sets `selectedSubstageId`, to `null` for a stage
  card and to a new id for a substage card or an added substage. The substage
  card highlight, which reads the id directly, is not modelled.

Modules: `Common` (option, object spread, truthiness, filtering), `Text`
(`toLowerCase`, `trim`, `indexOf`/`includes`, `replace`), `StageModel`
(records, patches, default records), `Editor` (collections and their
handlers), `Reveal` (generation counter), `Selection` (clicks and side panel),
`MapView` (connected/freestanding split), `Workflow` (description encoding),
`Inspector` (side-panel and row edits), `EditorFixture` (the editor's opening
data and scenarios over it), `Upload`, `Dashboard`, `CreateWizard`.

## Model

| member | source | states |
|---|---|---|
| Common.Filter | components/FileUploadModal.tsx:69 | `Array.filter`: the result keeps only elements that pass, keeps every element that passes, and is no longer than the input |
| Common.FilterIsSubsequence | components/ProcessTable.tsx:34-38 | filtering keeps the surviving elements in their original order (a subsequence) |
| Common.FilterCounts | components/FileUploadModal.tsx:69 | filtering keeps every copy of an element that passes and no copy of one that fails: multiplicities are exact |
| Common.FilterSplits | components/ProcessEditor.tsx:727-728 | filtering by a predicate and by its complement splits a list exactly: the multisets add up to the input and so do the lengths |
| Common.FilterMembership | components/ProcessTable.tsx:34-38 | an element is in the filtered list exactly when it is in the input and passes |
| Common.FilterKeepsAll | components/ProcessTable.tsx:41 | when every element passes, filtering returns the list unchanged |
| Common.FilterExtensional | components/ProcessTable.tsx:42 | predicates that agree on every element give the same filtered list |
| Common.FilterMonotone | components/ProcessTable.tsx:34-42 | a stronger predicate never keeps more elements |
| Text.ToLower | components/ProcessTable.tsx:36 | `toLowerCase` keeps the length and maps every character to its lower-case form |
| Text.ToLowerIdempotent | components/ProcessTable.tsx:36 | lower-casing twice is lower-casing once |
| Text.TrimStart | components/CreateProcessModal.tsx:61 | the result is a suffix of the input that starts with a non-space, and everything dropped is white space |
| Text.TrimEnd | components/CreateProcessModal.tsx:61 | the result is a prefix of the input that ends with a non-space, and everything dropped is white space |
| Text.TrimEmptyIff | components/CreateProcessModal.tsx:61 | `trim()` yields "" exactly when the string is all white space |
| Text.IndexOfFrom | components/ProcessTable.tsx:36 | the result is the first position at or after `from` where the pattern occurs, or none when it occurs nowhere after `from` |
| Text.ContainsIff | components/ProcessTable.tsx:36 | `includes` holds exactly when the pattern occurs somewhere; the empty pattern always occurs |
| Text.ReplaceFirst | components/ProcessEditor.tsx:962 | `replace` with a string pattern leaves a string without the pattern unchanged, and otherwise puts the replacement string, taken literally, in place of the first occurrence alone, keeping what comes before and after it |
| Text.ReplaceLeadingPrefix | components/ProcessEditor.tsx:962 | replacing a leading prefix by "" gives back exactly the rest of the string |
| StageModel.MergeStageKeys | components/ProcessEditor.tsx:593-596 | object spread, key by key for all ten keys: a key the update carries takes the update's value, a key it lacks keeps the stage's value; an empty update is the identity; merging the same update twice equals merging it once; an update without id/isFinal/substages keeps those |
| StageModel.CommitNameEffect | components/ProcessEditor.tsx:686 | committing a row name sets the name, clears `isEditing` and touches nothing else, even for an empty name |
| StageModel.MergeSubstageKeys | components/ProcessEditor.tsx:598-606 | the same laws for substages, key by key for all six keys: carried keys take the update's value, the others keep the substage's; the empty update is the identity; merging is idempotent |
| Editor.AddSubstage | components/ProcessEditor.tsx:572-591 | appends "New Substage" (with the "No associated workflows" description) to every process stage with the id, creating the list if it was missing; leaves other stages and all final stages alone; selects `(stageId, newSubId)` even for an unknown stage id; nothing else changes, so the reveal counter, the generating flag, the view and both dropdowns are left alone |
| Editor.UpdateStage | components/ProcessEditor.tsx:593-596 | merges the update into every process or final stage with the id and into no other stage; no other part of the state changes |
| Editor.UpdateSubstage | components/ProcessEditor.tsx:598-606 | merges the update into the substages with `subId` of the stages with `stageId`; a stage without a substage list keeps none; final stages are untouched |
| Editor.AddProcessStage | components/ProcessEditor.tsx:534-550 | appends the default record with an empty name after the existing process stages, which are kept in order; final stages, both selected ids, the generating flag and the view are unchanged; the add dropdown is closed; the total grows by one |
| Editor.AddFinalStage | components/ProcessEditor.tsx:552-570 | appends the default final-stage record after the existing final stages, which are kept in order; process stages, both selected ids, the generating flag and the view are unchanged; the add dropdown is closed; the total grows by one |
| Editor.ValidSubstageIdsUnique | components/ProcessEditor.tsx:572-591 | under the invariant, two substages at different (stage, position) places have different ids, whichever stages hold them |
| Editor.AddProcessStageKeepsValid | components/ProcessEditor.tsx:534-550 | with a fresh id the editor invariant (unique stage ids, substage ids unique across the whole editor, `isFinal` matching the list, counter bounded) is kept, and the new id names exactly the last process stage |
| Editor.AddFinalStageKeepsValid | components/ProcessEditor.tsx:552-570 | the same for a new final stage, whose id names exactly the last stage overall |
| Editor.AddSubstageKeepsValid | components/ProcessEditor.tsx:572-591 | with a fresh substage id the invariant is kept, and the new id is then the last substage of exactly the stage it was added to |
| Editor.UpdateStageKeepsValid | components/ProcessEditor.tsx:593-596 | an update that carries no id, isFinal or substages key keeps the number of stages, every stage's id, `isFinal` flag and substage list at its position, and the invariant |
| Editor.UpdateUnknownStageIsNoop | components/ProcessEditor.tsx:593-596 | updating an id that names no stage changes nothing |
| Editor.UpdateSubstageKeepsValid | components/ProcessEditor.tsx:598-606 | a substage update without an id key keeps the invariant |
| Editor.UpdateSubstageOfUnknownStageIsNoop | components/ProcessEditor.tsx:598-606 | a substage update addressed to an unknown process stage changes nothing |
| Reveal.TickKeepsBounded | components/ProcessEditor.tsx:511-521 | a timer firing adds one to the counter while it is below the total and otherwise ends generation; the counter stays within the number of rows; nothing else changes; a row once shown stays shown |
| Reveal.AddStageKeepsBounded | components/ProcessEditor.tsx:547-549 | adding a stage keeps the counter within the number of rows; during generation the counter is left alone, so the reveal continues to the new row; after generation it grows with the total, so the new row is shown at once |
| Reveal.TicksFrame | components/ProcessEditor.tsx:511-521 | any number of firings changes only the counter and the generating flag |
| Reveal.VisibleRowsWhileGenerating | components/ProcessEditor.tsx:680 | while generating, row `i` is shown exactly when `i` is below the counter |
| Reveal.FinalRowsFollowProcessRows | components/ProcessEditor.tsx:704-705 | a final row is shown only when every process row and every earlier final row is shown; while generating with the counter at most the number of process rows, no final row is shown |
| Reveal.TicksCount | components/ProcessEditor.tsx:511-516 | while the counter is below the total, each firing adds exactly one and generation keeps running |
| Reveal.GenerationCompletes | components/ProcessEditor.tsx:511-521 | after `total - count` firings every row is shown and generation is still on; the next firing ends it; later firings change nothing |
| Reveal.FinishedIsFixedPoint | components/ProcessEditor.tsx:517-519 | once generation has ended, firings change nothing |
| Reveal.TicksAfterNTicks | components/ProcessEditor.tsx:511-521 | firings compose: `m + k` firings are `m` then `k` |
| Common.FindFrom | components/ProcessEditor.tsx:608-609 | `find` by id returns the first stage or substage with the id, or none when no element has it |
| Common.FindByKeysOnly | components/ProcessEditor.tsx:608-609 | the element found depends only on the ids of the elements |
| Selection.SidePanelShownIff | components/ProcessEditor.tsx:895-897 | the panel is shown exactly when the stage id is non-empty and names a stage, and it shows the first stage with that id; it is the substage panel exactly when the substage id is non-empty and names a substage of that stage, and then it shows a substage with that id |
| Selection.FindUniqueStage | components/ProcessEditor.tsx:608 | with unique ids, looking up a stage's id finds that stage |
| Selection.ClickStageOpensStagePanel | components/ProcessEditor.tsx:767 | clicking a stage card opens the stage panel on that stage |
| Selection.ClickSubstageOpensSubstagePanel | components/ProcessEditor.tsx:768 | clicking a substage card opens the substage panel on that substage of that stage |
| Selection.ShowListHidesPanel | components/ProcessEditor.tsx:853 | the List toggle clears both ids and hides the panel |
| Selection.ShowMapKeepsPanel | components/ProcessEditor.tsx:864 | the Map toggle switches the view and keeps both ids, so the same panel stays open |
| Selection.CloseSubstagePanelShowsStage | components/ProcessEditor.tsx:913 | closing the substage panel returns to the stage panel of the same stage |
| Selection.CloseStagePanelKeepsSubstageId | components/ProcessEditor.tsx:1036 | closing the stage panel hides the panel but keeps the substage id |
| Selection.StaleSubstageIdIsReplaced | components/ProcessEditor.tsx:767-768 | after the stage panel is closed, a stage click clears the kept substage id so no substage panel opens, and a substage click or an added substage replaces it |
| Selection.AddSubstageOpensItsPanel | components/ProcessEditor.tsx:572-591 | adding a substage to an existing stage opens the substage panel on the new substage |
| Selection.AddSubstageToFinalStageShowsStage | components/ProcessEditor.tsx:572-591 | adding a substage under a final stage's id changes no stage and opens that final stage's stage panel |
| MapView.PartitionIsExact | components/ProcessEditor.tsx:727-728 | the connected and freestanding groups split the process stages exactly: every stage lands in exactly one group according to `allowIncomingTransitions`, order is kept, and the sizes add up |
| Workflow.LabelRoundTrip | components/ProcessEditor.tsx:962-977 | the button label of a stored `"Workflow: <name>"` reads back `<name>`; an empty name shows the placeholder |
| Workflow.LabelOfPlainDescription | components/ProcessEditor.tsx:962 | a description without the prefix is shown as it is; a missing one shows "Select workflow" |
| Workflow.EncodeInjective | components/ProcessEditor.tsx:977-983 | two workflow names are stored the same way exactly when they are equal |
| Workflow.CheckShownExactlyForChosen | components/ProcessEditor.tsx:62-66 | after choosing option `k`, exactly option `k` shows its check mark |
| Inspector.ChooseWorkflowKeepsStage | components/ProcessEditor.tsx:976-979 | choosing a workflow keeps both selected ids, and the selected stage is found at the same place |
| Inspector.ChooseWorkflowKeepsPanel | components/ProcessEditor.tsx:976-979 | choosing a workflow keeps the side panel on the same substage of the same stage |
| Inspector.ChooseWorkflowEditsOneSubstage | components/ProcessEditor.tsx:976-979 | choosing workflow `k` rewrites the description of the shown substage alone, closes the dropdown and keeps all final stages |
| Inspector.ChooseWorkflowEffect | components/ProcessEditor.tsx:962-983 | afterwards the panel shows the substage with the new description, the button reads the workflow name, and only option `k` is checked |
| Inspector.ToggleIncomingMovesStage | components/ProcessEditor.tsx:1078-1080 | the toggle flips which map group the shown process stage belongs to and changes no other field or stage |
| Inspector.UpdateOnlyStage | components/ProcessEditor.tsx:593-596 | with unique ids, updating a stage by its id changes that stage alone |
| Inspector.EditStageFieldsEffect | components/ProcessEditor.tsx:1056-1066 | typing in the stage panel sets the shown stage's name or description to the text, even empty, and changes no other stage |
| Inspector.StageEditsKeepValid | components/ProcessEditor.tsx:686 | row name commits and stage-panel edits keep the editor invariant |
| Inspector.SubstageEditsKeepValid | components/ProcessEditor.tsx:933 | substage-panel edits, the workflow dropdown and workflow choices keep the editor invariant |
| EditorFixture.InitialIdsDistinct | components/ProcessEditor.tsx:406-496 | the eight opening stages have unique ids; the editor opens generating with the counter at 0 of 8 |
| EditorFixture.InitialValid | components/ProcessEditor.tsx:406-496 | the opening state satisfies the editor invariant: unique stage ids, substage ids unique across the whole editor, `isFinal` matching the list, counter bounded |
| EditorFixture.InitialSubstageIdsDisjoint | components/ProcessEditor.tsx:406-496 | the twelve opening substage ids s1 to s12 never occur under two stages |
| EditorFixture.InitialRevealScenario | components/ProcessEditor.tsx:391-392 | from the opening state, eight firings show all eight rows, the ninth ends generation, and nothing changes afterwards |
| EditorFixture.ClickPrimaryInterviewScenario | components/ProcessEditor.tsx:430-433 | clicking "Primary Interview" under "Interview" opens its substage panel |
| EditorFixture.ChooseHrWorkflowScenario | components/ProcessEditor.tsx:977 | choosing "HR Approval Flow" there stores `"Workflow: HR Approval Flow"` and the button reads "HR Approval Flow" |
| EditorFixture.InitialWorkflowIsUnchecked | components/ProcessEditor.tsx:432 | the opening data stores "Interview Workflow", which differs in case from the option "Interview workflow": the button shows the name but no option is checked |
| Upload.Tick | components/FileUploadModal.tsx:23-32 | one interval firing treats every file on its own and keeps the list length |
| Upload.TickFileEffect | components/FileUploadModal.tsx:24-31 | an uploading file gains 10, and is marked ready at exactly 100 once it would reach 100; a ready file is untouched; id, name and size are kept; progress stays in range |
| Upload.StartSimulationInRange | components/FileUploadModal.tsx:40-45 | the simulation starts two files, both uploading at 0 |
| Upload.StillUploading | components/FileUploadModal.tsx:24-29 | an uploading file is at `p + 10k` after `k` firings while that is below 100 |
| Upload.ReadyStays | components/FileUploadModal.tsx:31 | a ready file never changes |
| Upload.ReadyAfterTenTicks | components/FileUploadModal.tsx:24-31 | a file from 0 is at 90 after nine firings and ready at 100 after ten, for good |
| Upload.TickFileNSplit | components/FileUploadModal.tsx:22-33 | firings compose |
| Upload.TickKeepsUploading | components/FileUploadModal.tsx:24-29 | files with room for another firing are all still uploading after it |
| Upload.StepsWhileUploading | components/FileUploadModal.tsx:19-36 | while every file is uploading each period is a firing, so the list is each file after that many firings |
| Upload.StartedAtZeroTicks | components/FileUploadModal.tsx:19-36 | files started at 0 are all at 90 after nine periods and all ready at 100 after ten |
| Upload.StartedAtZeroFinishInTenTicks | components/FileUploadModal.tsx:19-36 | such files still keep the interval running after nine periods and are all ready, with the interval stopped, after ten |
| Upload.NinthPeriodStillUploading | components/FileUploadModal.tsx:21 | a list at 90% is still uploading and not ready |
| Upload.TenthPeriodSettled | components/FileUploadModal.tsx:72 | a list at 100% is ready and not uploading |
| Upload.StartedUploadFinishesInTenTicks | components/FileUploadModal.tsx:40-45 | the started simulation still uploads after nine periods and is all ready after ten |
| Upload.SettledIsFixedPoint | components/FileUploadModal.tsx:21 | with no file uploading the interval is not scheduled and nothing changes |
| Upload.AllReadyIff | components/FileUploadModal.tsx:72 | `allReady` holds exactly when the list is non-empty and no file is uploading |
| Upload.RemoveFileExact | components/FileUploadModal.tsx:68-70 | removing an id drops exactly the files with that id, keeps every copy of every other file, in order, and is a no-op for an absent id |
| Upload.TickAdvances | components/FileUploadModal.tsx:21-32 | a firing keeps files in range and ids in place, and pushes every uploading file 10 further |
| Upload.SimulateUntilSettled | components/FileUploadModal.tsx:19-36 | from files in range the interval stops after at most ten periods; ids and order are kept, and a non-empty list ends all ready |
| Upload.StepsAppend | components/FileUploadModal.tsx:19-36 | interval periods compose |
| Dashboard.FilteredDataExact | components/ProcessTable.tsx:34-38 | the table shows, in list order, exactly the processes that pass the type filter and whose lower-cased name contains the lower-cased search |
| Dashboard.FilteredDataCounts | components/ProcessTable.tsx:34-38 | every copy of a passing process is shown, and no copy of a failing one |
| Dashboard.EmptySearchShowsCount | components/ProcessTable.tsx:40-43 | with an empty search each filter shows exactly as many rows as its button counts, and "All" shows the whole list |
| Dashboard.FilteredWithinCount | components/ProcessTable.tsx:34-43 | a search never shows more rows than the filter's count |
| Dashboard.EmptyStateIff | components/ProcessTable.tsx:152 | the empty-state message appears exactly when no process passes both filter and search |
| CreateWizard.OpenResets | components/CreateProcessModal.tsx:22-30 | opening resets to step 1 with empty fields and a closed dropdown, where Continue is disabled |
| CreateWizard.FormValidIff | components/CreateProcessModal.tsx:61 | the form is valid exactly when a type is chosen and the name has a non-space character |
| CreateWizard.ChooseTypeListed | components/CreateProcessModal.tsx:115-118 | picking a type stores one of the three listed types and closes the dropdown |
| CreateWizard.ApplyKeepsReachable | components/CreateProcessModal.tsx:48-50 | no action leaves the reachable states, and step 2 is entered only by Continue on a valid form |
| CreateWizard.RunKeepsReachable | components/CreateProcessModal.tsx:164-166 | after any sequence of actions, being on step 2 implies the form is valid |
| CreateWizard.FinalizeNeedsValidForm | components/CreateProcessModal.tsx:52-59 | after opening and any actions, a method card can be pressed only with a valid form, never straight after opening; "ai" then hands over to the file upload and every other method closes the modal |

## Left out

- Rendering, CSS classes, icons, animations and scrolling (`getBoundingClientRect`, `scrollIntoView`) are not modelled; only the state the screens keep and derive is.
- Timer delays (300 ms, 900 ms, 1200 ms) and effect cleanup are not modelled; each firing is one discrete step, and a firing cancelled by a state change is simply not taken.
- The mouse-down listeners that close the add dropdown, the workflow dropdown and the type dropdown when clicking outside them are DOM events; they are not modelled.
- `Date.now()` ids are parameters; their freshness is a precondition of the invariant lemmas.
- An update object that sets a key explicitly to `undefined` is not modelled; a patch key is either absent or carries a value.
- Stage and substage deletion, drag-and-drop reordering and the row menu are not implemented by the code and are not modelled.
- The dashboard's mock process list, the sidebar, the header, the rules modal and the app-level routing between screens are not part of this model.
- Purely visual state hooks are not modelled: the editor's `indicatorTop` (the scroll marker) and `isRulesModalOpen` (the rules modal is outside this model), a stage row's `isExpanded` and `editName` (the committed name is a parameter of `CommitRowName`), a map card's `isExpanded`, and the upload modal's `dragActive`.
- `console.log` in `handleFinalize` is output only and is not modelled.
- The "Add stage" button's toggle of `showAddDropdown` is not modelled; only the two add handlers, which close the menu, are. The toggle touches no other state.
- TypeScript `number` fields (`progress`, `count`, an indicator's `val`) are modelled as `int`. Every progress value the upload reaches is a whole multiple of 10, so no fractional value arises.
- Text.ToLower: lower-cases ASCII letters only, where `toLowerCase` maps all of Unicode.
- Text.ReplaceFirst: inserts the replacement literally; the `$$`, `$&`, `` $` `` and `$'` substitution patterns of JavaScript's `replace` are not modelled. The one call site passes "", which has none.
- Text.TrimEmptyIff: white space is the six ASCII white-space characters, where `trim` also removes Unicode spaces and line terminators.
- Reveal.GenerationCompletes: counts firings, not milliseconds.
- Upload.SimulateUntilSettled: bounds the number of interval periods, not the elapsed time.
