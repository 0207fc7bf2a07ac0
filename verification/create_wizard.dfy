/** The two-step "create process" modal. Step 1 collects a process type, a
    name and a description; its Continue button is enabled only for a valid
    form and moves to step 2, where one of three creation methods is chosen.
    Opening the modal resets every field. */
module CreateWizard {
  import opened Common
  import opened Text

  /** `PROCESS_TYPES`. */
  const ProcessTypes: seq<string> := ["Hiring", "Onboarding", "Custom"]

  datatype Wizard = Wizard(
    step: int,
    processType: string,
    processName: string,
    description: string,
    isDropdownOpen: bool)

  /** The effect that runs when `isOpen` becomes true. */
  function Open(w: Wizard): Wizard {
    Wizard(1, "", "", "", false)
  }

  /** `processType && processName.trim()`. */
  predicate IsFormValid(w: Wizard) {
    w.processType != "" && Trim(w.processName) != ""
  }

  /** `handleContinue`. */
  function Continue(w: Wizard): Wizard {
    w.(step := 2)
  }

  /** Choosing the process type at `index` in the dropdown. */
  function ChooseType(w: Wizard, index: nat): Wizard
    requires index < |ProcessTypes|
  {
    w.(processType := ProcessTypes[index], isDropdownOpen := false)
  }

  /** What finalizing hands back to the dashboard. */
  datatype Outcome = GenerateFromFiles | CloseModal

  /** `handleFinalize(method)`; the chosen method is `choice`. */
  function Finalize(choice: string): Outcome {
    if choice == "ai" then GenerateFromFiles else CloseModal
  }

  /** A user action on the open modal. */
  datatype Event =
    | ToggleDropdown
    | PickType(index: nat)
    | TypeName(text: string)
    | TypeDescription(text: string)
    | PressContinue

  /** An action applied through the controls the modal renders: the form controls
      exist on step 1 only, a type button only for a listed type, and Continue
      acts only when enabled. */
  function Apply(w: Wizard, ev: Event): Wizard {
    if w.step != 1 then w
    else match ev
      case ToggleDropdown => w.(isDropdownOpen := !w.isDropdownOpen)
      case PickType(i) => if w.isDropdownOpen && i < |ProcessTypes| then ChooseType(w, i) else w
      case TypeName(t) => w.(processName := t)
      case TypeDescription(t) => w.(description := t)
      case PressContinue => if IsFormValid(w) then Continue(w) else w
  }

  /** A sequence of actions, oldest first. */
  function Run(w: Wizard, evs: seq<Event>): Wizard
    decreases |evs|
  {
    if evs == [] then w else Run(Apply(w, evs[0]), evs[1..])
  }

  /** The states the modal can be in: on step 1, or on step 2 with the form that
      was valid when Continue was pressed. */
  predicate Reachable(w: Wizard) {
    w.step == 1 || (w.step == 2 && IsFormValid(w))
  }

  /** Opening resets to step 1 with every field cleared and the dropdown closed. */
  lemma OpenResets(w: Wizard)
    ensures Open(w).step == 1 && Open(w).processType == "" && Open(w).processName == ""
    ensures Open(w).description == "" && !Open(w).isDropdownOpen
    ensures !IsFormValid(Open(w)) && Reachable(Open(w))
  {
  }

  /** The form is valid exactly when a type is chosen and the name has a character
      other than white space. */
  lemma FormValidIff(w: Wizard)
    ensures IsFormValid(w) <==>
      w.processType != "" && exists i :: 0 <= i < |w.processName| && !IsSpace(w.processName[i])
  {
    TrimEmptyIff(w.processName);
  }

  /** Choosing a type stores one of the listed types and closes the dropdown. */
  lemma ChooseTypeListed(w: Wizard, index: nat)
    requires index < |ProcessTypes|
    ensures ChooseType(w, index).processType in ProcessTypes && !ChooseType(w, index).isDropdownOpen
    ensures ChooseType(w, index).processType != ""
  {
  }

  /** Every action keeps the modal reachable; Continue moves from step 1 to 2 only
      from a valid form. */
  lemma ApplyKeepsReachable(w: Wizard, ev: Event)
    requires Reachable(w)
    ensures Reachable(Apply(w, ev))
    ensures w.step == 1 && Apply(w, ev).step == 2 ==> ev == PressContinue && IsFormValid(w)
  {
  }

  /** From an opened modal, whatever the user does, step 2 is only ever shown with
      a valid form. */
  lemma {:induction false} RunKeepsReachable(w: Wizard, evs: seq<Event>)
    requires Reachable(w)
    ensures Reachable(Run(w, evs))
    ensures Run(w, evs).step == 2 ==> IsFormValid(Run(w, evs))
    decreases |evs|
  {
    if evs != [] {
      ApplyKeepsReachable(w, evs[0]);
      RunKeepsReachable(Apply(w, evs[0]), evs[1..]);
    }
  }

  /** One of the three method cards, which only step 2 renders: `None` when no
      card is on screen, otherwise the outcome of `handleFinalize(choice)`. */
  function PressMethod(w: Wizard, choice: string): Option<Outcome> {
    if w.step == 2 then Some(Finalize(choice)) else None
  }

  /** After opening the modal and any sequence of actions, a method card can be
      pressed only with a valid form; 'ai' then hands over to the upload flow and
      any other method closes the modal. */
  lemma FinalizeNeedsValidForm(w: Wizard, evs: seq<Event>, choice: string)
    ensures var v := Run(Open(w), evs);
      PressMethod(v, choice).Some? ==> IsFormValid(v)
    ensures var v := Run(Open(w), evs);
      PressMethod(v, choice).Some? ==> (PressMethod(v, choice).value == GenerateFromFiles <==> choice == "ai")
    ensures PressMethod(Open(w), choice).None?
  {
    OpenResets(w);
    RunKeepsReachable(Open(w), evs);
  }
}
