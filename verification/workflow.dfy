/** The substage panel's "associated workflow" choice. It is stored by writing
    "Workflow: " followed by the option's name into the substage's `description`;
    the dropdown button shows the description with the first "Workflow: "
    removed, and a check mark marks the option whose encoding equals the
    stored description. */
module Workflow {
  import opened Common
  import opened Text

  datatype WorkflowOption = WorkflowOption(id: string, name: string)

  /** `WORKFLOW_OPTIONS`. */
  const Options: seq<WorkflowOption> := [
    WorkflowOption("interview", "Interview workflow"),
    WorkflowOption("hr", "HR Approval Flow"),
    WorkflowOption("test", "Skill Assessment")
  ]

  const Prefix: string := "Workflow: "

  /** The description written when the option named `name` is chosen. */
  function Encode(name: string): string {
    Prefix + name
  }

  /** `description?.replace("Workflow: ", "") || 'Select workflow'`. */
  function Label(description: Option<string>): string {
    var stripped := match description
                    case None => None
                    case Some(d) => Some(ReplaceFirst(d, Prefix, ""));
    if TruthyText(stripped) then stripped.value else "Select workflow"
  }

  /** Whether the option shows its check mark. */
  predicate CheckShown(description: Option<string>, option: WorkflowOption) {
    description == Some(Encode(option.name))
  }

  /** The button shows back the name of the workflow that was chosen, unless
      that name is empty, in which case it shows the placeholder. */
  lemma LabelRoundTrip(name: string)
    ensures name != "" ==> Label(Some(Encode(name))) == name
    ensures name == "" ==> Label(Some(Encode(name))) == "Select workflow"
  {
    ReplaceLeadingPrefix(Prefix, name);
  }

  /** A description that does not mention a workflow is shown as it is; a missing
      one shows the placeholder. */
  lemma LabelOfPlainDescription(d: string)
    ensures !Contains(d, Prefix) && d != "" ==> Label(Some(d)) == d
    ensures Label(None) == "Select workflow"
  {
  }

  /** Different names have different encodings. */
  lemma EncodeInjective(a: string, b: string)
    ensures Encode(a) == Encode(b) <==> a == b
  {
    if Encode(a) == Encode(b) {
      assert a == Encode(a)[|Prefix|..];
    }
  }

  /** After option `k` is chosen, the check mark is shown on option `k` and on no other. */
  lemma CheckShownExactlyForChosen(k: nat, i: nat)
    requires k < |Options| && i < |Options|
    ensures CheckShown(Some(Encode(Options[k].name)), Options[i]) <==> i == k
  {
    EncodeInjective(Options[k].name, Options[i].name);
    assert Options[0].name[0] != Options[1].name[0] && Options[0].name[0] != Options[2].name[0]
      && Options[1].name[0] != Options[2].name[0];
  }
}
