/**
  The records the tracker client hands to the diagram pipeline. Identifiers
  are unsigned 64-bit integers in the source; they are only ever printed in
  decimal, never computed with, so they are modelled as `nat`.
 */
module EpicInfo {
  import opened Text

  datatype Epic = Epic(id: nat, projectId: nat, name: string)

  datatype StoryState =
    | Accepted
    | Delivered
    | Finished
    | Started
    | Rejected
    | Planned
    | Unstarted
    | Unscheduled

  /** A blocker is a textual claim of a dependency; its description may name other stories. */
  datatype Blocker = Blocker(id: nat, storyId: nat, description: string)

  datatype Label = Label(id: nat, kind: string, name: string)

  datatype Story = Story(
    id: nat,
    projectId: nat,
    name: string,
    url: string,
    currentState: StoryState,
    blockers: Option<seq<Blocker>>,
    labels: Option<seq<Label>>
  )

  /** The `{:?}` (derived `Debug`) rendering of a state: its variant name. */
  function DebugName(state: StoryState): string {
    match state
    case Accepted => "Accepted"
    case Delivered => "Delivered"
    case Finished => "Finished"
    case Started => "Started"
    case Rejected => "Rejected"
    case Planned => "Planned"
    case Unstarted => "Unstarted"
    case Unscheduled => "Unscheduled"
  }
}
