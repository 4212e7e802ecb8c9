/** Enumerations shared by the backend and the client. */
module Domain {

  /** Task archetypes. The backend's union lists the first ten and `Custom`;
      the client's adds `Preparation` and `Reminder`, which the backend never generates. */
  datatype TaskType =
    | Proposal | Flyer | Community | Instagram | Line | Print | Meetup
    | Story | StoryRepost | Execution | Custom
    | Preparation | Reminder

  /** The task types of the backend's own type declaration. */
  predicate BackendTaskType(t: TaskType) {
    !t.Preparation? && !t.Reminder?
  }

  datatype Priority = Low | Medium | High

  /** Event status. The type declares four values, but nothing validates what a
      client sends, so any other string can be stored; `Other` carries it. */
  datatype Status = Planning | InProgress | Completed | Cancelled | Other(text: string)

  /** The status part of an update is applied only when it is a non-empty string. */
  predicate TruthyStatus(s: Status) {
    s != Other("")
  }
}
