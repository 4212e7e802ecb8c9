/** The logic of `TaskCard`: the external link of a task type, which tasks carry
    a notes editor, and when the editor's save button is enabled. */
module TaskCard {
  import opened Common
  import opened Domain
  import opened BackendTypes
  import opened TaskTemplates
  import opened ClientTypes

  const CommunityUrl: string := "https://ecg-english.github.io/language-community"
  const InstagramUrl: string := "https://www.instagram.com/english_ecg"

  /** `getExternalLink`: where the card's link button points, if anywhere. */
  function ExternalLink(t: TaskType): (link: Option<string>)
    ensures link == Some(CommunityUrl) <==> t == Community
    ensures link == Some(InstagramUrl) <==> t in {Instagram, Story, StoryRepost}
    ensures link.None? <==> t !in {Community, Instagram, Story, StoryRepost}
  {
    match t
    case Community => Some(CommunityUrl)
    case Instagram => Some(InstagramUrl)
    case Story => Some(InstagramUrl)
    case StoryRepost => Some(InstagramUrl)
    case _ => None
  }

  /** `hasNotes`: only preparation and execution tasks get a notes editor. */
  predicate HasNotes(t: TaskType) {
    t == Preparation || t == Execution
  }

  /** No task type has both a notes editor and an external link. */
  lemma NotesAndLinkExclusive(t: TaskType)
    ensures HasNotes(t) ==> ExternalLink(t).None?
  {
  }

  /** Of the generated default tasks only the last, the execution task, has a
      notes editor; four of them link out. */
  lemma DefaultTasksWithNotes()
    ensures forall i | 0 <= i < |DefaultTaskTemplates| ::
      HasNotes(DefaultTaskTemplates[i].taskType) <==> i == 9
    ensures forall i | 0 <= i < |DefaultTaskTemplates| ::
      ExternalLink(DefaultTaskTemplates[i].taskType).Some? <==> i in {2, 3, 7, 8}
  {
  }

  /** `useState(task.notes || '')`: the editor's starting text. */
  function InitialNotes(task: ClientTask): string {
    task.notes.GetOr("")
  }

  /** `disabled={notes === (task.notes || '')}`: nothing to save. */
  predicate SaveDisabled(task: ClientTask, notes: string) {
    notes == InitialNotes(task)
  }

  /** The editor opens with the stored notes, or empty text when there are none,
      so save starts disabled; it is enabled exactly when the text differs from them. */
  lemma SaveEnabledExactlyAfterChange(task: ClientTask, edited: string)
    ensures task.notes.None? ==> InitialNotes(task) == ""
    ensures SaveDisabled(task, InitialNotes(task))
    ensures !SaveDisabled(task, edited) <==> (task.notes.Some? && edited != task.notes.value) || (task.notes.None? && edited != "")
  {
  }
}
