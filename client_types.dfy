/** The client's view of events and tasks, as received in JSON from the backend. */
module ClientTypes {
  import opened Common
  import opened Domain

  /** A `dueDate` string as the client sees it: empty, text `parseISO` cannot
      read, or an instant. */
  datatype DueText = Missing | Unparseable | At(instant: Timestamp)

  /** The client `EventTask`; `notes` is the optional memo field that the backend
      never sends. */
  datatype ClientTask = ClientTask(
    id: Id,
    eventId: Id,
    title: string,
    description: string,
    dueDate: DueText,
    completed: bool,
    taskType: TaskType,
    createdAt: string,
    updatedAt: string,
    priority: Priority,
    notes: Option<string>)

  /** The client `Event`; the owner id is not part of the client type. */
  datatype ClientEvent = ClientEvent(
    id: Id,
    title: string,
    description: string,
    eventDate: string,
    createdAt: string,
    updatedAt: string,
    status: Status)

  /** The Material UI chip colours the views choose between. */
  datatype Color = Default | Primary | Success | Error | Warning
}
