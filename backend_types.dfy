/** The backend's records: events, task rows and tasks, users, templates. */
module BackendTypes {
  import opened Common
  import opened Domain
  import opened Credentials

  /** A row of `events` (the row mapper only renames columns, so rows and
      events coincide). A description never supplied is SQL `NULL`, `None`. */
  datatype Event = Event(
    id: Id,
    title: string,
    description: Option<string>,
    eventDate: Timestamp,
    createdAt: Timestamp,
    updatedAt: Timestamp,
    status: Status,
    userId: Id)

  /** A row of `event_tasks`. SQLite has no boolean type: `completed` is stored
      as an integer (1 for true, 0 for false, or the schema's default). A
      description never supplied is SQL `NULL`, `None`. */
  datatype TaskRow = TaskRow(
    id: Id,
    eventId: Id,
    title: string,
    description: Option<string>,
    dueDate: Timestamp,
    completed: int,
    taskType: TaskType,
    priority: Priority,
    createdAt: Timestamp,
    updatedAt: Timestamp)

  /** A task as the service returns it. */
  datatype EventTask = EventTask(
    id: Id,
    eventId: Id,
    title: string,
    description: Option<string>,
    dueDate: Timestamp,
    completed: bool,
    taskType: TaskType,
    priority: Priority,
    createdAt: Timestamp,
    updatedAt: Timestamp)

  /** The integer SQLite stores for a bound JavaScript boolean. */
  function StoredBool(b: bool): int {
    if b then 1 else 0
  }

  /** `mapDbRowToTask`: column renaming, and `Boolean(row.completed)`. */
  function MapDbRowToTask(row: TaskRow): EventTask {
    EventTask(row.id, row.eventId, row.title, row.description, row.dueDate,
              row.completed != 0, row.taskType, row.priority, row.createdAt, row.updatedAt)
  }

  /** The row the service writes for a task. */
  function RowOf(t: EventTask): TaskRow {
    TaskRow(t.id, t.eventId, t.title, t.description, t.dueDate,
            StoredBool(t.completed), t.taskType, t.priority, t.createdAt, t.updatedAt)
  }

  /** Reading back a written task gives the task; a row reads back to itself
      exactly when its `completed` column holds 0 or 1. */
  lemma RowRoundTrip(t: EventTask, row: TaskRow)
    ensures MapDbRowToTask(RowOf(t)) == t
    ensures RowOf(MapDbRowToTask(row)) == row <==> row.completed == 0 || row.completed == 1
  {
  }

  /** The fields a new task is created from (`Partial<EventTask>` in `createTask`). */
  datatype TaskDraft = TaskDraft(
    title: string,
    description: Option<string>,
    dueDate: Timestamp,
    taskType: TaskType,
    priority: Option<Priority>)

  datatype TaskTemplate = TaskTemplate(
    taskType: TaskType,
    title: string,
    description: string,
    daysBeforeEvent: int,
    priority: Priority)

  datatype User = User(id: Id, email: string, name: string, password: PasswordHash, createdAt: Timestamp)

  /** `UserWithoutPassword`: the only shape in which a user leaves the service. */
  datatype UserPublic = UserPublic(id: Id, email: string, name: string, createdAt: Timestamp)

  /** `sanitizeUser`. */
  function SanitizeUser(u: User): UserPublic {
    UserPublic(u.id, u.email, u.name, u.createdAt)
  }

  /** What leaves the service does not depend on the stored password. */
  lemma SanitizeForgetsPassword(u: User, h: PasswordHash)
    ensures SanitizeUser(u.(password := h)) == SanitizeUser(u)
  {
  }
}
