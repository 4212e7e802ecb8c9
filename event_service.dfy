/** `EventService`: the events and event_tasks tables and the operations on them. */
module EventService {
  import opened Common
  import opened Domain
  import opened BackendTypes
  import opened TaskTemplates
  import Query

  /** The fields of `Partial<Event>` that `updateEvent` consults; every other key
      of the request body is ignored. `None` stands for absent or empty. */
  datatype EventPatch = EventPatch(
    title: Option<string>,
    description: Option<string>,
    eventDate: Option<Timestamp>,
    status: Option<Status>)

  /** The fields of `Partial<EventTask>` that `updateTask` consults. `completed`
      is `Some` exactly when the body holds a boolean there. */
  datatype TaskPatch = TaskPatch(
    title: Option<string>,
    description: Option<string>,
    dueDate: Option<Timestamp>,
    completed: Option<bool>,
    priority: Option<Priority>)

  /** The row `updateEvent` leaves behind: truthy fields replaced, `updated_at` refreshed. */
  function ApplyEventPatch(e: Event, p: EventPatch, now: Timestamp): Event {
    e.(title := if Truthy(p.title) then p.title.value else e.title,
       description := if Truthy(p.description) then p.description else e.description,
       eventDate := if p.eventDate.Some? then p.eventDate.value else e.eventDate,
       status := if p.status.Some? && TruthyStatus(p.status.value) then p.status.value else e.status,
       updatedAt := now)
  }

  /** The row `updateTask` leaves behind; `completed` is applied whenever it is a boolean. */
  function ApplyTaskPatch(row: TaskRow, p: TaskPatch, now: Timestamp): TaskRow {
    row.(title := if Truthy(p.title) then p.title.value else row.title,
         description := if Truthy(p.description) then p.description else row.description,
         dueDate := if p.dueDate.Some? then p.dueDate.value else row.dueDate,
         completed := if p.completed.Some? then StoredBool(p.completed.value) else row.completed,
         priority := if p.priority.Some? then p.priority.value else row.priority,
         updatedAt := now)
  }

  /** An event update never touches identity, owner or creation time, always
      stamps `updatedAt`, applies every truthy supplied field, and changes a
      field only to a truthy supplied value. */
  lemma EventPatchFrame(e: Event, p: EventPatch, now: Timestamp)
    ensures var r := ApplyEventPatch(e, p, now);
      && r.id == e.id && r.userId == e.userId && r.createdAt == e.createdAt
      && r.updatedAt == now
      && (Truthy(p.title) ==> r.title == p.title.value)
      && (r.title != e.title ==> Truthy(p.title))
      && (Truthy(p.description) ==> r.description == p.description)
      && (r.description != e.description ==> Truthy(p.description))
      && (p.eventDate.Some? ==> r.eventDate == p.eventDate.value)
      && (r.eventDate != e.eventDate ==> p.eventDate == Some(r.eventDate))
      && (p.status.Some? && TruthyStatus(p.status.value) ==> r.status == p.status.value)
      && (r.status != e.status ==> p.status == Some(r.status) && r.status != Other(""))
  {
  }

  /** Applying the same update twice at the same instant is applying it once. */
  lemma EventPatchIdempotent(e: Event, p: EventPatch, now: Timestamp)
    ensures ApplyEventPatch(ApplyEventPatch(e, p, now), p, now) == ApplyEventPatch(e, p, now)
  {
  }

  /** An update whose strings are all empty changes nothing but `updatedAt`. */
  lemma EmptyEventPatch(e: Event, now: Timestamp)
    ensures ApplyEventPatch(e, EventPatch(Some(""), Some(""), None, Some(Other(""))), now) == e.(updatedAt := now)
  {
  }

  /** A task update never changes the owning event, type or creation time; it
      applies `completed` even when false, applies every other truthy supplied
      field, and changes those fields only to truthy supplied values. */
  lemma TaskPatchFrame(row: TaskRow, p: TaskPatch, now: Timestamp)
    ensures var r := ApplyTaskPatch(row, p, now);
      && r.id == row.id && r.eventId == row.eventId && r.taskType == row.taskType
      && r.createdAt == row.createdAt && r.updatedAt == now
      && (p.completed.Some? ==> MapDbRowToTask(r).completed == p.completed.value)
      && (p.completed.None? ==> r.completed == row.completed)
      && (Truthy(p.title) ==> r.title == p.title.value)
      && (r.title != row.title ==> Truthy(p.title))
      && (Truthy(p.description) ==> r.description == p.description)
      && (r.description != row.description ==> Truthy(p.description))
      && (p.dueDate.Some? ==> r.dueDate == p.dueDate.value)
      && (r.dueDate != row.dueDate ==> p.dueDate == Some(r.dueDate))
      && (p.priority.Some? ==> r.priority == p.priority.value)
      && (r.priority != row.priority ==> p.priority == Some(r.priority))
  {
  }

  /** A body none of whose keys `updateTask` consults (one holding only `notes`,
      say) changes nothing but `updatedAt`. */
  lemma EmptyTaskPatch(row: TaskRow, now: Timestamp)
    ensures ApplyTaskPatch(row, TaskPatch(None, None, None, None, None), now) == row.(updatedAt := now)
  {
  }

  /** Ticking a task off (`{ completed: true }`) changes `completed` and `updatedAt` only. */
  lemma CompleteOnlyTouchesCompleted(row: TaskRow, now: Timestamp)
    ensures ApplyTaskPatch(row, TaskPatch(None, None, None, Some(true), None), now)
         == row.(completed := 1, updatedAt := now)
  {
  }

  class EventStore {
    var events: map<Id, Event>
    var tasks: map<Id, TaskRow>
    /** The schema's default for `events.status` (not set by any INSERT). */
    const statusDefault: Status
    /** The schema's default for `event_tasks.completed` (not set by any INSERT). */
    const completedDefault: int

    /** Every row is filed under its own id. */
    ghost predicate Valid()
      reads this
    {
      && (forall k | k in events :: events[k].id == k)
      && (forall k | k in tasks :: tasks[k].id == k)
    }

    /** All tasks as the service returns them. */
    ghost function TaskView(): set<EventTask>
      reads this
    {
      set k | k in tasks :: MapDbRowToTask(tasks[k])
    }

    constructor (statusDefault: Status, completedDefault: int)
      ensures Valid() && events == map[] && tasks == map[]
      ensures this.statusDefault == statusDefault && this.completedDefault == completedDefault
    {
      events := map[];
      tasks := map[];
      this.statusDefault := statusDefault;
      this.completedDefault := completedDefault;
    }

    /** The row `createTask` inserts: no status of its own, priority `medium` when none is given. */
    function NewTaskRow(id: Id, eventId: Id, d: TaskDraft, now: Timestamp): TaskRow {
      TaskRow(id, eventId, d.title, d.description, d.dueDate, completedDefault,
              d.taskType, d.priority.GetOr(Medium), now, now)
    }

    /** The rows inserted for drafts `ds` under ids `ids`, pairwise. */
    function GeneratedRows(eventId: Id, ds: seq<TaskDraft>, ids: seq<Id>, now: Timestamp): map<Id, TaskRow>
      requires |ds| == |ids|
    {
      if ds == [] then map[]
      else GeneratedRows(eventId, ds[..|ds| - 1], ids[..|ids| - 1], now)
             [ids[|ids| - 1] := NewTaskRow(ids[|ids| - 1], eventId, ds[|ds| - 1], now)]
    }

    /** The generated rows are filed exactly under the given ids, each under its own id,
        all belonging to the event. */
    lemma {:induction false} GeneratedRowsKeys(eventId: Id, ds: seq<TaskDraft>, ids: seq<Id>, now: Timestamp)
      requires |ds| == |ids|
      ensures forall k :: k in GeneratedRows(eventId, ds, ids, now) <==> k in ids
      ensures forall k | k in GeneratedRows(eventId, ds, ids, now) ::
        GeneratedRows(eventId, ds, ids, now)[k].id == k && GeneratedRows(eventId, ds, ids, now)[k].eventId == eventId
    {
      if ds != [] {
        var n := |ds| - 1;
        GeneratedRowsKeys(eventId, ds[..n], ids[..n], now);
        assert ids == ids[..n] + [ids[n]];
      }
    }

    /** One more draft adds one more row. */
    lemma GeneratedRowsSnoc(eventId: Id, ds: seq<TaskDraft>, ids: seq<Id>, now: Timestamp, i: nat)
      requires |ds| == |ids| && i < |ds|
      ensures GeneratedRows(eventId, ds[..i + 1], ids[..i + 1], now)
           == GeneratedRows(eventId, ds[..i], ids[..i], now)[ids[i] := NewTaskRow(ids[i], eventId, ds[i], now)]
    {
      assert ds[..i + 1][..i] == ds[..i] && ids[..i + 1][..i] == ids[..i];
    }

    /** The loop step of `InsertDrafts`: inserting the next row over the rows
        already there gives one more generated row, and the later ids stay free. */
    lemma GeneratedRowsStep(base: map<Id, TaskRow>, eventId: Id, ds: seq<TaskDraft>, ids: seq<Id>, now: Timestamp,
                            i: nat, current: map<Id, TaskRow>)
      requires |ds| == |ids| && i < |ds| && Query.Distinct(ids)
      requires current == base + GeneratedRows(eventId, ds[..i], ids[..i], now)
      requires forall j | i <= j < |ds| :: ids[j] !in current
      ensures current[ids[i] := NewTaskRow(ids[i], eventId, ds[i], now)]
           == base + GeneratedRows(eventId, ds[..i + 1], ids[..i + 1], now)
      ensures forall j | i < j < |ds| :: ids[j] !in current[ids[i] := NewTaskRow(ids[i], eventId, ds[i], now)]
    {
      GeneratedRowsSnoc(eventId, ds, ids, now, i);
      MapUnionUpdate(base, GeneratedRows(eventId, ds[..i], ids[..i], now), ids[i], NewTaskRow(ids[i], eventId, ds[i], now));
      assert forall j | i < j < |ds| :: ids[j] != ids[i];
    }

    /** With distinct ids, the i-th id holds the row of the i-th draft. */
    lemma {:induction false} GeneratedRowsAt(eventId: Id, ds: seq<TaskDraft>, ids: seq<Id>, now: Timestamp, n: nat)
      requires |ds| == |ids| && Query.Distinct(ids) && n <= |ids|
      ensures forall i | 0 <= i < n ::
        && ids[i] in GeneratedRows(eventId, ds[..n], ids[..n], now)
        && GeneratedRows(eventId, ds[..n], ids[..n], now)[ids[i]] == NewTaskRow(ids[i], eventId, ds[i], now)
    {
      if n > 0 {
        GeneratedRowsAt(eventId, ds, ids, now, n - 1);
        GeneratedRowsSnoc(eventId, ds, ids, now, n - 1);
        var before := GeneratedRows(eventId, ds[..n - 1], ids[..n - 1], now);
        forall i | 0 <= i < n
          ensures ids[i] in GeneratedRows(eventId, ds[..n], ids[..n], now)
          ensures GeneratedRows(eventId, ds[..n], ids[..n], now)[ids[i]] == NewTaskRow(ids[i], eventId, ds[i], now)
        {
          if i < n - 1 {
            assert ids[i] != ids[n - 1];
            assert ids[i] in before && before[ids[i]] == NewTaskRow(ids[i], eventId, ds[i], now);
          }
        }
      }
    }

    /** The i-th default task is filed under the i-th id, belongs to the event,
        copies the i-th template, and is due its offset in days before the event,
        so never after it. */
    lemma GeneratedDefaultRows(eventId: Id, eventDate: Timestamp, ids: seq<Id>, now: Timestamp, n: nat)
      requires |ids| == |DefaultTaskTemplates| && Query.Distinct(ids) && n <= |ids|
      ensures var g := GeneratedRows(eventId, DefaultDrafts(eventDate)[..n], ids[..n], now);
        forall i | 0 <= i < n ::
          && ids[i] in g
          && g[ids[i]].eventId == eventId
          && g[ids[i]].dueDate == eventDate - DefaultTaskTemplates[i].daysBeforeEvent * MsPerDay
          && g[ids[i]].dueDate <= eventDate
          && g[ids[i]].title == DefaultTaskTemplates[i].title
          && g[ids[i]].description == Some(DefaultTaskTemplates[i].description)
          && g[ids[i]].taskType == DefaultTaskTemplates[i].taskType
          && g[ids[i]].priority == DefaultTaskTemplates[i].priority
    {
      DefaultDraftsSchedule(eventDate);
      GeneratedRowsAt(eventId, DefaultDrafts(eventDate), ids, now, n);
    }

    /** `getEventById`: fails exactly when no event has that id. */
    function GetEventById(id: Id): (r: Result<Event>)
      reads this
      ensures r.Ok? <==> id in events
      ensures r.Ok? ==> r.value == events[id]
      ensures r.Err? ==> r.failure == EventNotFound
    {
      if id in events then Ok(events[id]) else Err(EventNotFound)
    }

    /** `getTaskById`: fails exactly when no task has that id. */
    function GetTaskById(id: Id): (r: Result<EventTask>)
      reads this
      ensures r.Ok? <==> id in tasks
      ensures r.Ok? ==> r.value == MapDbRowToTask(tasks[id])
      ensures r.Err? ==> r.failure == TaskNotFound
    {
      if id in tasks then Ok(MapDbRowToTask(tasks[id])) else Err(TaskNotFound)
    }

    /** `getEventsByUserId`: exactly the user's events, ascending by date. */
    method GetEventsByUserId(userId: Id) returns (r: seq<Event>)
      requires Valid()
      ensures forall e :: e in r <==> e in events.Values && e.userId == userId
      ensures forall i, j | 0 <= i < j < |r| :: r[i].id != r[j].id && r[i].eventDate <= r[j].eventDate
    {
      var evs := events;
      var ids := Query.SelectOrdered(evs, (e: Event) => e.userId == userId, (e: Event) => e.eventDate);
      r := seq(|ids|, i requires 0 <= i < |ids| => evs[ids[i]]);
      forall e | e in evs.Values && e.userId == userId ensures e in r {
        var k :| k in evs && evs[k] == e;
        var i :| 0 <= i < |ids| && ids[i] == k;
        assert r[i] == e;
      }
      forall i, j | 0 <= i < j < |r| ensures r[i].id != r[j].id && r[i].eventDate <= r[j].eventDate {
        assert r[i].id == ids[i] && r[j].id == ids[j];
      }
    }

    /** `getEventTasks`: exactly the event's tasks, ascending by due date. */
    method GetEventTasks(eventId: Id) returns (r: seq<EventTask>)
      requires Valid()
      ensures forall t :: t in r <==> t in TaskView() && t.eventId == eventId
      ensures forall i, j | 0 <= i < j < |r| :: r[i].id != r[j].id && r[i].dueDate <= r[j].dueDate
    {
      var rows := tasks;
      var ids := Query.SelectOrdered(rows, (row: TaskRow) => row.eventId == eventId, (row: TaskRow) => row.dueDate);
      r := seq(|ids|, i requires 0 <= i < |ids| => MapDbRowToTask(rows[ids[i]]));
      forall t | t in TaskView() && t.eventId == eventId ensures t in r {
        var k :| k in rows && MapDbRowToTask(rows[k]) == t;
        var i :| 0 <= i < |ids| && ids[i] == k;
        assert r[i] == t;
      }
      forall i, j | 0 <= i < j < |r| ensures r[i].id != r[j].id && r[i].dueDate <= r[j].dueDate {
        assert r[i].id == ids[i] && r[j].id == ids[j];
      }
    }

    /** `createTask`: inserts one row and reads it back. */
    method CreateTask(id: Id, eventId: Id, draft: TaskDraft, now: Timestamp) returns (t: EventTask)
      requires Valid() && id !in tasks
      modifies this
      ensures Valid() && events == old(events)
      ensures tasks == old(tasks)[id := NewTaskRow(id, eventId, draft, now)]
      ensures t == MapDbRowToTask(tasks[id])
    {
      tasks := tasks[id := NewTaskRow(id, eventId, draft, now)];
      t := MapDbRowToTask(tasks[id]);
    }

    /** The loop of `createDefaultTasks`: one `createTask` per draft, in order.
        `failAt` is the index of the first insert the database rejects, if any; the
        loop stops there, earlier rows remain, and the number inserted is returned. */
    method InsertDrafts(eventId: Id, drafts: seq<TaskDraft>, taskIds: seq<Id>, now: Timestamp, failAt: Option<nat>)
      returns (inserted: nat)
      requires Valid()
      requires |taskIds| == |drafts|
      requires Query.Distinct(taskIds)
      requires forall i | 0 <= i < |taskIds| :: taskIds[i] !in tasks
      modifies this
      ensures Valid() && events == old(events)
      ensures inserted == if failAt.Some? && failAt.value < |drafts| then failAt.value else |drafts|
      ensures tasks == old(tasks) + GeneratedRows(eventId, drafts[..inserted], taskIds[..inserted], now)
    {
      ghost var base, events0 := tasks, events;
      ghost var stop := if failAt.Some? && failAt.value < |drafts| then failAt.value else |drafts|;
      var i := 0;
      while i < |drafts| && failAt != Some(i)
        invariant i <= stop
        invariant Valid() && events == events0
        invariant tasks == base + GeneratedRows(eventId, drafts[..i], taskIds[..i], now)
        invariant forall j | i <= j < |drafts| :: taskIds[j] !in tasks
      {
        GeneratedRowsStep(base, eventId, drafts, taskIds, now, i, tasks);
        var _ := CreateTask(taskIds[i], eventId, drafts[i], now);
        i := i + 1;
      }
      return i;
    }

    /** `createDefaultTasks`: every template becomes a draft due its offset before
        the event, and the drafts are inserted in table order. */
    method CreateDefaultTasks(eventId: Id, eventDate: Timestamp, taskIds: seq<Id>, now: Timestamp, failAt: Option<nat>)
      returns (ok: bool)
      requires Valid()
      requires |taskIds| == |DefaultTaskTemplates|
      requires Query.Distinct(taskIds)
      requires forall i | 0 <= i < |taskIds| :: taskIds[i] !in tasks
      modifies this
      ensures Valid() && events == old(events)
      ensures ok <==> Inserted(failAt) == |DefaultTaskTemplates|
      ensures tasks == old(tasks) + GeneratedRows(eventId, DefaultDrafts(eventDate)[..Inserted(failAt)],
                                                  taskIds[..Inserted(failAt)], now)
    {
      var drafts := DefaultDrafts(eventDate);
      var inserted := InsertDrafts(eventId, drafts, taskIds, now, failAt);
      ok := inserted == |drafts|;
    }

    /** `createEvent`: inserts the event owned by `userId`, then its default tasks.
        If an insert fails partway the event and the earlier tasks remain. */
    method CreateEvent(id: Id, title: string, description: Option<string>, eventDate: Timestamp, userId: Id,
                       now: Timestamp, taskIds: seq<Id>, failAt: Option<nat>)
      returns (r: Result<Event>)
      requires Valid() && id !in events
      requires |taskIds| == |DefaultTaskTemplates|
      requires Query.Distinct(taskIds)
      requires forall i | 0 <= i < |taskIds| :: taskIds[i] !in tasks
      modifies this
      ensures Valid()
      ensures events == old(events)[id := Event(id, title, description, eventDate, now, now, statusDefault, userId)]
      ensures tasks == old(tasks) + GeneratedRows(id, DefaultDrafts(eventDate)[..Inserted(failAt)],
                                                  taskIds[..Inserted(failAt)], now)
      ensures r == if Inserted(failAt) == |DefaultTaskTemplates| then Ok(events[id]) else Err(StorageRejected)
    {
      events := events[id := Event(id, title, description, eventDate, now, now, statusDefault, userId)];
      var ok := CreateDefaultTasks(id, eventDate, taskIds, now, failAt);
      if !ok {
        return Err(StorageRejected);
      }
      r := GetEventById(id);
    }

    /** `updateEvent`: a missing id changes nothing and fails. */
    method UpdateEvent(id: Id, patch: EventPatch, now: Timestamp) returns (r: Result<Event>)
      requires Valid()
      modifies this
      ensures Valid() && tasks == old(tasks)
      ensures id in old(events) ==>
        events == old(events)[id := ApplyEventPatch(old(events)[id], patch, now)] && r == Ok(events[id])
      ensures id !in old(events) ==> events == old(events) && r == Err(EventNotFound)
    {
      if id in events {
        events := events[id := ApplyEventPatch(events[id], patch, now)];
      }
      r := GetEventById(id);
    }

    /** `updateTask`: a missing id changes nothing and fails. */
    method UpdateTask(id: Id, patch: TaskPatch, now: Timestamp) returns (r: Result<EventTask>)
      requires Valid()
      modifies this
      ensures Valid() && events == old(events)
      ensures id in old(tasks) ==>
        tasks == old(tasks)[id := ApplyTaskPatch(old(tasks)[id], patch, now)] && r == Ok(MapDbRowToTask(tasks[id]))
      ensures id !in old(tasks) ==> tasks == old(tasks) && r == Err(TaskNotFound)
    {
      if id in tasks {
        tasks := tasks[id := ApplyTaskPatch(tasks[id], patch, now)];
      }
      r := GetTaskById(id);
    }

    /** `deleteEvent`: removes that row only (its tasks stay), and never fails. */
    method DeleteEvent(id: Id)
      requires Valid()
      modifies this
      ensures Valid() && events == old(events) - {id} && tasks == old(tasks)
    {
      events := events - {id};
    }

    /** `deleteTask`: removes that row only, and never fails. */
    method DeleteTask(id: Id)
      requires Valid()
      modifies this
      ensures Valid() && tasks == old(tasks) - {id} && events == old(events)
    {
      tasks := tasks - {id};
    }
  }

  /** Updating the right operand of a map union is updating the union. */
  lemma MapUnionUpdate<K, V>(a: map<K, V>, b: map<K, V>, k: K, v: V)
    ensures a + b[k := v] == (a + b)[k := v]
  {
  }

  /** How many default tasks are inserted when the insert at `failAt` is rejected. */
  function Inserted(failAt: Option<nat>): (n: nat)
    ensures n <= |DefaultTaskTemplates|
    ensures n < |DefaultTaskTemplates| <==> failAt.Some? && failAt.value < |DefaultTaskTemplates|
  {
    if failAt.Some? && failAt.value < |DefaultTaskTemplates| then failAt.value else |DefaultTaskTemplates|
  }
}
