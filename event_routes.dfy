/** The `/api/events` router: every route sits behind `authenticateToken`; the
    event routes check that the caller owns the event, the task routes do not. */
module EventRoutes {
  import opened Common
  import opened Domain
  import opened BackendTypes
  import opened TaskTemplates
  import opened EventService
  import opened Http
  import opened AuthMiddleware
  import Query

  /** `{ title, description, eventDate }` of POST /. A string field is `None` when
      the body lacks it and is then bound as SQL `NULL`; an empty or missing
      `eventDate` is `None`. */
  datatype NewEventBody = NewEventBody(title: Option<string>, description: Option<string>, eventDate: Option<Timestamp>)

  /** `{ title, description, dueDate, taskType, priority }` of POST /:id/tasks;
      `None` marks a field the body lacks (or an empty date, type or priority). */
  datatype NewTaskBody = NewTaskBody(
    title: Option<string>,
    description: Option<string>,
    dueDate: Option<Timestamp>,
    taskType: Option<TaskType>,
    priority: Option<Priority>)

  ghost predicate Owns(events: map<Id, Event>, caller: Id, id: Id) {
    id in events && events[id].userId == caller
  }

  /** Rows of events the caller does not own are exactly as they were. */
  ghost predicate OthersEventsKept(before: map<Id, Event>, after: map<Id, Event>, caller: Id) {
    forall k | k in before && before[k].userId != caller :: k in after && after[k] == before[k]
  }

  /** Existing task rows are exactly as they were (new rows may have been added). */
  ghost predicate TasksKept(before: map<Id, TaskRow>, after: map<Id, TaskRow>) {
    forall k | k in before :: k in after && after[k] == before[k]
  }

  /** GET /: the caller's events, earliest first. */
  method ListEventsRoute(store: EventStore, caller: Id) returns (resp: Response)
    requires store.Valid()
    ensures resp.status == 200 && resp.body.EventsJson?
    ensures forall e :: e in resp.body.events <==> e in store.events.Values && e.userId == caller
    ensures forall i, j | 0 <= i < j < |resp.body.events| ::
      resp.body.events[i].eventDate <= resp.body.events[j].eventDate
  {
    var events := store.GetEventsByUserId(caller);
    resp := Response(200, EventsJson(events));
  }

  /** GET /:id: 404 for a missing event, 403 for someone else's, else the event. */
  method ShowEventRoute(store: EventStore, caller: Id, id: Id) returns (resp: Response)
    requires store.Valid()
    ensures id !in store.events ==> resp == Response(404, ErrorJson(Service(EventNotFound)))
    ensures id in store.events && !Owns(store.events, caller, id) ==> resp == Response(403, ErrorJson(NotOwner))
    ensures resp.status == 200 <==> Owns(store.events, caller, id)
    ensures resp.status == 200 ==> resp.body == EventJson(store.events[id]) && resp.body.event.userId == caller
  {
    var event := store.GetEventById(id);
    if event.Err? {
      return Response(404, ErrorJson(Service(event.failure)));
    }
    if event.value.userId != caller {
      return Response(403, ErrorJson(NotOwner));
    }
    resp := Response(200, EventJson(event.value));
  }

  /** POST /: title and eventDate are required; the new event belongs to the
      caller and comes with its default tasks. A rejected insert answers 400 and
      leaves what was already inserted. */
  method CreateEventRoute(store: EventStore, caller: Id, body: NewEventBody,
                          id: Id, taskIds: seq<Id>, now: Timestamp, failAt: Option<nat>)
    returns (resp: Response)
    requires store.Valid() && id !in store.events
    requires |taskIds| == |DefaultTaskTemplates| && Query.Distinct(taskIds)
    requires forall i | 0 <= i < |taskIds| :: taskIds[i] !in store.tasks
    modifies store
    ensures store.Valid()
    ensures !(Truthy(body.title) && body.eventDate.Some?) ==>
      && resp == Response(400, ErrorJson(MissingFields))
      && store.events == old(store.events) && store.tasks == old(store.tasks)
    ensures Truthy(body.title) && body.eventDate.Some? ==>
      && store.events == old(store.events)[id := Event(id, body.title.value, body.description,
                                                   body.eventDate.value, now, now, store.statusDefault, caller)]
      && store.tasks == old(store.tasks) + store.GeneratedRows(id, DefaultDrafts(body.eventDate.value)[..Inserted(failAt)],
                                                               taskIds[..Inserted(failAt)], now)
      && resp == if Inserted(failAt) == |DefaultTaskTemplates| then Response(201, EventJson(store.events[id]))
                 else Response(400, ErrorJson(Service(StorageRejected)))
  {
    if !Truthy(body.title) || body.eventDate.None? {
      return Response(400, ErrorJson(MissingFields));
    }
    var r := store.CreateEvent(id, body.title.value, body.description, body.eventDate.value,
                               caller, now, taskIds, failAt);
    if r.Err? {
      return Response(400, ErrorJson(Service(r.failure)));
    }
    resp := Response(201, EventJson(r.value));
  }

  /** PUT /:id: 400 for a missing event, 403 for someone else's, else the patched event. */
  method UpdateEventRoute(store: EventStore, caller: Id, id: Id, patch: EventPatch, now: Timestamp)
    returns (resp: Response)
    requires store.Valid()
    modifies store
    ensures store.Valid() && store.tasks == old(store.tasks)
    ensures id !in old(store.events) ==>
      resp == Response(400, ErrorJson(Service(EventNotFound))) && store.events == old(store.events)
    ensures id in old(store.events) && !Owns(old(store.events), caller, id) ==>
      resp == Response(403, ErrorJson(NotOwner)) && store.events == old(store.events)
    ensures Owns(old(store.events), caller, id) ==>
      && store.events == old(store.events)[id := ApplyEventPatch(old(store.events)[id], patch, now)]
      && resp == Response(200, EventJson(store.events[id]))
  {
    var event := store.GetEventById(id);
    if event.Err? {
      return Response(400, ErrorJson(Service(event.failure)));
    }
    if event.value.userId != caller {
      return Response(403, ErrorJson(NotOwner));
    }
    var r := store.UpdateEvent(id, patch, now);
    resp := Response(200, EventJson(r.value));
  }

  /** DELETE /:id: 400 for a missing event, 403 for someone else's, else 204; the
      event's tasks are not deleted. */
  method DeleteEventRoute(store: EventStore, caller: Id, id: Id) returns (resp: Response)
    requires store.Valid()
    modifies store
    ensures store.Valid() && store.tasks == old(store.tasks)
    ensures id !in old(store.events) ==>
      resp == Response(400, ErrorJson(Service(EventNotFound))) && store.events == old(store.events)
    ensures id in old(store.events) && !Owns(old(store.events), caller, id) ==>
      resp == Response(403, ErrorJson(NotOwner)) && store.events == old(store.events)
    ensures Owns(old(store.events), caller, id) ==>
      resp == Response(204, NoContent) && store.events == old(store.events) - {id}
  {
    var event := store.GetEventById(id);
    if event.Err? {
      return Response(400, ErrorJson(Service(event.failure)));
    }
    if event.value.userId != caller {
      return Response(403, ErrorJson(NotOwner));
    }
    store.DeleteEvent(id);
    resp := Response(204, NoContent);
  }

  /** GET /:id/tasks: 400 for a missing event, 403 for someone else's, else the
      event's tasks, earliest due first. */
  method ListTasksRoute(store: EventStore, caller: Id, id: Id) returns (resp: Response)
    requires store.Valid()
    ensures id !in store.events ==> resp == Response(400, ErrorJson(Service(EventNotFound)))
    ensures id in store.events && !Owns(store.events, caller, id) ==> resp == Response(403, ErrorJson(NotOwner))
    ensures resp.status == 200 <==> Owns(store.events, caller, id)
    ensures resp.status == 200 ==>
      && resp.body.TasksJson?
      && (forall t :: t in resp.body.tasks <==> t in store.TaskView() && t.eventId == id)
      && (forall i, j | 0 <= i < j < |resp.body.tasks| :: resp.body.tasks[i].dueDate <= resp.body.tasks[j].dueDate)
  {
    var event := store.GetEventById(id);
    if event.Err? {
      return Response(400, ErrorJson(Service(event.failure)));
    }
    if event.value.userId != caller {
      return Response(403, ErrorJson(NotOwner));
    }
    var tasks := store.GetEventTasks(id);
    resp := Response(200, TasksJson(tasks));
  }

  /** POST /:id/tasks: ownership is checked before the body; title, dueDate and
      taskType are required; priority defaults to medium. */
  method CreateTaskRoute(store: EventStore, caller: Id, id: Id, body: NewTaskBody, taskId: Id, now: Timestamp)
    returns (resp: Response)
    requires store.Valid() && taskId !in store.tasks
    modifies store
    ensures store.Valid() && store.events == old(store.events)
    ensures id !in old(store.events) ==>
      resp == Response(400, ErrorJson(Service(EventNotFound))) && store.tasks == old(store.tasks)
    ensures id in old(store.events) && !Owns(old(store.events), caller, id) ==>
      resp == Response(403, ErrorJson(NotOwner)) && store.tasks == old(store.tasks)
    ensures Owns(old(store.events), caller, id) && !(Truthy(body.title) && body.dueDate.Some? && body.taskType.Some?) ==>
      resp == Response(400, ErrorJson(MissingFields)) && store.tasks == old(store.tasks)
    ensures Owns(old(store.events), caller, id) && Truthy(body.title) && body.dueDate.Some? && body.taskType.Some? ==>
      && store.tasks == old(store.tasks)[taskId := store.NewTaskRow(taskId, id,
           TaskDraft(body.title.value, body.description, body.dueDate.value, body.taskType.value, body.priority), now)]
      && resp == Response(201, TaskJson(MapDbRowToTask(store.tasks[taskId])))
      && resp.body.task.eventId == id
  {
    var event := store.GetEventById(id);
    if event.Err? {
      return Response(400, ErrorJson(Service(event.failure)));
    }
    if event.value.userId != caller {
      return Response(403, ErrorJson(NotOwner));
    }
    if !Truthy(body.title) || body.dueDate.None? || body.taskType.None? {
      return Response(400, ErrorJson(MissingFields));
    }
    var draft := TaskDraft(body.title.value, body.description, body.dueDate.value, body.taskType.value, body.priority);
    var task := store.CreateTask(taskId, id, draft, now);
    resp := Response(201, TaskJson(task));
  }

  /** PUT /tasks/:taskId: no ownership check; any caller may patch any task. */
  method UpdateTaskRoute(store: EventStore, taskId: Id, patch: TaskPatch, now: Timestamp) returns (resp: Response)
    requires store.Valid()
    modifies store
    ensures store.Valid() && store.events == old(store.events)
    ensures taskId !in old(store.tasks) ==>
      resp == Response(400, ErrorJson(Service(TaskNotFound))) && store.tasks == old(store.tasks)
    ensures taskId in old(store.tasks) ==>
      && store.tasks == old(store.tasks)[taskId := ApplyTaskPatch(old(store.tasks)[taskId], patch, now)]
      && resp == Response(200, TaskJson(MapDbRowToTask(store.tasks[taskId])))
  {
    var r := store.UpdateTask(taskId, patch, now);
    if r.Err? {
      return Response(400, ErrorJson(Service(r.failure)));
    }
    resp := Response(200, TaskJson(r.value));
  }

  /** DELETE /tasks/:taskId: no ownership check, and 204 even when nothing was deleted. */
  method DeleteTaskRoute(store: EventStore, taskId: Id) returns (resp: Response)
    requires store.Valid()
    modifies store
    ensures store.Valid() && store.events == old(store.events)
    ensures store.tasks == old(store.tasks) - {taskId} && resp == Response(204, NoContent)
  {
    store.DeleteTask(taskId);
    resp := Response(204, NoContent);
  }

  datatype EventsRequest =
    | ListEvents
    | ShowEvent(id: Id)
    | CreateEventRequest(eventBody: NewEventBody)
    | UpdateEventRequest(id: Id, patch: EventPatch)
    | DeleteEventRequest(id: Id)
    | ListTasks(id: Id)
    | CreateTaskRequest(id: Id, taskBody: NewTaskBody)
    | UpdateTaskRequest(taskId: Id, taskPatch: TaskPatch)
    | DeleteTaskRequest(taskId: Id)
  {
    /** The routes under `/:id` that check the event's owner. */
    predicate OwnerChecked() {
      ShowEvent? || UpdateEventRequest? || DeleteEventRequest? || ListTasks? || CreateTaskRequest?
    }
  }

  /** What the server draws for one request: uuids, the clock, and the index of
      the first default-task insert the database rejects, if any. */
  datatype Environment = Environment(newId: Id, taskIds: seq<Id>, now: Timestamp, failAt: Option<nat>)

  ghost predicate FreshIn(store: EventStore, env: Environment)
    reads store
  {
    && env.newId !in store.events && env.newId !in store.tasks
    && |env.taskIds| == |DefaultTaskTemplates| && Query.Distinct(env.taskIds)
    && (forall i | 0 <= i < |env.taskIds| :: env.taskIds[i] !in store.tasks)
  }

  /** The router: the token gate, then the route. Without a valid token nothing
      changes; a caller never changes another user's events; on the routes under
      `/:id` someone else's event is refused with 403; existing tasks change only
      through the task routes, which any authenticated caller may use on any task. */
  method HandleEvents(store: EventStore, authorization: Option<string>, req: EventsRequest, env: Environment)
    returns (resp: Response)
    requires store.Valid() && FreshIn(store, env)
    modifies store
    ensures store.Valid()
    ensures Decide(authorization).Reject? ==>
      && resp == Decide(authorization).response
      && store.events == old(store.events) && store.tasks == old(store.tasks)
    ensures Decide(authorization).Pass? ==>
      OthersEventsKept(old(store.events), store.events, Decide(authorization).userId)
    ensures Decide(authorization).Pass? && req.OwnerChecked() && req.id in old(store.events)
            && !Owns(old(store.events), Decide(authorization).userId, req.id) ==>
      && resp == Response(403, ErrorJson(NotOwner))
      && store.events == old(store.events) && store.tasks == old(store.tasks)
    ensures !(req.UpdateTaskRequest? || req.DeleteTaskRequest?) ==> TasksKept(old(store.tasks), store.tasks)
    ensures Decide(authorization).Pass? && req.UpdateTaskRequest? ==>
      (resp.status == 200 <==> req.taskId in old(store.tasks))
    ensures Decide(authorization).Pass? && req.DeleteTaskRequest? ==>
      resp.status == 204 && req.taskId !in store.tasks
  {
    var gate := Decide(authorization);
    if gate.Reject? {
      return gate.response;
    }
    var caller := gate.userId;
    match req {
      case ListEvents =>
        resp := ListEventsRoute(store, caller);
      case ShowEvent(id) =>
        resp := ShowEventRoute(store, caller, id);
      case CreateEventRequest(body) =>
        resp := CreateEventRoute(store, caller, body, env.newId, env.taskIds, env.now, env.failAt);
        assert TasksKept(old(store.tasks), store.tasks) by {
          forall k | k in old(store.tasks) ensures k in store.tasks && store.tasks[k] == old(store.tasks)[k] {
            if Truthy(body.title) && body.eventDate.Some? {
              store.GeneratedRowsKeys(env.newId, DefaultDrafts(body.eventDate.value)[..Inserted(env.failAt)],
                                      env.taskIds[..Inserted(env.failAt)], env.now);
              assert k !in env.taskIds[..Inserted(env.failAt)];
            }
          }
        }
      case UpdateEventRequest(id, patch) =>
        resp := UpdateEventRoute(store, caller, id, patch, env.now);
      case DeleteEventRequest(id) =>
        resp := DeleteEventRoute(store, caller, id);
      case ListTasks(id) =>
        resp := ListTasksRoute(store, caller, id);
      case CreateTaskRequest(id, body) =>
        resp := CreateTaskRoute(store, caller, id, body, env.newId, env.now);
      case UpdateTaskRequest(taskId, patch) =>
        resp := UpdateTaskRoute(store, taskId, patch, env.now);
      case DeleteTaskRequest(taskId) =>
        resp := DeleteTaskRoute(store, taskId);
    }
  }
}
