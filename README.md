# eventmaking, modelled in Dafny

A model of the core of *eventmaking*, an event-planning tracker. Users register and log in. They create events, and each new event gets a checklist of ten promotional and operational tasks. Each task is due a fixed number of days before the event. Users tick tasks off and may keep notes on some of them.

The model covers four parts:

- **Default tasks.** The template table and its expansion into tasks for an event (`task_templates.dfy`).
- **Event store.** The `events` and `event_tasks` tables as a class over maps, with create, read, list, partial update and delete (`event_service.dfy`). The generic `SELECT … WHERE … ORDER BY` appears once, as a method (`query.dfy`).
- **Request gatekeeping.** This part has four pieces:
  - the user store with registration, login, profile and password changes (`user_service.dfy`);
  - the bearer-token middleware (`auth_middleware.dfy`);
  - the handlers of `/api/events` and `/api/auth`, which return a status and a body and change the stores (`event_routes.dfy`, `auth_routes.dfy`, `http.dfy`).

  bcrypt and JSON Web Tokens are concrete stand-ins with the one property each that the service relies on (`credentials.dfy`).
- **Client helpers.** This covers:
  - task urgency, progress percentage, the merge after ticking a task and the display order of tasks on the event page (`event_detail.dfy`);
  - the status colour, description preview and delete filter of the event list (`event_list.dfy`);
  - the link, notes and save rules of a task card (`task_card.dfy`).

Instants are integer milliseconds since the epoch. uuids, the clock, salts, the user's answer to a confirmation dialog and the outcome of API calls are parameters. The index of the first default-task insert the database rejects is also a parameter. Two facts about the code shape the model:

- `deleteEvent` issues a single `DELETE` on `events` and none on `event_tasks`. With no cascade in the model (see "Left out"), an event's tasks outlive it.
- Task routes `PUT`/`DELETE /tasks/:taskId` perform no ownership check. Any authenticated caller can change or delete any task. `EventRoutes.HandleEvents` states this.

## Model

| member | source | states |
|---|---|---|
| Credentials.HashAcceptsExactlyItsPassword | backend/src/services/userService.ts:39-41 | the stored hash of a password accepts that password, and exactly the passwords that agree with it in their first 72 characters; for passwords of at most 72, that password and no other |
| Credentials.LongPasswordsCollide | backend/src/services/userService.ts:39-41 | two passwords that differ only after their 72nd character are accepted by the same hash |
| Credentials.VerifySigned | backend/src/services/userService.ts:109-120 | a token signed for a user id verifies to that user id |
| Credentials.VerifyOnlySigned | backend/src/services/userService.ts:109-115 | verification succeeds exactly on tokens the service signed, and recovers the id they were signed for |
| BackendTypes.RowRoundTrip | backend/src/services/eventService.ts:189-202 | `MapDbRowToTask` inverts the row the service writes: a task written and read back is unchanged; a row reads back to itself exactly when its `completed` column is 0 or 1 (`Boolean(row.completed)`) |
| BackendTypes.SanitizeForgetsPassword | backend/src/services/userService.ts:132-135 | `SanitizeUser`, the user value returned to callers, does not depend on the stored password |
| TaskTemplates.TableOffsets | backend/src/utils/taskTemplates.ts:3-74 | ten entries; offsets 30,30,30,30,30,30,7,7,1,0, non-increasing and within 0..30 |
| TaskTemplates.TableTypes | backend/src/utils/taskTemplates.ts:3-74 | task types pairwise distinct, none `custom`, all backend types; the last entry is execution, offset 0, high |
| TaskTemplates.PriorityDistribution | backend/src/utils/taskTemplates.ts:3-74 | the priority column holds 3 high, 5 medium and 2 low |
| TaskTemplates.LowPriorityStories | backend/src/utils/taskTemplates.ts:3-74 | an entry has low priority exactly when it is the story or story-repost post |
| TaskTemplates.ExpandAt | backend/src/services/eventService.ts:163-172 | `Expand`, the loop's drafts: the i-th draft copies the i-th template's title, description, type and priority and is due its offset in days before the event |
| TaskTemplates.DefaultDraftsSchedule | backend/src/services/eventService.ts:162-174 | ten drafts, each due exactly its offset before the event and never after it, with the template's title, description, type and priority |
| TaskTemplates.ExampleSchedule | backend/src/services/eventService.ts:163-164 | for an event at 2025-06-30T18:00Z the execution task is due at that instant and the proposal task 30 days earlier |
| Query.SelectOrdered | backend/src/services/eventService.ts:38-41 | returns the keys of exactly the rows meeting the condition, each once, in ascending order of the sort column |
| EventService.EventPatchFrame | backend/src/services/eventService.ts:44-73 | `ApplyEventPatch`, the row updateEvent leaves: keeps id, owner and creation time, always stamps `updatedAt`, applies every truthy supplied title, description, date and status, and changes a field only to such a value |
| EventService.EventPatchIdempotent | backend/src/services/eventService.ts:44-73 | applying the same update twice at one instant equals applying it once |
| EventService.EmptyEventPatch | backend/src/services/eventService.ts:48-63 | empty strings in an update are ignored: only `updatedAt` changes |
| EventService.TaskPatchFrame | backend/src/services/eventService.ts:111-144 | `ApplyTaskPatch`, the row updateTask leaves: keeps id, event, type and creation time; applies `completed` whenever it is a boolean, also false; applies every truthy supplied title, description, due date and priority, and changes those fields only to such a value |
| EventService.EmptyTaskPatch | backend/src/services/eventService.ts:111-144 | a body with no key updateTask consults (only `notes`, say) changes nothing but `updatedAt` |
| EventService.CompleteOnlyTouchesCompleted | backend/src/services/eventService.ts:127-130 | ticking a task off changes only `completed` and `updatedAt` |
| EventService.EventStore.GeneratedRowsKeys | backend/src/services/eventService.ts:162-174 | the rows generated for an event are filed exactly under the given ids and all belong to that event |
| EventService.EventStore.GeneratedRowsAt | backend/src/services/eventService.ts:163-173 | with distinct ids, the i-th id holds the row inserted for the i-th draft |
| EventService.EventStore.GeneratedDefaultRows | backend/src/services/eventService.ts:162-174 | the i-th generated row sits under the i-th id, belongs to the event, copies the i-th template's title, description, type and priority, and is due its offset before the event, never after it |
| EventService.EventStore.GetEventById | backend/src/services/eventService.ts:26-35 | fails with not-found exactly when no event has the id, otherwise returns that row |
| EventService.EventStore.GetTaskById | backend/src/services/eventService.ts:151-160 | fails with not-found exactly when no task has the id, otherwise returns that row mapped to a task |
| EventService.EventStore.GetEventsByUserId | backend/src/services/eventService.ts:37-42 | exactly the events of that user, no duplicates, ascending by event date |
| EventService.EventStore.GetEventTasks | backend/src/services/eventService.ts:80-85 | exactly the tasks of that event, no duplicates, ascending by due date |
| EventService.EventStore.CreateTask | backend/src/services/eventService.ts:87-109 | adds exactly one row under the new id, priority medium when none is given, a missing description as `NULL`, and returns it as read back |
| EventService.EventStore.InsertDrafts | backend/src/services/eventService.ts:163-173 | inserts one row per draft in order, stopping at the first rejected insert; returns how many were inserted, and those rows are exactly the generated ones |
| EventService.EventStore.CreateDefaultTasks | backend/src/services/eventService.ts:162-174 | inserts one row per template in table order until the first rejected insert; reports success exactly when all ten were inserted |
| EventService.EventStore.CreateEvent | backend/src/services/eventService.ts:9-24 | inserts the event owned by the caller, then the default tasks; on a rejected task insert the event and earlier tasks remain and the call fails |
| EventService.EventStore.UpdateEvent | backend/src/services/eventService.ts:44-73 | a present event is replaced by the patched row, tasks untouched; a missing id changes nothing and fails |
| EventService.EventStore.UpdateTask | backend/src/services/eventService.ts:111-144 | a present task is replaced by the patched row, events untouched; a missing id changes nothing and fails |
| EventService.EventStore.DeleteEvent | backend/src/services/eventService.ts:75-78 | removes only that event, leaves its tasks, never fails |
| EventService.EventStore.DeleteTask | backend/src/services/eventService.ts:146-149 | removes only that task, never fails |
| UserService.RenamedIdempotent | backend/src/services/userService.ts:67-94 | repeating a profile update changes nothing more; an update with no truthy field changes nothing |
| UserService.ChangedPasswordLogsIn | backend/src/services/userService.ts:96-107 | after a password change the user's email logs in with the new password, and with another exactly when it agrees with the new one in its first 72 characters |
| UserService.UserStore.GetUserByEmail | backend/src/services/userService.ts:60-65 | returns the row with that email, or none exactly when no row has it |
| UserService.UserStore.GetUserById | backend/src/services/userService.ts:49-58 | fails with not-found exactly when no user has the id, otherwise returns that row |
| UserService.UserStore.CreateUser | backend/src/services/userService.ts:12-31 | a taken email fails and inserts nothing; otherwise stores the salted hash, returns the user without password, and the pair then logs in; emails stay unique |
| UserService.UserStore.AuthenticateUser | backend/src/services/userService.ts:33-47 | succeeds exactly when some user has that email and password; unknown email and wrong password fail with the same error; the token is signed for that user's id |
| UserService.UserStore.UpdateUser | backend/src/services/userService.ts:67-94 | an email held by another user fails with no change, the caller's own email is accepted; only truthy fields change; a missing user fails |
| UserService.UserStore.ChangePassword | backend/src/services/userService.ts:96-107 | missing user or wrong current password fails with no change; otherwise only the password hash is replaced |
| AuthMiddleware.Split | backend/src/middleware/auth.ts:17 | `split(' ')` yields at least one piece and no piece contains the separator |
| AuthMiddleware.SplitJoin | backend/src/middleware/auth.ts:17 | joining the pieces with the separator gives back the header |
| AuthMiddleware.SplitAtFirst | backend/src/middleware/auth.ts:17 | a header splits at its first separator |
| AuthMiddleware.BearerTokenOfHeader | backend/src/middleware/auth.ts:16-17 | `BearerToken`: the token is the second space-separated piece, whatever the scheme word |
| AuthMiddleware.NoSpaceNoToken | backend/src/middleware/auth.ts:17-22 | a header without a space carries no token |
| AuthMiddleware.Decide | backend/src/middleware/auth.ts:15-29 | 401 exactly when no non-empty token, 403 exactly when it does not verify, otherwise proceeds as the verified user |
| AuthMiddleware.IssuedTokenPasses | backend/src/middleware/auth.ts:16-26 | `Bearer` followed by a token the service signed passes as the user it was signed for |
| AuthMiddleware.AuthenticateToken | backend/src/middleware/auth.ts:10-30 | on success sets `req.userId` to the token's user and calls `next` exactly once; otherwise writes 401/403, does not call `next`, and leaves `req.userId` |
| EventRoutes.ListEventsRoute | backend/src/routes/events.ts:12-19 | 200 with exactly the caller's events, ascending by date |
| EventRoutes.ShowEventRoute | backend/src/routes/events.ts:22-35 | 404 for a missing event, 403 for another user's; 200 exactly for the caller's own event |
| EventRoutes.CreateEventRoute | backend/src/routes/events.ts:38-51 | 400 and no change without a truthy title and a date; otherwise the event owned by the caller, its description as posted (`NULL` when absent), with its default tasks, 201, or 400 with the partial state on a rejected insert |
| EventRoutes.UpdateEventRoute | backend/src/routes/events.ts:54-68 | 400 for a missing event, 403 for another user's, both without change; otherwise 200 with the patched event |
| EventRoutes.DeleteEventRoute | backend/src/routes/events.ts:71-85 | 400 for a missing event, 403 for another user's, both without change; otherwise 204 and only that event removed |
| EventRoutes.ListTasksRoute | backend/src/routes/events.ts:88-102 | 400 for a missing event, 403 for another user's; otherwise 200 with exactly the event's tasks by due date |
| EventRoutes.CreateTaskRoute | backend/src/routes/events.ts:105-132 | ownership before validation: 400 missing event, 403 not owner, 400 missing title/dueDate/taskType, each without change; otherwise 201 and one new task of that event |
| EventRoutes.UpdateTaskRoute | backend/src/routes/events.ts:135-142 | 200 with the patched task when it exists, else 400 with no change; no caller is consulted |
| EventRoutes.DeleteTaskRoute | backend/src/routes/events.ts:145-152 | 204 always, the task removed if present |
| EventRoutes.HandleEvents | backend/src/routes/events.ts:9-152 | without a valid token nothing changes; another user's events never change; on the `/:id` routes another user's event gets 403 and no change; existing tasks change only via the task routes, which succeed for any caller |
| AuthRoutes.Register | backend/src/routes/auth.ts:10-29 | 400 without change for a missing field, a password under 6 characters, or a taken email; otherwise 201 with the user without password and a token signed for the new id that passes the middleware |
| AuthRoutes.Login | backend/src/routes/auth.ts:32-45 | 400 for a missing field, 401 when the pair does not log in, 200 exactly when it does, with the user and a token for its id |
| AuthRoutes.Me | backend/src/routes/auth.ts:48-56 | the gate's refusal, or the caller's row without password, or 400 when the user no longer exists |
| AuthRoutes.UpdateMe | backend/src/routes/auth.ts:59-67 | the gate's refusal without change, else the outcome of `updateUser` on the caller as 200 or 400 |
| AuthRoutes.ChangePasswordRoute | backend/src/routes/auth.ts:70-87 | 400 without change for a missing field, a new password under 6 characters, a missing user or a wrong current password; otherwise 200 and only the hash replaced |
| Common.TruncDiv | frontend/src/components/Events/EventDetail.tsx:122 | truncating division: the quotient is the whole number of divisor steps toward zero, never past the dividend |
| EventDetail.GetTaskUrgency | frontend/src/components/Events/EventDetail.tsx:108-136 | no or unreadable date: normal, 0; overdue exactly for a past due time; urgent with 0 or 1 days, upcoming 2..7, normal above 7; days never negative |
| EventDetail.UrgencyByTimeLeft | frontend/src/components/Events/EventDetail.tsx:122-131 | the buckets by time left: under 2 days urgent, under 8 upcoming, else normal; overdue counts whole days since due |
| EventDetail.CountCompleted | frontend/src/components/Events/EventDetail.tsx:140 | the count is at most the length, 0 exactly when none is done, the length exactly when all are |
| EventDetail.CountCompletedMonotone | frontend/src/components/Events/EventDetail.tsx:140 | completing more tasks never lowers the count |
| EventDetail.RoundedPercent | frontend/src/components/Events/EventDetail.tsx:141 | `Math.round(done / total * 100)`: within 0..100, at most half a point from the exact percentage, 0 for none and 100 for all |
| EventDetail.CalculateProgress | frontend/src/components/Events/EventDetail.tsx:138-142 | 0 for no tasks; otherwise the rounded percentage done; always 0..100; 0 when none and 100 when all are done |
| EventDetail.PriorityColor | frontend/src/components/Events/EventDetail.tsx:95-106 | high gets error, medium warning and low success, each exactly |
| EventDetail.PriorityColorInjective | frontend/src/components/Events/EventDetail.tsx:95-106 | each priority has its own colour |
| EventDetail.MergeToggled | frontend/src/components/Events/EventDetail.tsx:64-70 | the merged task has the requested `completed` whatever the response holds; id and notes survive when the response lacks them |
| EventDetail.MergeFallback | frontend/src/components/Events/EventDetail.tsx:61-70 | the response `updateTask` fabricates after a failed PUT (`{ id, completed, updatedAt }`) changes nothing but `completed` and `updatedAt` of the task |
| EventDetail.ToggleWithFallback | frontend/src/components/Events/EventDetail.tsx:61-73 | after a failed PUT every task stays, and those with the id change only in `completed` and `updatedAt` |
| EventDetail.ToggleTasks | frontend/src/components/Events/EventDetail.tsx:64-73 | same length and order; tasks with another id untouched; those with the id get the requested `completed` |
| EventDetail.ToggleMovesCount | frontend/src/components/Events/EventDetail.tsx:64-73 | ticking never lowers the number done, unticking never raises it |
| EventDetail.InsertByDue | frontend/src/components/Events/EventDetail.tsx:245-255 | inserting adds exactly that task |
| EventDetail.InsertByDueSorted | frontend/src/components/Events/EventDetail.tsx:245-255 | inserting into a list in due order keeps it in due order |
| EventDetail.SortByDue | frontend/src/components/Events/EventDetail.tsx:245-255 | a permutation of the tasks, ascending by due time, a missing date as 0 |
| EventDetail.SortByDueKeepsSorted | frontend/src/components/Events/EventDetail.tsx:245-255 | a list already in due order is left as it is |
| EventDetail.EventDetailView.HandleTaskToggle | frontend/src/components/Events/EventDetail.tsx:59-78 | a failed call leaves `tasks`; otherwise `tasks` becomes the toggled list |
| EventDetail.EventDetailView.SortForDisplay | frontend/src/components/Events/EventDetail.tsx:245-255 | `tasks` becomes its due-date order |
| EventList.StatusColor | frontend/src/components/Events/EventList.tsx:59-72 | the neutral colour exactly for planning and unknown statuses, primary exactly for in-progress, success exactly for completed, error exactly for cancelled; never warning |
| EventList.StatusColorDistinguishes | frontend/src/components/Events/EventList.tsx:59-72 | apart from the neutral colour, equal colours mean equal statuses |
| EventList.DescriptionPreview | frontend/src/components/Events/EventList.tsx:135-140 | nothing is shown exactly for an empty description |
| EventList.PreviewIsPrefix | frontend/src/components/Events/EventList.tsx:137-140 | the preview starts with the first min(100, length) characters and ends in `...` exactly when the description is longer than 100 |
| EventList.WithoutEvent | frontend/src/components/Events/EventList.tsx:51 | keeps exactly the events with another id, never lengthens the list |
| EventList.WithoutEventConcat | frontend/src/components/Events/EventList.tsx:51 | the filter distributes over concatenation, so the survivors keep their order |
| EventList.WithoutEventIdempotent | frontend/src/components/Events/EventList.tsx:51 | a list without that id is unchanged; filtering twice is filtering once |
| EventList.EventListView.HandleDeleteEvent | frontend/src/components/Events/EventList.tsx:47-57 | one API call when confirmed; the event leaves the list only after a confirmed, successful delete; otherwise the list is unchanged |
| TaskCard.ExternalLink | frontend/src/components/Events/TaskCard.tsx:51-62 | community gets the community URL, instagram/story/story-repost the Instagram URL, every other type none |
| TaskCard.NotesAndLinkExclusive | frontend/src/components/Events/TaskCard.tsx:51-64 | a type with a notes editor (`HasNotes`) has no external link |
| TaskCard.DefaultTasksWithNotes | frontend/src/components/Events/TaskCard.tsx:64 | among the default tasks only execution has notes; four link out |
| TaskCard.SaveEnabledExactlyAfterChange | frontend/src/components/Events/TaskCard.tsx:224 | the editor opens with the stored notes or empty text, save disabled; save is enabled exactly when the text differs from them |

## Left out

- Persistence and I/O: SQLite, its connection wrapper and Express itself are not modelled. The tables are maps in memory.
- Database failures other than a rejected default-task insert, such as a failed event insert or a failed read, are not modelled. Neither are the 500 answer of `GET /` and other thrown errors outside the service's own checks.
- Instants are integer milliseconds. ISO-8601 text, its parsing and formatting, and the string comparison that `ORDER BY` performs on it are not modelled.
- Schema defaults: `schema.sql` is not part of this model. The default `status` of an event and the default `completed` of a task are the store's constants `statusDefault` and `completedDefault`.
- Foreign-key cascades: `schema.sql` is not part of this model, so whether deleting an event also deletes its tasks cannot be read from the code shown. The model assumes no cascade: EventService.EventStore.DeleteEvent leaves the event's tasks.
- The client types carry descriptions as strings. A `null` description reaching the client is the empty string there; both are falsy where the views test them.
- Task types outside the enumeration cannot be represented, though the backend does not validate `taskType`. An event status outside the four names is `Other(text)`.
- Priorities outside `low`/`medium`/`high` cannot be represented, though `createTask` and `updateTask` store any truthy `priority` string unchecked (backend/src/services/eventService.ts:103, 131-133); so `getPriorityColor`'s `default` branch, which gives such a value the neutral colour (frontend/src/components/Events/EventDetail.tsx:104-105), is not modelled by `EventDetail.PriorityColor`.
- `Promise.all` and async ordering are sequential here. Concurrent requests are not modelled, including a race between the duplicate-email check and the insert.
- The client transport (`api.ts`: JSONP, axios and the `setTimeout` fake success of the form submission) is not modelled; the fabricated `updateTask` fallback body is `EventDetail.FallbackResponse`, and other responses are captured by `TaskResponse` allowing any subset of fields.
- Client calls to methods that `api.ts` does not define are not modelled. These include `getAllEvents` and the session calls of the auth context.
- Credentials.Sign: a token is `"jwt."` followed by the user id. It has no signature bytes and no expiry ('7d'). A token whose payload lacks `userId` is not represented.
- Credentials.Hash: one-wayness and the cost factor of bcrypt are not modelled. The hash keeps the password's significant part in a field no code path returns. Its 72-byte limit is counted in characters, not UTF-8 bytes, so a password with non-ASCII characters is cut later than bcrypt cuts it.
- Credentials.HashAcceptsExactlyItsPassword: the 72-byte bound is stated in characters, which agrees with bcrypt for ASCII passwords only.
- UserService.ChangedPasswordLogsIn: the same character-for-byte reading of bcrypt's 72-byte bound.
- `handleSaveNotes` (TaskCard.tsx:47-49) hands `(task.id, notes)` to the `onUpdateNotes` callback, and no component of the code supplies that callback. What a save does to the stored task is therefore not modelled. The backend would ignore the key (EventService.EmptyTaskPatch).
- AuthMiddleware.Split: only the one-character separator that the middleware uses.
- AuthRoutes.Register: password length is counted in characters, not in UTF-16 code units as JavaScript's `length` does. The same holds for AuthRoutes.ChangePasswordRoute.
- EventList.DescriptionPreview: `substring(0, 100)` counts UTF-16 code units. The model counts characters.
- Common.AddDays: whole 24-hour days. date-fns steps calendar days in local time, which differs across a daylight-saving change.
- EventDetail.DifferenceInDays: whole 24-hour periods truncated toward zero. Local calendar days and daylight-saving shifts are not modelled.
- EventDetail.RoundedPercent: exact rational round-half-up. Floating-point error in `Math.round(c / n * 100)` is not modelled.
- EventDetail.SortByDue: stability (equal due times keep their order) is not stated. An unreadable date makes the comparator return `NaN`, which the sort treats as "equal" to everything, so the order is implementation-defined. The model places such a task as if its due time were 0.
- Query.SelectOrdered: rows with equal sort keys come out in an unspecified order, as SQLite's `ORDER BY` leaves it.
