/** The logic of the `EventDetail` page: urgency of a task, progress of an event,
    the merge after ticking a task, and the display order of tasks. */
module EventDetail {
  import opened Common
  import opened Domain
  import opened ClientTypes

  datatype UrgencyKind = Overdue | Urgent | Upcoming | Normal

  datatype Urgency = Urgency(kind: UrgencyKind, days: int)

  /** `differenceInDays(due, now)` of date-fns: whole days between the instants,
      truncated toward zero. */
  function DifferenceInDays(due: Timestamp, now: Timestamp): int {
    TruncDiv(due - now, MsPerDay)
  }

  /** `getTaskUrgency`: no date or an unreadable one is `normal` with 0 days; a
      past due time is `overdue` by the whole days since; otherwise `urgent`
      within a day, `upcoming` within a week, else `normal`. */
  function GetTaskUrgency(due: DueText, now: Timestamp): (u: Urgency)
    ensures u.days >= 0
    ensures !due.At? ==> u == Urgency(Normal, 0)
    ensures u.kind == Overdue <==> due.At? && due.instant < now
    ensures u.kind == Urgent ==> 0 <= u.days <= 1
    ensures u.kind == Upcoming ==> 2 <= u.days <= 7
    ensures u.kind == Normal && due.At? ==> u.days > 7
  {
    match due
    case Missing => Urgency(Normal, 0)
    case Unparseable => Urgency(Normal, 0)
    case At(t) =>
      var days := DifferenceInDays(t, now);
      if t < now then Urgency(Overdue, if days < 0 then -days else days)
      else if days <= 1 then Urgency(Urgent, days)
      else if days <= 7 then Urgency(Upcoming, days)
      else Urgency(Normal, days)
  }

  /** The buckets by the time left until the due instant: under two days urgent,
      under eight upcoming, from eight on normal; an overdue task counts the
      whole days since it was due. */
  lemma UrgencyByTimeLeft(due: Timestamp, now: Timestamp)
    ensures due < now ==> GetTaskUrgency(At(due), now) == Urgency(Overdue, (now - due) / MsPerDay)
    ensures now <= due ==> GetTaskUrgency(At(due), now).days == (due - now) / MsPerDay
    ensures now <= due && due - now < 2 * MsPerDay ==> GetTaskUrgency(At(due), now).kind == Urgent
    ensures 2 * MsPerDay <= due - now < 8 * MsPerDay ==> GetTaskUrgency(At(due), now).kind == Upcoming
    ensures 8 * MsPerDay <= due - now ==> GetTaskUrgency(At(due), now).kind == Normal
  {
    var left := due - now;
    var days := DifferenceInDays(due, now);
    if due < now {
      assert days == -((now - due) / MsPerDay);
    } else {
      assert days == left / MsPerDay;
      assert days * MsPerDay <= left < (days + 1) * MsPerDay;
      if left < 2 * MsPerDay {
        assert days <= 1;
      } else if left < 8 * MsPerDay {
        assert 2 <= days <= 7;
      } else {
        assert days >= 8;
      }
    }
  }

  /** `tasks.filter(task => task.completed).length`. */
  function CountCompleted(tasks: seq<ClientTask>): (n: nat)
    ensures n <= |tasks|
    ensures n == 0 <==> forall i | 0 <= i < |tasks| :: !tasks[i].completed
    ensures n == |tasks| <==> forall i | 0 <= i < |tasks| :: tasks[i].completed
  {
    if tasks == [] then 0
    else (if tasks[0].completed then 1 else 0) + CountCompleted(tasks[1..])
  }

  /** Completing tasks never lowers the count: a list whose every completed
      position is completed in another list of the same length counts no more. */
  lemma {:induction false} CountCompletedMonotone(a: seq<ClientTask>, b: seq<ClientTask>)
    requires |a| == |b|
    requires forall i | 0 <= i < |a| :: a[i].completed ==> b[i].completed
    ensures CountCompleted(a) <= CountCompleted(b)
  {
    if a != [] {
      CountCompletedMonotone(a[1..], b[1..]);
    }
  }

  /** `Math.round(completed / total * 100)` with halves rounded up. */
  function RoundedPercent(part: nat, total: nat): (p: int)
    requires 0 < total && part <= total
    ensures 0 <= p <= 100
    ensures 2 * total * p <= 200 * part + total < 2 * total * (p + 1)
    ensures part == 0 ==> p == 0
    ensures part == total ==> p == 100
  {
    var p := (200 * part + total) / (2 * total);
    RoundingBounds(part, total, p);
    p
  }

  /** The quotient of round-half-up lies between 0 and 100, and hits the ends
      exactly for none and all. */
  lemma RoundingBounds(part: nat, total: nat, p: int)
    requires 0 < total && part <= total && p == (200 * part + total) / (2 * total)
    ensures 0 <= p <= 100
    ensures 2 * total * p <= 200 * part + total < 2 * total * (p + 1)
    ensures part == 0 ==> p == 0
    ensures part == total ==> p == 100
  {
    DivBounds(200 * part + total, 2 * total, p);
    if p > 100 {
      MulMonotone(2 * total, 101, p);
    }
    if p < 0 {
      MulMonotone(2 * total, p + 1, 0);
    }
    if part == 0 && p > 0 {
      MulMonotone(2 * total, 1, p);
    }
    if part == total && p < 100 {
      MulMonotone(2 * total, p + 1, 100);
    }
  }

  lemma DivBounds(x: nat, d: nat, q: int)
    requires 0 < d && q == x / d
    ensures d * q <= x < d * (q + 1)
  {
  }

  lemma MulMonotone(k: nat, a: int, b: int)
    requires a <= b
    ensures k * a <= k * b
  {
  }

  /** `calculateProgress`: 0 for no tasks, otherwise the rounded percentage done. */
  function CalculateProgress(tasks: seq<ClientTask>): (p: int)
    ensures 0 <= p <= 100
    ensures |tasks| == 0 ==> p == 0
    ensures |tasks| > 0 ==> 2 * |tasks| * p <= 200 * CountCompleted(tasks) + |tasks| < 2 * |tasks| * (p + 1)
    ensures (forall i | 0 <= i < |tasks| :: !tasks[i].completed) ==> p == 0
    ensures |tasks| > 0 && (forall i | 0 <= i < |tasks| :: tasks[i].completed) ==> p == 100
  {
    if |tasks| == 0 then 0 else RoundedPercent(CountCompleted(tasks), |tasks|)
  }

  /** `getPriorityColor`. */
  function PriorityColor(p: Priority): (c: Color)
    ensures c == Error <==> p == High
    ensures c == Warning <==> p == Medium
    ensures c == Success <==> p == Low
  {
    match p
    case High => Error
    case Medium => Warning
    case Low => Success
  }

  /** Each priority has its own colour. */
  lemma PriorityColorInjective(a: Priority, b: Priority)
    ensures PriorityColor(a) == PriorityColor(b) <==> a == b
  {
  }

  /** The parsed body of `apiService.updateTask`: the fields it holds. */
  datatype TaskResponse = TaskResponse(
    id: Option<Id>,
    eventId: Option<Id>,
    title: Option<string>,
    description: Option<string>,
    dueDate: Option<DueText>,
    completed: Option<bool>,
    taskType: Option<TaskType>,
    createdAt: Option<string>,
    updatedAt: Option<string>,
    priority: Option<Priority>,
    notes: Option<string>)

  /** The response `apiService.updateTask` fabricates when the PUT fails:
      `{ id: taskId, ...updates, updatedAt }` with the toggle's `{ completed }` as
      the updates and `stamp` the client's current time as text. */
  function FallbackResponse(taskId: Id, completed: bool, stamp: string): TaskResponse {
    TaskResponse(Some(taskId), None, None, None, None, Some(completed), None, None, Some(stamp), None, None)
  }

  /** `{ ...task, ...updatedTask, completed }`: fields present in the response win,
      absent ones keep the task's, and `completed` is the value asked for. */
  function MergeToggled(task: ClientTask, resp: TaskResponse, completed: bool): (r: ClientTask)
    ensures r.completed == completed
    ensures resp.notes.None? ==> r.notes == task.notes
    ensures resp.id.None? ==> r.id == task.id
  {
    ClientTask(
      resp.id.GetOr(task.id),
      resp.eventId.GetOr(task.eventId),
      resp.title.GetOr(task.title),
      resp.description.GetOr(task.description),
      resp.dueDate.GetOr(task.dueDate),
      completed,
      resp.taskType.GetOr(task.taskType),
      resp.createdAt.GetOr(task.createdAt),
      resp.updatedAt.GetOr(task.updatedAt),
      resp.priority.GetOr(task.priority),
      if resp.notes.Some? then resp.notes else task.notes)
  }

  /** Merged into the task it was asked for, the fallback response changes
      nothing but `completed` and `updatedAt`. */
  lemma MergeFallback(task: ClientTask, completed: bool, stamp: string)
    ensures MergeToggled(task, FallbackResponse(task.id, completed, stamp), completed)
         == task.(completed := completed, updatedAt := stamp)
  {
  }

  /** The new `tasks` state after ticking: the same tasks in the same order, those
      with that id merged with the response and set to the value asked for. */
  function ToggleTasks(tasks: seq<ClientTask>, taskId: Id, completed: bool, resp: TaskResponse): (r: seq<ClientTask>)
    ensures |r| == |tasks|
    ensures forall i | 0 <= i < |tasks| && tasks[i].id != taskId :: r[i] == tasks[i]
    ensures forall i | 0 <= i < |tasks| && tasks[i].id == taskId :: r[i].completed == completed
  {
    seq(|tasks|, i requires 0 <= i < |tasks| =>
      if tasks[i].id == taskId then MergeToggled(tasks[i], resp, completed) else tasks[i])
  }

  /** After a failed PUT the list keeps every task, and the tasks with that id
      change only in `completed` and `updatedAt`. */
  lemma ToggleWithFallback(tasks: seq<ClientTask>, taskId: Id, completed: bool, stamp: string)
    ensures var r := ToggleTasks(tasks, taskId, completed, FallbackResponse(taskId, completed, stamp));
      forall i | 0 <= i < |tasks| ::
        r[i] == if tasks[i].id == taskId then tasks[i].(completed := completed, updatedAt := stamp) else tasks[i]
  {
    forall i | 0 <= i < |tasks| && tasks[i].id == taskId {
      MergeFallback(tasks[i], completed, stamp);
    }
  }

  /** Ticking a task never lowers the number done, unticking never raises it. */
  lemma ToggleMovesCount(tasks: seq<ClientTask>, taskId: Id, completed: bool, resp: TaskResponse)
    ensures completed ==> CountCompleted(tasks) <= CountCompleted(ToggleTasks(tasks, taskId, completed, resp))
    ensures !completed ==> CountCompleted(ToggleTasks(tasks, taskId, completed, resp)) <= CountCompleted(tasks)
  {
    var r := ToggleTasks(tasks, taskId, completed, resp);
    if completed {
      CountCompletedMonotone(tasks, r);
    } else {
      CountCompletedMonotone(r, tasks);
    }
  }

  /** The comparator's key: the due instant, and 0 for a missing date. An
      unreadable date also sorts as 0 here; see the README. */
  function DueKey(d: DueText): int {
    match d
    case At(t) => t
    case Missing => 0
    case Unparseable => 0
  }

  ghost predicate SortedByDue(s: seq<ClientTask>) {
    forall i, j | 0 <= i < j < |s| :: DueKey(s[i].dueDate) <= DueKey(s[j].dueDate)
  }

  /** Puts `x` in front of the first task that is due no earlier. */
  function InsertByDue(x: ClientTask, s: seq<ClientTask>): (r: seq<ClientTask>)
    ensures multiset(r) == multiset(s) + multiset{x}
  {
    if s == [] || DueKey(x.dueDate) <= DueKey(s[0].dueDate) then [x] + s
    else
      assert s == [s[0]] + s[1..];
      [s[0]] + InsertByDue(x, s[1..])
  }

  /** No task in `s` is due before `k`. */
  ghost predicate DueFrom(s: seq<ClientTask>, k: int) {
    forall y | y in s :: k <= DueKey(y.dueDate)
  }

  /** The tail of a list in due order is in due order and due no earlier than its head. */
  lemma SortedTail(s: seq<ClientTask>)
    requires SortedByDue(s) && s != []
    ensures SortedByDue(s[1..]) && DueFrom(s[1..], DueKey(s[0].dueDate))
  {
    forall y | y in s[1..] ensures DueKey(s[0].dueDate) <= DueKey(y.dueDate) {
      var k :| 0 <= k < |s[1..]| && s[1..][k] == y;
      assert s[k + 1] == y;
    }
  }

  /** A head due no later than a sorted tail gives a sorted list. */
  lemma SortedCons(h: ClientTask, rest: seq<ClientTask>)
    requires SortedByDue(rest) && DueFrom(rest, DueKey(h.dueDate))
    ensures SortedByDue([h] + rest)
  {
    var r := [h] + rest;
    forall i, j | 0 <= i < j < |r| ensures DueKey(r[i].dueDate) <= DueKey(r[j].dueDate) {
      if i == 0 {
        assert r[j] in rest;
      } else {
        assert r[i] == rest[i - 1] && r[j] == rest[j - 1];
      }
    }
  }

  /** Inserting a task due no earlier than `k` into tasks due no earlier than `k`. */
  lemma InsertByDueFrom(x: ClientTask, s: seq<ClientTask>, k: int)
    requires DueFrom(s, k) && k <= DueKey(x.dueDate)
    ensures DueFrom(InsertByDue(x, s), k)
  {
    var r := InsertByDue(x, s);
    forall y | y in r ensures k <= DueKey(y.dueDate) {
      assert y in multiset(r);
    }
  }

  /** Inserting into a list in due order keeps it in due order. */
  lemma {:induction false} InsertByDueSorted(x: ClientTask, s: seq<ClientTask>)
    requires SortedByDue(s)
    ensures SortedByDue(InsertByDue(x, s))
  {
    if s == [] || DueKey(x.dueDate) <= DueKey(s[0].dueDate) {
      if s != [] {
        SortedTail(s);
        forall y | y in s ensures DueKey(x.dueDate) <= DueKey(y.dueDate) {
          if y != s[0] {
            assert y in s[1..] by { assert s == [s[0]] + s[1..]; }
          }
        }
      }
      SortedCons(x, s);
    } else {
      SortedTail(s);
      InsertByDueSorted(x, s[1..]);
      InsertByDueFrom(x, s[1..], DueKey(s[0].dueDate));
      SortedCons(s[0], InsertByDue(x, s[1..]));
    }
  }

  /** The order `tasks.sort` gives with the due-date comparator: ascending due
      time, a task without a date first; the same tasks, each as often. */
  function SortByDue(s: seq<ClientTask>): (r: seq<ClientTask>)
    ensures multiset(r) == multiset(s)
    ensures SortedByDue(r)
  {
    if s == [] then []
    else
      assert s == [s[0]] + s[1..];
      InsertByDueSorted(s[0], SortByDue(s[1..]));
      InsertByDue(s[0], SortByDue(s[1..]))
  }

  /** A list already in due order is left as it is. */
  lemma {:induction false} SortByDueKeepsSorted(s: seq<ClientTask>)
    requires SortedByDue(s)
    ensures SortByDue(s) == s
  {
    if s != [] {
      assert SortedByDue(s[1..]);
      SortByDueKeepsSorted(s[1..]);
      assert s == [s[0]] + s[1..];
    }
  }

  /** The `tasks` state of the page. */
  class EventDetailView {
    var tasks: seq<ClientTask>

    constructor (tasks: seq<ClientTask>)
      ensures this.tasks == tasks
    {
      this.tasks := tasks;
    }

    /** `handleTaskToggle`: `response` is what the API call gave, `None` when it failed. */
    method HandleTaskToggle(taskId: Id, completed: bool, response: Option<TaskResponse>)
      modifies this
      ensures response.None? ==> tasks == old(tasks)
      ensures response.Some? ==> tasks == ToggleTasks(old(tasks), taskId, completed, response.value)
    {
      if response.Some? {
        tasks := ToggleTasks(tasks, taskId, completed, response.value);
      }
    }

    /** The in-place `tasks.sort` of the render. */
    method SortForDisplay()
      modifies this
      ensures tasks == SortByDue(old(tasks))
    {
      tasks := SortByDue(tasks);
    }
  }
}
