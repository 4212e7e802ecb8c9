/** The fixed table of default tasks and its expansion into drafts for an event. */
module TaskTemplates {
  import opened Common
  import opened Domain
  import opened BackendTypes

  const DefaultTaskTemplates: seq<TaskTemplate> := [
    TaskTemplate(Proposal, "企画書作成", "イベントの詳細な企画書を作成する", 30, High),
    TaskTemplate(Flyer, "フライヤー作成", "イベント告知用のフライヤーをデザイン・作成する", 30, High),
    TaskTemplate(Community, "コミュニティアプリ投稿", "コミュニティアプリにイベント情報を投稿する", 30, Medium),
    TaskTemplate(Instagram, "Instagram投稿", "Instagramにイベント告知を投稿する", 30, Medium),
    TaskTemplate(Line, "公式LINE予約投稿", "公式LINEでイベント予約受付を開始する", 30, Medium),
    TaskTemplate(Print, "フライヤー印刷・店舗張り出し", "フライヤーを印刷し、店舗に張り出す", 30, Medium),
    TaskTemplate(Meetup, "Meetup投稿", "Meetupにイベント情報を投稿する", 7, Medium),
    TaskTemplate(Story, "ストーリー投稿", "SNSストーリーでイベントを告知する", 7, Low),
    TaskTemplate(StoryRepost, "ストーリー再投稿", "イベント前日にストーリーで再度告知する", 1, Low),
    TaskTemplate(Execution, "実施・反省会", "イベント実施と終了後の反省会を行う", 0, High)
  ]

  /** One template made concrete for an event: due `daysBeforeEvent` days before it. */
  function DraftFor(t: TaskTemplate, eventDate: Timestamp): TaskDraft {
    TaskDraft(t.title, Some(t.description), AddDays(eventDate, -t.daysBeforeEvent), t.taskType, Some(t.priority))
  }

  /** The generator: one draft per template, in table order. */
  function Expand(ts: seq<TaskTemplate>, eventDate: Timestamp): (ds: seq<TaskDraft>)
    ensures |ds| == |ts|
  {
    if ts == [] then [] else [DraftFor(ts[0], eventDate)] + Expand(ts[1..], eventDate)
  }

  /** The i-th draft copies the i-th template and moves the event date back by its offset. */
  lemma {:induction false} ExpandAt(ts: seq<TaskTemplate>, eventDate: Timestamp, i: nat)
    requires i < |ts|
    ensures Expand(ts, eventDate)[i].dueDate == eventDate - ts[i].daysBeforeEvent * MsPerDay
    ensures Expand(ts, eventDate)[i].title == ts[i].title
    ensures Expand(ts, eventDate)[i].description == Some(ts[i].description)
    ensures Expand(ts, eventDate)[i].taskType == ts[i].taskType
    ensures Expand(ts, eventDate)[i].priority == Some(ts[i].priority)
  {
    if i > 0 {
      ExpandAt(ts[1..], eventDate, i - 1);
    }
  }

  function DefaultDrafts(eventDate: Timestamp): seq<TaskDraft> {
    Expand(DefaultTaskTemplates, eventDate)
  }

  function Offsets(ts: seq<TaskTemplate>): (r: seq<int>)
    ensures |r| == |ts| && forall i | 0 <= i < |ts| :: r[i] == ts[i].daysBeforeEvent
  {
    seq(|ts|, i requires 0 <= i < |ts| => ts[i].daysBeforeEvent)
  }

  /** The priority column of a table. */
  function Priorities(ts: seq<TaskTemplate>): (r: seq<Priority>)
    ensures |r| == |ts| && forall i | 0 <= i < |ts| :: r[i] == ts[i].priority
  {
    seq(|ts|, i requires 0 <= i < |ts| => ts[i].priority)
  }

  /** The table has ten entries with offsets 30,30,30,30,30,30,7,7,1,0: non-increasing, within 0..30. */
  lemma TableOffsets()
    ensures |DefaultTaskTemplates| == 10
    ensures Offsets(DefaultTaskTemplates) == [30, 30, 30, 30, 30, 30, 7, 7, 1, 0]
    ensures forall i, j | 0 <= i < j < 10 ::
      DefaultTaskTemplates[i].daysBeforeEvent >= DefaultTaskTemplates[j].daysBeforeEvent
    ensures forall i | 0 <= i < 10 :: 0 <= DefaultTaskTemplates[i].daysBeforeEvent <= 30
  {
  }

  /** Task types are pairwise distinct, none is `Custom` or client-only, and the
      last entry is the event itself: execution, offset 0, high priority. */
  lemma TableTypes()
    ensures forall i, j | 0 <= i < j < 10 ::
      DefaultTaskTemplates[i].taskType != DefaultTaskTemplates[j].taskType
    ensures forall i | 0 <= i < 10 ::
      DefaultTaskTemplates[i].taskType != Custom && BackendTaskType(DefaultTaskTemplates[i].taskType)
    ensures DefaultTaskTemplates[9].taskType == Execution
    ensures DefaultTaskTemplates[9].daysBeforeEvent == 0 && DefaultTaskTemplates[9].priority == High
  {
  }

  /** Three high-priority entries (proposal, flyer, execution), five medium, two low. */
  lemma PriorityDistribution()
    ensures multiset(Priorities(DefaultTaskTemplates))
         == multiset{High, High, High, Medium, Medium, Medium, Medium, Medium, Low, Low}
  {
    PriorityColumn();
  }

  lemma PriorityColumn()
    ensures Priorities(DefaultTaskTemplates) == [High, High, Medium, Medium, Medium, Medium, Medium, Low, Low, High]
  {
  }

  /** The low-priority entries are exactly the two story posts. */
  lemma LowPriorityStories()
    ensures forall i | 0 <= i < 10 ::
      DefaultTaskTemplates[i].priority == Low <==> DefaultTaskTemplates[i].taskType in {Story, StoryRepost}
  {
  }

  /** Every generated draft keeps the template's fields, is due exactly its offset
      in days before the event, and so is never due after it. */
  lemma DefaultDraftsSchedule(eventDate: Timestamp)
    ensures |DefaultDrafts(eventDate)| == 10
    ensures forall i | 0 <= i < 10 ::
      && DefaultDrafts(eventDate)[i].dueDate == eventDate - DefaultTaskTemplates[i].daysBeforeEvent * MsPerDay
      && DefaultDrafts(eventDate)[i].dueDate <= eventDate
      && DefaultDrafts(eventDate)[i].taskType == DefaultTaskTemplates[i].taskType
      && DefaultDrafts(eventDate)[i].title == DefaultTaskTemplates[i].title
      && DefaultDrafts(eventDate)[i].description == Some(DefaultTaskTemplates[i].description)
      && DefaultDrafts(eventDate)[i].priority == Some(DefaultTaskTemplates[i].priority)
  {
    TableOffsets();
    forall i | 0 <= i < 10
      ensures DefaultDrafts(eventDate)[i].dueDate == eventDate - DefaultTaskTemplates[i].daysBeforeEvent * MsPerDay
      ensures DefaultDrafts(eventDate)[i].dueDate <= eventDate
      ensures DefaultDrafts(eventDate)[i].taskType == DefaultTaskTemplates[i].taskType
      ensures DefaultDrafts(eventDate)[i].title == DefaultTaskTemplates[i].title
      ensures DefaultDrafts(eventDate)[i].description == Some(DefaultTaskTemplates[i].description)
      ensures DefaultDrafts(eventDate)[i].priority == Some(DefaultTaskTemplates[i].priority)
    {
      ExpandAt(DefaultTaskTemplates, eventDate, i);
    }
  }

  /** The worked example: an event at 2025-06-30T18:00:00Z gets its execution task
      at that instant and its proposal task at 2025-05-31T18:00:00Z. */
  lemma ExampleSchedule()
    ensures DefaultDrafts(1751306400000)[9].taskType == Execution
    ensures DefaultDrafts(1751306400000)[9].dueDate == 1751306400000
    ensures DefaultDrafts(1751306400000)[0].taskType == Proposal
    ensures DefaultDrafts(1751306400000)[0].dueDate == 1748714400000
  {
    DefaultDraftsSchedule(1751306400000);
  }
}
