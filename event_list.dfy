/** The logic of the `EventList` page: status chips, description previews and deletion. */
module EventList {
  import opened Common
  import opened Domain
  import opened ClientTypes

  /** `getStatusColor`; the `EventDetail` page has an identical copy. Planning and
      any unknown status share the neutral colour. */
  function StatusColor(s: Status): (c: Color)
    ensures c == Default <==> s == Planning || s.Other?
    ensures c == Primary <==> s == InProgress
    ensures c == Success <==> s == Completed
    ensures c == Error <==> s == Cancelled
    ensures c != Warning
  {
    match s
    case Planning => Default
    case InProgress => Primary
    case Completed => Success
    case Cancelled => Error
    case Other(_) => Default
  }

  /** Apart from the neutral colour, the chip colour tells the status apart. */
  lemma StatusColorDistinguishes(a: Status, b: Status)
    requires StatusColor(a) == StatusColor(b) && StatusColor(a) != Default
    ensures a == b
  {
  }

  const PreviewLength: nat := 100

  /** The description line of an event card: nothing for an empty description;
      a description longer than 100 characters is cut to its first 100 and
      followed by "...". */
  function DescriptionPreview(description: string): (r: Option<string>)
    ensures r.None? <==> description == ""
  {
    if description == "" then None
    else if |description| > PreviewLength then Some(description[..PreviewLength] + "...")
    else Some(description)
  }

  /** The preview starts with the description itself, up to 100 characters, and
      adds the ellipsis exactly when something was cut. */
  lemma PreviewIsPrefix(description: string)
    requires description != ""
    ensures var r := DescriptionPreview(description).value;
      var shown := if |description| > PreviewLength then PreviewLength else |description|;
      && |r| == shown + (if |description| > PreviewLength then 3 else 0)
      && r[..shown] == description[..shown]
      && (|description| > PreviewLength <==> r[shown..] == "...")
      && |r| <= PreviewLength + 3
  {
  }

  /** `events.filter(event => event.id !== eventId)`. */
  function WithoutEvent(events: seq<ClientEvent>, eventId: Id): (r: seq<ClientEvent>)
    ensures |r| <= |events|
    ensures forall e :: e in r <==> e in events && e.id != eventId
  {
    if events == [] then []
    else if events[0].id == eventId then WithoutEvent(events[1..], eventId)
    else [events[0]] + WithoutEvent(events[1..], eventId)
  }

  /** Filtering keeps the order of what remains: it distributes over concatenation. */
  lemma {:induction false} WithoutEventConcat(a: seq<ClientEvent>, b: seq<ClientEvent>, eventId: Id)
    ensures WithoutEvent(a + b, eventId) == WithoutEvent(a, eventId) + WithoutEvent(b, eventId)
  {
    if a == [] {
      assert a + b == b;
    } else {
      assert (a + b)[0] == a[0] && (a + b)[1..] == a[1..] + b;
      WithoutEventConcat(a[1..], b, eventId);
    }
  }

  /** A list without that id is left as it is, and deleting twice is deleting once. */
  lemma {:induction false} WithoutEventIdempotent(events: seq<ClientEvent>, eventId: Id)
    ensures (forall e | e in events :: e.id != eventId) ==> WithoutEvent(events, eventId) == events
    ensures WithoutEvent(WithoutEvent(events, eventId), eventId) == WithoutEvent(events, eventId)
  {
    if events != [] {
      WithoutEventIdempotent(events[1..], eventId);
      if events[0].id != eventId {
        assert ([events[0]] + WithoutEvent(events[1..], eventId))[0] == events[0];
        assert ([events[0]] + WithoutEvent(events[1..], eventId))[1..] == WithoutEvent(events[1..], eventId);
        if forall e | e in events :: e.id != eventId {
          assert events == [events[0]] + events[1..];
        }
      }
    }
  }

  /** The `events` state of the page. */
  class EventListView {
    var events: seq<ClientEvent>

    constructor (events: seq<ClientEvent>)
      ensures this.events == events
    {
      this.events := events;
    }

    /** `handleDeleteEvent`: asks for confirmation, calls the API once, and drops
        the event from the list only when the call succeeded. `confirmed` is the
        answer to the dialog and `deleted` whether the API call succeeded. */
    method HandleDeleteEvent(eventId: Id, confirmed: bool, deleted: bool) returns (apiCalls: nat)
      modifies this
      ensures apiCalls == if confirmed then 1 else 0
      ensures confirmed && deleted ==> events == WithoutEvent(old(events), eventId)
      ensures !(confirmed && deleted) ==> events == old(events)
    {
      apiCalls := 0;
      if confirmed {
        apiCalls := apiCalls + 1;
        if deleted {
          events := WithoutEvent(events, eventId);
        }
      }
    }
  }
}
