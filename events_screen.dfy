/** The local-events screen: the type filter and joining or leaving an event. */
module EventsScreen {
  import opened Wrappers
  import Lists

  /** A listed event; `kind` is the source's `type` field. */
  datatype LocalEvent = LocalEvent(
    id: string,
    name: string,
    kind: string,
    location: string,
    date: string,
    time: string,
    price: string,
    description: string,
    attendees: int,
    isAttending: bool,
    discount: Option<string>)

  /** `filteredEvents`: with no filter (null, or the empty string, which is
      falsy) every event; otherwise the events of that type, in order. */
  function FilteredEvents(events: seq<LocalEvent>, filterType: Option<string>): (r: seq<LocalEvent>)
    ensures filterType.None? || filterType.value == "" ==> r == events
    ensures filterType.Some? && filterType.value != "" ==>
      && (forall k :: 0 <= k < |r| ==> r[k] in events && r[k].kind == filterType.value)
      && (forall k :: 0 <= k < |events| && events[k].kind == filterType.value ==> events[k] in r)
  {
    if filterType.Some? && filterType.value != "" then
      Lists.Filter(events, (e: LocalEvent) => e.kind == filterType.value)
    else events
  }

  /** The filtered list is ordered as the full list: filtering a concatenation
      filters each part, and a single event is kept exactly when it passes. */
  lemma FilteredEventsKeepsOrder(a: seq<LocalEvent>, b: seq<LocalEvent>, e: LocalEvent, filterType: Option<string>)
    ensures FilteredEvents(a + b, filterType) == FilteredEvents(a, filterType) + FilteredEvents(b, filterType)
    ensures FilteredEvents([e], filterType)
         == if filterType.None? || filterType.value == "" || e.kind == filterType.value then [e] else []
  {
    if filterType.Some? && filterType.value != "" {
      Lists.FilterSplits(a, b, e, (x: LocalEvent) => x.kind == filterType.value);
    }
  }

  /** The event after the user joins or leaves it. */
  function Flip(e: LocalEvent): LocalEvent {
    e.(isAttending := !e.isAttending, attendees := if e.isAttending then e.attendees - 1 else e.attendees + 1)
  }

  /** `toggleAttendance(eventId)`: every event with that id is flipped, the
      others are kept, and the list keeps its length and order. */
  function ToggleAttendance(events: seq<LocalEvent>, eventId: string): (r: seq<LocalEvent>)
    ensures |r| == |events|
    ensures forall k :: 0 <= k < |events| && events[k].id != eventId ==> r[k] == events[k]
    ensures forall k :: 0 <= k < |events| && events[k].id == eventId ==>
      && r[k].isAttending == !events[k].isAttending
      && r[k].attendees == (if events[k].isAttending then events[k].attendees - 1 else events[k].attendees + 1)
      && r[k].(isAttending := events[k].isAttending, attendees := events[k].attendees) == events[k]
    decreases |events|
  {
    if events == [] then []
    else [if events[0].id == eventId then Flip(events[0]) else events[0]] + ToggleAttendance(events[1..], eventId)
  }

  /** Joining then leaving (or leaving then joining) restores the list. */
  lemma ToggleAttendanceTwice(events: seq<LocalEvent>, eventId: string)
    ensures ToggleAttendance(ToggleAttendance(events, eventId), eventId) == events
  {
    var r := ToggleAttendance(ToggleAttendance(events, eventId), eventId);
    assert forall k :: 0 <= k < |events| ==> r[k] == events[k];
  }

  /** Toggling one event leaves the attendance of every other event as it was. */
  lemma ToggleAttendanceIsolated(events: seq<LocalEvent>, eventId: string, k: int)
    requires 0 <= k < |events| && events[k].id != eventId
    ensures ToggleAttendance(events, eventId)[k] == events[k]
  {
  }

  /** The suffix of the attendee line (after the attendee count and "people"),
      and the action button, of an event card. */
  function AttendeeText(e: LocalEvent): (text: string)
    ensures text == "including you" <==> e.isAttending
  {
    if e.isAttending then "including you" else "attending"
  }

  function ButtonLabel(e: LocalEvent): (caption: string)
    ensures caption == "Cancel" <==> e.isAttending
  {
    if e.isAttending then "Cancel" else "Join Event"
  }

  /** The card reads "including you" and offers "Cancel" exactly when the user
      attends, and toggling swaps both. */
  lemma CardFollowsAttendance(events: seq<LocalEvent>, eventId: string, k: int)
    requires 0 <= k < |events| && events[k].id == eventId
    ensures var e := events[k]; var r := ToggleAttendance(events, eventId)[k];
      && (AttendeeText(e) == "including you" <==> e.isAttending)
      && (ButtonLabel(e) == "Cancel" <==> e.isAttending)
      && (ButtonLabel(r) == "Cancel" <==> !e.isAttending)
  {
  }
}
