/** The nearby-event notifier: which events are close to the user and start
    within the next day, and the service that alerts about each such event at
    most once, remembering the ids it has already alerted about. */
module Notification {
  import opened Wrappers
  import Lists

  // Instants are integer milliseconds on the device's local clock.
  const MsPerMinute: int := 60000
  const MsPerHour: int := 3600000
  const MsPerDay: int := 86400000

  /** The "nearby" radius of the service, in kilometres. */
  const NearbyDistanceKm: real := 5.0

  datatype Coord = Coord(latitude: real, longitude: real)

  datatype Event = Event(
    id: string,
    title: string,
    description: string,
    location: Coord,
    address: string,
    date: int,
    time: int,
    creator: string,
    attendees: seq<string>,
    maxAttendees: Option<int>,
    tags: seq<string>)

  /** The great-circle distance in kilometres between two positions; the
      service is given it rather than computing it. */
  type Distance = (Coord, Coord) -> real

  // Calendar fields of an instant (Dafny's / and % round down for a
  // positive divisor, as the calendar does for instants before the epoch).
  function DayOf(t: int): int { t / MsPerDay }
  function HourOf(t: int): int { (t % MsPerDay) / MsPerHour }
  function MinuteOf(t: int): int { (t % MsPerHour) / MsPerMinute }
  function SubMinuteOf(t: int): int { t % MsPerMinute }

  lemma FieldBounds(t: int)
    ensures 0 <= HourOf(t) < 24 && 0 <= MinuteOf(t) < 60 && 0 <= SubMinuteOf(t) < MsPerMinute
  {
  }

  /** Division by each unit: a quotient and an in-range remainder are the only ones. */
  lemma SplitDay(t: int, q: int, r: int)
    requires 0 <= r < MsPerDay && t == q * MsPerDay + r
    ensures t / MsPerDay == q && t % MsPerDay == r
  {
  }

  lemma SplitHour(t: int, q: int, r: int)
    requires 0 <= r < MsPerHour && t == q * MsPerHour + r
    ensures t / MsPerHour == q && t % MsPerHour == r
  {
  }

  lemma SplitMinute(t: int, q: int, r: int)
    requires 0 <= r < MsPerMinute && t == q * MsPerMinute + r
    ensures t / MsPerMinute == q && t % MsPerMinute == r
  {
  }

  /** Splits an instant into its day, hour, minute and the rest of the minute. */
  lemma Decompose(t: int)
    ensures t == DayOf(t) * MsPerDay + HourOf(t) * MsPerHour + MinuteOf(t) * MsPerMinute + SubMinuteOf(t)
  {
    var d := t % MsPerDay;
    var h := d % MsPerHour;
    SplitHour(t, DayOf(t) * 24 + HourOf(t), h);
    var m := h % MsPerMinute;
    SplitMinute(t, DayOf(t) * 1440 + HourOf(t) * 60 + MinuteOf(t), m);
  }

  /** The fields of an instant built from a day and in-day fields in range are those fields. */
  lemma Compose(day: int, hour: int, minute: int, sub: int)
    requires 0 <= hour < 24 && 0 <= minute < 60 && 0 <= sub < MsPerMinute
    ensures var t := day * MsPerDay + hour * MsPerHour + minute * MsPerMinute + sub;
      DayOf(t) == day && HourOf(t) == hour && MinuteOf(t) == minute && SubMinuteOf(t) == sub
  {
    var inHour := minute * MsPerMinute + sub;
    var inDay := hour * MsPerHour + inHour;
    var t := day * MsPerDay + inDay;
    SplitDay(t, day, inDay);
    SplitHour(inDay, hour, inHour);
    SplitHour(t, day * 24 + hour, inHour);
    SplitMinute(inHour, minute, sub);
    SplitMinute(t, day * 1440 + hour * 60 + minute, sub);
  }

  /** `new Date(eventDate).setHours(eventTime.getHours(), eventTime.getMinutes())`:
      the day and the seconds and milliseconds come from `date`, only the hour
      and the minute from `time`. */
  function CombineDateTime(date: int, time: int): (t: int)
    ensures DayOf(t) == DayOf(date) && SubMinuteOf(t) == SubMinuteOf(date)
    ensures HourOf(t) == HourOf(time) && MinuteOf(t) == MinuteOf(time)
  {
    FieldBounds(date);
    FieldBounds(time);
    Compose(DayOf(date), HourOf(time), MinuteOf(time), SubMinuteOf(date));
    DayOf(date) * MsPerDay + HourOf(time) * MsPerHour + MinuteOf(time) * MsPerMinute + SubMinuteOf(date)
  }

  /** When date and time are the same instant, combining them gives that instant. */
  lemma CombineSameInstant(t: int)
    ensures CombineDateTime(t, t) == t
  {
    Decompose(t);
  }

  /** `isEventSoon`: the hours from now to the combined instant are positive
      and at most 24. */
  function IsEventSoon(date: int, time: int, now: int): (soon: bool)
    ensures soon <==> now < CombineDateTime(date, time) <= now + MsPerDay
  {
    var timeDiff := CombineDateTime(date, time) - now;
    var hoursDiff := timeDiff as real / 3600000.0;
    hoursDiff > 0.0 && hoursDiff <= 24.0
  }

  /** An event exactly 24 hours ahead is still soon; one millisecond later, or
      at the present instant, or in the past, it is not. */
  lemma ImminenceBoundaries(now: int)
    ensures IsEventSoon(now + MsPerDay, now + MsPerDay, now)
    ensures IsEventSoon(now + MsPerDay - MsPerMinute, now + MsPerDay - MsPerMinute, now)
    ensures !IsEventSoon(now + MsPerDay + 1, now + MsPerDay + 1, now)
    ensures !IsEventSoon(now, now, now)
    ensures !IsEventSoon(now - MsPerMinute, now - MsPerMinute, now)
  {
    CombineSameInstant(now + MsPerDay);
    CombineSameInstant(now + MsPerDay - MsPerMinute);
    CombineSameInstant(now + MsPerDay + 1);
    CombineSameInstant(now);
    CombineSameInstant(now - MsPerMinute);
  }

  /** The test both the filter and the scheduler apply to an event. */
  predicate Qualifies(e: Event, user: Coord, now: int, dist: Distance) {
    dist(user, e.location) <= NearbyDistanceKm && IsEventSoon(e.date, e.time, now)
  }

  /** `checkNearbyEvents`: the events within 5 km (inclusive) that are soon. */
  function CheckNearbyEvents(events: seq<Event>, user: Coord, now: int, dist: Distance): (nearby: seq<Event>)
    ensures |nearby| <= |events|
    ensures forall k :: 0 <= k < |nearby| ==> nearby[k] in events && Qualifies(nearby[k], user, now, dist)
    ensures forall k :: 0 <= k < |events| && Qualifies(events[k], user, now, dist) ==> events[k] in nearby
  {
    Lists.Filter(events, e => Qualifies(e, user, now, dist))
  }

  /** The filter keeps list order: the nearby events of a concatenation are the
      nearby events of each part, in turn, and a single event is kept exactly
      when it qualifies. */
  lemma CheckNearbyEventsKeepsOrder(a: seq<Event>, b: seq<Event>, e: Event, user: Coord, now: int, dist: Distance)
    ensures CheckNearbyEvents(a + b, user, now, dist)
         == CheckNearbyEvents(a, user, now, dist) + CheckNearbyEvents(b, user, now, dist)
    ensures CheckNearbyEvents([e], user, now, dist) == if Qualifies(e, user, now, dist) then [e] else []
  {
    Lists.FilterConcat(a, b, e => Qualifies(e, user, now, dist));
    Lists.FilterKeepsOrMisses(e, e => Qualifies(e, user, now, dist));
  }

  /** An event exactly 5 km away can qualify; one farther away never does. */
  lemma DistanceBoundary(e: Event, user: Coord, now: int, dist: Distance)
    requires IsEventSoon(e.date, e.time, now)
    ensures dist(user, e.location) == 5.0 ==> Qualifies(e, user, now, dist)
    ensures dist(user, e.location) > 5.0 ==> !Qualifies(e, user, now, dist)
  {
  }

  /** One alert shown to the user: the event and its distance. */
  datatype Alert = Alert(event: Event, distanceKm: real)

  /** What the service has done so far: the ids it has alerted about and the
      alerts it has shown, in order. */
  datatype Ledger = Ledger(notified: set<string>, alerts: seq<Alert>)

  function AlertIds(alerts: seq<Alert>): set<string> {
    set k | 0 <= k < |alerts| :: alerts[k].event.id
  }

  /** No two alerts are about the same event id, and the remembered ids are
      exactly the ids alerted about. */
  predicate Consistent(l: Ledger) {
    (forall i, j :: 0 <= i < j < |l.alerts| ==> l.alerts[i].event.id != l.alerts[j].event.id)
    && AlertIds(l.alerts) == l.notified
  }

  /** `scheduleEventNotification` on the ledger. */
  function Schedule(l: Ledger, e: Event, user: Coord, now: int, dist: Distance): (r: Ledger)
    ensures l.notified <= r.notified && r.notified <= l.notified + {e.id}
    ensures |l.alerts| <= |r.alerts| <= |l.alerts| + 1 && r.alerts[..|l.alerts|] == l.alerts
  {
    var distance := dist(user, e.location);
    if distance <= NearbyDistanceKm && IsEventSoon(e.date, e.time, now) then
      if e.id in l.notified then l
      else Ledger(l.notified + {e.id}, l.alerts + [Alert(e, distance)])
    else l
  }

  lemma AlertIdsAppend(alerts: seq<Alert>, a: Alert)
    ensures AlertIds(alerts + [a]) == AlertIds(alerts) + {a.event.id}
  {
    var s := alerts + [a];
    assert s[|alerts|] == a;
    forall id | id in AlertIds(alerts) ensures id in AlertIds(s) {
      var k :| 0 <= k < |alerts| && alerts[k].event.id == id;
      assert s[k] == alerts[k];
    }
  }

  /** Scheduling keeps the ledger consistent: no id is ever alerted twice. */
  lemma ScheduleKeepsConsistent(l: Ledger, e: Event, user: Coord, now: int, dist: Distance)
    requires Consistent(l)
    ensures Consistent(Schedule(l, e, user, now, dist))
  {
    var r := Schedule(l, e, user, now, dist);
    if r != l {
      var a := Alert(e, dist(user, e.location));
      AlertIdsAppend(l.alerts, a);
      assert r.alerts == l.alerts + [a];
      forall i, j | 0 <= i < j < |r.alerts| ensures r.alerts[i].event.id != r.alerts[j].event.id {
        if j == |l.alerts| {
          assert r.alerts[i] == l.alerts[i];
          assert l.alerts[i].event.id in AlertIds(l.alerts);
        }
      }
    }
  }

  /** The per-event outcomes: an id already alerted about, or an event that does
      not qualify, changes nothing; a qualifying new event adds its id and one
      alert at the end. Either way nothing is removed. */
  lemma ScheduleOutcomes(l: Ledger, e: Event, user: Coord, now: int, dist: Distance)
    ensures var r := Schedule(l, e, user, now, dist);
      && (e.id in l.notified ==> r == l)
      && (!Qualifies(e, user, now, dist) ==> r == l)
      && (Qualifies(e, user, now, dist) && e.id !in l.notified ==>
            r.notified == l.notified + {e.id} && r.alerts == l.alerts + [Alert(e, dist(user, e.location))])
      && l.notified <= r.notified && r.alerts[..|l.alerts|] == l.alerts
  {
  }

  /** The `for … of` loop of `checkAndNotify` on the ledger. */
  function NotifyAll(l: Ledger, events: seq<Event>, user: Coord, now: int, dist: Distance): Ledger
    decreases |events|
  {
    if events == [] then l else NotifyAll(Schedule(l, events[0], user, now, dist), events[1..], user, now, dist)
  }

  lemma {:induction false} NotifyAllKeepsConsistent(l: Ledger, events: seq<Event>, user: Coord, now: int, dist: Distance)
    requires Consistent(l)
    ensures Consistent(NotifyAll(l, events, user, now, dist))
    decreases |events|
  {
    if events != [] {
      ScheduleKeepsConsistent(l, events[0], user, now, dist);
      NotifyAllKeepsConsistent(Schedule(l, events[0], user, now, dist), events[1..], user, now, dist);
    }
  }

  /** A pass only adds: earlier ids stay remembered and earlier alerts stay in place. */
  lemma {:induction false} NotifyAllOnlyGrows(l: Ledger, events: seq<Event>, user: Coord, now: int, dist: Distance)
    ensures var r := NotifyAll(l, events, user, now, dist);
      l.notified <= r.notified && |l.alerts| <= |r.alerts| && r.alerts[..|l.alerts|] == l.alerts
    decreases |events|
  {
    if events != [] {
      var m := Schedule(l, events[0], user, now, dist);
      ScheduleOutcomes(l, events[0], user, now, dist);
      NotifyAllOnlyGrows(m, events[1..], user, now, dist);
      var r := NotifyAll(m, events[1..], user, now, dist);
      assert r.alerts[..|l.alerts|] == r.alerts[..|m.alerts|][..|l.alerts|];
    }
  }

  /** After a pass, the remembered ids are the earlier ones plus the ids of
      every qualifying event of the pass. */
  lemma {:induction false} NotifyAllRemembers(l: Ledger, events: seq<Event>, user: Coord, now: int, dist: Distance)
    ensures NotifyAll(l, events, user, now, dist).notified
         == l.notified + (set k | 0 <= k < |events| && Qualifies(events[k], user, now, dist) :: events[k].id)
    decreases |events|
  {
    if events != [] {
      var m := Schedule(l, events[0], user, now, dist);
      var rest := events[1..];
      NotifyAllRemembers(m, rest, user, now, dist);
      var all := set k | 0 <= k < |events| && Qualifies(events[k], user, now, dist) :: events[k].id;
      var tail := set k | 0 <= k < |rest| && Qualifies(rest[k], user, now, dist) :: rest[k].id;
      var head: set<string> := if Qualifies(events[0], user, now, dist) then {events[0].id} else {};
      assert m.notified == l.notified + head;
      forall id | id in all ensures id in head + tail {
        var k :| 0 <= k < |events| && Qualifies(events[k], user, now, dist) && events[k].id == id;
        if k > 0 { assert rest[k - 1] == events[k]; }
      }
      forall id | id in tail ensures id in all {
        var k :| 0 <= k < |rest| && Qualifies(rest[k], user, now, dist) && rest[k].id == id;
        assert events[k + 1] == rest[k];
      }
      assert all == head + tail;
    }
  }

  /** A pass over events whose ids are all remembered already changes nothing. */
  lemma {:induction false} NotifyAllWhenAllNotified(l: Ledger, events: seq<Event>, user: Coord, now: int, dist: Distance)
    requires forall k :: 0 <= k < |events| ==> events[k].id in l.notified
    ensures NotifyAll(l, events, user, now, dist) == l
    decreases |events|
  {
    if events != [] {
      assert Schedule(l, events[0], user, now, dist) == l;
      NotifyAllWhenAllNotified(l, events[1..], user, now, dist);
    }
  }

  /** Repeating a pass over the same nearby events at the same instant alerts
      about nothing more: the second pass leaves the ledger as the first left it. */
  lemma NotifyAllIdempotent(l: Ledger, events: seq<Event>, user: Coord, now: int, dist: Distance)
    ensures var once := NotifyAll(l, events, user, now, dist);
      NotifyAll(once, CheckNearbyEvents(events, user, now, dist), user, now, dist) == once
  {
    var once := NotifyAll(l, events, user, now, dist);
    var nearby := CheckNearbyEvents(events, user, now, dist);
    NotifyAllRemembers(l, events, user, now, dist);
    forall k | 0 <= k < |nearby| ensures nearby[k].id in once.notified {
      var j :| 0 <= j < |events| && events[j] == nearby[k];
    }
    NotifyAllWhenAllNotified(once, nearby, user, now, dist);
  }

  /** The alert service: `notifiedEvents` and the alerts it has shown. */
  class NotificationService {
    var notified: set<string>
    var alerts: seq<Alert>

    function State(): Ledger
      reads this
    {
      Ledger(notified, alerts)
    }

    ghost predicate Valid()
      reads this
    {
      Consistent(State())
    }

    constructor ()
      ensures Valid() && notified == {} && alerts == []
    {
      notified := {};
      alerts := [];
    }

    /** `scheduleEventNotification(event, userLocation)` at instant `now`. */
    method ScheduleEventNotification(event: Event, user: Coord, now: int, dist: Distance)
      requires Valid()
      modifies this
      ensures Valid()
      ensures State() == Schedule(old(State()), event, user, now, dist)
      ensures event.id in old(notified) || !Qualifies(event, user, now, dist) ==>
                notified == old(notified) && alerts == old(alerts)
      ensures Qualifies(event, user, now, dist) && event.id !in old(notified) ==>
                notified == old(notified) + {event.id}
                && alerts == old(alerts) + [Alert(event, dist(user, event.location))]
    {
      ScheduleKeepsConsistent(State(), event, user, now, dist);
      var distance := dist(user, event.location);
      if distance <= NearbyDistanceKm && IsEventSoon(event.date, event.time, now) {
        if event.id in notified {
          return;
        }
        notified := notified + {event.id};
        alerts := alerts + [Alert(event, distance)];
      }
    }
  }

  /** `checkAndNotify` at instant `now`: nothing without a location or without
      events; otherwise every nearby event is passed to the scheduler in order. */
  method CheckAndNotify(service: NotificationService, events: seq<Event>, userLocation: Option<Coord>,
                        now: int, dist: Distance)
    requires service.Valid()
    modifies service
    ensures service.Valid()
    ensures userLocation.None? || events == [] ==>
              service.notified == old(service.notified) && service.alerts == old(service.alerts)
    ensures userLocation.Some? && events != [] ==>
              service.State() == NotifyAll(old(service.State()),
                                           CheckNearbyEvents(events, userLocation.value, now, dist),
                                           userLocation.value, now, dist)
  {
    if userLocation.None? || |events| == 0 {
      return;
    }
    var user := userLocation.value;
    var nearby := CheckNearbyEvents(events, user, now, dist);
    var i := 0;
    while i < |nearby|
      invariant 0 <= i <= |nearby|
      invariant service.Valid()
      invariant NotifyAll(service.State(), nearby[i..], user, now, dist)
             == NotifyAll(old(service.State()), nearby, user, now, dist)
    {
      assert nearby[i..][0] == nearby[i] && nearby[i..][1..] == nearby[i + 1..];
      service.ScheduleEventNotification(nearby[i], user, now, dist);
      i := i + 1;
    }
  }
}
