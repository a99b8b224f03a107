/**
 * The test generator's calendar events and the two helpers that build them
 * from a scenario: `parseTimeSlot` and the pure part of `createMockCalendar`
 * (src/testing/calendarTestGenerator.js).
 *
 * An instant is an integer number of minutes; a base date is represented by
 * the minute of its local midnight, `day`.
 */
module MockData {
  import opened Wrappers
  import opened Text

  /** One entry of a scenario's calendar: "HH:MM" strings, a title and a location. */
  datatype ScenarioEvent = ScenarioEvent(start: string, end: string, title: string, location: string)

  /**
   * A calendar event as the generator stores it. Mock events carry no
   * `isQuickMeetingEmpty` flag (false here) and no body (None).
   */
  datatype Event = Event(
    id: string,
    subject: string,
    start: int,
    end: int,
    location: string,
    showAs: string,
    sensitivity: string,
    quickMeetingEmpty: bool,
    body: Option<string>)

  /** Minutes in a day. */
  const MinutesPerDay := 24 * 60

  /**
   * A `Date` holds at most 8.64e15 milliseconds either side of the epoch,
   * that is 144,000,000,000 minutes; past that its time value is NaN.
   */
  const MaxDateMinutes := 144_000_000_000

  predicate InDateRange(t: int) {
    -MaxDateMinutes <= t <= MaxDateMinutes
  }

  /** A base day whose every minute a `Date` can hold. */
  predicate ValidDay(day: int) {
    InDateRange(day) && InDateRange(day + MinutesPerDay - 1)
  }

  /**
   * `parseTimeSlot(timeStr, baseDate)`: split at ':' and set the hours and
   * minutes of the base day, seconds and milliseconds zero. A missing minutes
   * part, or a part that is not a number, gives an invalid date (None).
   * Hours or minutes past their range roll over into later days, which
   * `day + 60 * h + m` does; an instant past the range a `Date` can hold is
   * an invalid date too.
   */
  function ParseTimeSlot(timeStr: string, day: int): Option<int> {
    var parts := Split(timeStr, ':');
    if |parts| < 2 then None
    else
      match (JsNumber(parts[0]), JsNumber(parts[1]))
      case (Some(hours), Some(minutes)) =>
        var t := day + 60 * hours + minutes;
        if InDateRange(t) then Some(t) else None
      case _ => None
  }

  /** The text "HH:MM" for a time of day. */
  function ClockText(hours: nat, minutes: nat): string
    requires hours < 24 && minutes < 60
  {
    TwoDigits(hours) + ":" + TwoDigits(minutes)
  }

  /** "HH:MM" parses to the instant HH:MM of the base day. */
  lemma ParseClockText(hours: nat, minutes: nat, day: int)
    requires hours < 24 && minutes < 60 && ValidDay(day)
    ensures ParseTimeSlot(ClockText(hours, minutes), day) == Some(day + 60 * hours + minutes)
    ensures day <= day + 60 * hours + minutes < day + MinutesPerDay
  {
    var h, m := TwoDigits(hours), TwoDigits(minutes);
    assert ':' !in h by { assert AllDigits(h); }
    assert ':' !in m by { assert AllDigits(m); }
    SplitAt(h, ':', m);
    assert ClockText(hours, minutes) == h + [':'] + m;
    TwoDigitsValue(hours);
    TwoDigitsValue(minutes);
  }

  /** A time slot with no ':' has no minutes part: the date is invalid. */
  lemma ParseWithoutColon(timeStr: string, day: int)
    requires ':' !in timeStr
    ensures ParseTimeSlot(timeStr, day) == None
  {
    assert Split(timeStr, ':') == [timeStr];
  }

  /** Hours that carry the instant past the range of a `Date` give an invalid date. */
  lemma ParseOutOfRange(hours: nat, minutes: nat, day: int)
    requires minutes < 60 && !InDateRange(day + 60 * hours + minutes)
    ensures ParseTimeSlot(NatToString(hours) + ":" + TwoDigits(minutes), day) == None
  {
    var h, m := NatToString(hours), TwoDigits(minutes);
    assert ':' !in h by { assert AllDigits(h); }
    assert ':' !in m by { assert AllDigits(m); }
    SplitAt(h, ':', m);
    assert h + ":" + m == h + [':'] + m;
    NatToStringRoundTrip(hours);
    TwoDigitsValue(minutes);
  }

  /** The id `${calendarId}-event-${index}`. */
  function MockEventId(calendarId: string, index: nat): string {
    calendarId + "-event-" + NatToString(index)
  }

  /** Within one calendar, mock event ids are distinct. */
  lemma MockEventIdsDistinct(calendarId: string, i: nat, j: nat)
    requires MockEventId(calendarId, i) == MockEventId(calendarId, j)
    ensures i == j
  {
    var p := calendarId + "-event-";
    assert NatToString(i) == MockEventId(calendarId, i)[|p|..];
    assert NatToString(j) == MockEventId(calendarId, j)[|p|..];
    NatToStringInjective(i, j);
  }

  function MockEvent(calendarId: string, index: nat, e: ScenarioEvent, start: int, end: int): Event {
    Event(MockEventId(calendarId, index), e.title, start, end, e.location, "busy", "normal", false, None)
  }

  /** Both time slots of every scenario entry parse. */
  predicate AllSlotsParse(events: seq<ScenarioEvent>, day: int) {
    forall i :: 0 <= i < |events| ==>
      ParseTimeSlot(events[i].start, day).Some? && ParseTimeSlot(events[i].end, day).Some?
  }

  /**
   * The `events.map((event, index) => ...)` of `createMockCalendar`: one event
   * per entry, in entry order. An unparsable slot makes `toISOString` throw,
   * so the whole call fails (None).
   */
  function MockEvents(calendarId: string, events: seq<ScenarioEvent>, day: int): Option<seq<Event>> {
    if events == [] then Some([])
    else
      var n := |events| - 1;
      var last := events[n];
      var prev := MockEvents(calendarId, events[..n], day);
      var start := ParseTimeSlot(last.start, day);
      var end := ParseTimeSlot(last.end, day);
      if prev.Some? && start.Some? && end.Some? then
        Some(prev.value + [MockEvent(calendarId, n, last, start.value, end.value)])
      else
        None
  }

  /** The call succeeds exactly when every slot parses. */
  lemma {:induction false} MockEventsDefined(calendarId: string, events: seq<ScenarioEvent>, day: int)
    ensures MockEvents(calendarId, events, day).Some? <==> AllSlotsParse(events, day)
    decreases |events|
  {
    if events != [] {
      MockEventsDefined(calendarId, events[..|events| - 1], day);
      AllSlotsParsePrefix(events, day);
    }
  }

  /** One event per entry. */
  lemma {:induction false} MockEventsLength(calendarId: string, events: seq<ScenarioEvent>, day: int)
    requires MockEvents(calendarId, events, day).Some?
    ensures |MockEvents(calendarId, events, day).value| == |events|
    decreases |events|
  {
    if events != [] {
      MockEventsLength(calendarId, events[..|events| - 1], day);
    }
  }

  /**
   * Entry `i` becomes event `i`: id `<calendarId>-event-<i>`, the entry's
   * title and location, its parsed slots, shown as busy and of normal
   * sensitivity.
   */
  lemma {:induction false} MockEventsField(calendarId: string, events: seq<ScenarioEvent>, day: int, i: nat)
    requires MockEvents(calendarId, events, day).Some? && i < |events|
    ensures |MockEvents(calendarId, events, day).value| == |events|
    ensures var e := MockEvents(calendarId, events, day).value[i];
      && e.id == MockEventId(calendarId, i)
      && e.subject == events[i].title
      && e.location == events[i].location
      && Some(e.start) == ParseTimeSlot(events[i].start, day)
      && Some(e.end) == ParseTimeSlot(events[i].end, day)
      && e.showAs == "busy"
      && e.sensitivity == "normal"
    decreases |events|
  {
    var n := |events| - 1;
    var prefix := events[..n];
    MockEventsLength(calendarId, events, day);
    MockEventsLength(calendarId, prefix, day);
    if i < n {
      MockEventsField(calendarId, prefix, day, i);
      assert prefix[i] == events[i];
    }
  }

  lemma AllSlotsParsePrefix(events: seq<ScenarioEvent>, day: int)
    requires events != []
    ensures AllSlotsParse(events, day) <==>
      && AllSlotsParse(events[..|events| - 1], day)
      && ParseTimeSlot(events[|events| - 1].start, day).Some?
      && ParseTimeSlot(events[|events| - 1].end, day).Some?
  {
    var n := |events| - 1;
    assert forall i :: 0 <= i < n ==> events[..n][i] == events[i];
  }
}
