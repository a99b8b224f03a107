/**
 * The stateful part of `CalendarTestDataGenerator`
 * (src/testing/calendarTestGenerator.js): the generator's map of mock
 * calendars, `createMockCalendar`, and `simulateSync`, which pushes busy
 * blocks into the very arrays it is reading.
 *
 * Every calendar's event array is an `EventList` object. `createMockCalendar`
 * stores the list it returns in the generator's map, the caller puts the same
 * list into the object handed to `simulateSync`, and the result's `calendars`
 * is a shallow copy of that object: all three see the blocks pushed during
 * the pass.
 */
module TestGenerator {
  import opened Wrappers
  import opened MockData
  import opened Mirroring

  /** A JavaScript array of events, shared by reference. */
  class EventList {
    var items: seq<Event>

    constructor (items: seq<Event>)
      ensures this.items == items
    {
      this.items := items;
    }

    /** `array.push(e)`. */
    method Push(e: Event)
      modifies this
      ensures items == old(items) + [e]
    {
      items := items + [e];
    }
  }

  /** The lists of an object whose values are event lists. */
  function Lists(calendars: seq<(string, EventList)>): set<EventList> {
    set p | p in calendars :: p.1
  }

  /** What the lists hold right now, calendar by calendar. */
  function Contents(calendars: seq<(string, EventList)>): (snap: Snapshot)
    reads Lists(calendars)
    ensures |snap| == |calendars|
    ensures forall i :: 0 <= i < |calendars| ==> snap[i] == (calendars[i].0, calendars[i].1.items)
  {
    if calendars == [] then []
    else
      var n := |calendars| - 1;
      assert Lists(calendars[..n]) <= Lists(calendars) by {
        forall p | p in calendars[..n] ensures p in calendars { }
      }
      Contents(calendars[..n]) + [(calendars[n].0, calendars[n].1.items)]
  }

  /** Different keys of the object hold different arrays. */
  predicate SeparateLists(calendars: seq<(string, EventList)>) {
    forall i, j :: 0 <= i < j < |calendars| ==> calendars[i].1 != calendars[j].1
  }

  /**
   * The loop of `MirrorInto` after the busy times `done`: the live list and
   * the results are those of mirroring `done` into the original list.
   */
  predicate Tracks(target: string, original: seq<Event>, done: seq<BusyTime>,
                   before: SyncResults, items: seq<Event>, results: SyncResults)
  {
    var m := Mirror(target, original, done);
    && items == m.events
    && results.calendars == before.calendars
    && results.conflicts == before.conflicts + m.conflicts
    && results.busyBlocksCreated == before.busyBlocksCreated + (|m.events| - |original|)
    && results.calendarsUpdated ==
         if |m.events| > |original| && target !in before.calendarsUpdated
         then before.calendarsUpdated + [target]
         else before.calendarsUpdated
  }

  /** Before the first busy time nothing has changed. */
  lemma TracksStart(target: string, original: seq<Event>, before: SyncResults)
    ensures Tracks(target, original, [], before, original, before)
  {
    assert before.conflicts + [] == before.conflicts;
  }

  /** One step of `MirrorOne` keeps `Tracks`. */
  lemma TracksStep(target: string, original: seq<Event>, others: seq<BusyTime>, j: nat, before: SyncResults,
                   items: seq<Event>, prior: SyncResults, items': seq<Event>, results: SyncResults)
    requires j < |others|
    requires Tracks(target, original, others[..j], before, items, prior)
    requires HasConflict(others[j], items) ==>
      items' == items && results == prior.(conflicts := prior.conflicts + [ConflictFor(target, others[j])])
    requires !HasConflict(others[j], items) ==>
      && items' == items + [BusyBlock(others[j])]
      && results == prior.(busyBlocksCreated := prior.busyBlocksCreated + 1,
                           calendarsUpdated := if target in prior.calendarsUpdated then prior.calendarsUpdated
                                               else prior.calendarsUpdated + [target])
    ensures Tracks(target, original, others[..j + 1], before, items', results)
  {
    var done := others[..j];
    var done' := others[..j + 1];
    assert done' == done + [others[j]];
    if HasConflict(others[j], items) {
      TracksConflict(target, original, done, others[j], done', before, items, prior);
    } else {
      TracksBlock(target, original, done, others[j], done', before, items, prior);
    }
  }

  /** A busy time that overlaps the live list is reported as a conflict. */
  lemma TracksConflict(target: string, original: seq<Event>, done: seq<BusyTime>, bt: BusyTime, done': seq<BusyTime>,
                       before: SyncResults,
                       items: seq<Event>, prior: SyncResults)
    requires Tracks(target, original, done, before, items, prior) && HasConflict(bt, items)
    requires done' == done + [bt]
    ensures Tracks(target, original, done', before, items,
                   prior.(conflicts := prior.conflicts + [ConflictFor(target, bt)]))
  {
    MirrorStep(target, original, done, bt);
  }

  /** A busy time that overlaps nothing in the live list becomes a block. */
  lemma TracksBlock(target: string, original: seq<Event>, done: seq<BusyTime>, bt: BusyTime, done': seq<BusyTime>,
                       before: SyncResults,
                    items: seq<Event>, prior: SyncResults)
    requires Tracks(target, original, done, before, items, prior) && !HasConflict(bt, items)
    requires done' == done + [bt]
    ensures Tracks(target, original, done', before, items + [BusyBlock(bt)],
                   prior.(busyBlocksCreated := prior.busyBlocksCreated + 1,
                          calendarsUpdated := if target in prior.calendarsUpdated then prior.calendarsUpdated
                                              else prior.calendarsUpdated + [target]))
  {
    MirrorStep(target, original, done, bt);
    MirrorShape(target, original, done);
  }

  /** `syncResults`: `calendars` shares its arrays with the argument. */
  datatype SyncResults = SyncResults(
    calendars: seq<(string, EventList)>,
    busyBlocksCreated: nat,
    conflicts: seq<Conflict>,
    calendarsUpdated: seq<string>)

  class CalendarTestDataGenerator {
    var mockCalendars: map<string, EventList>

    constructor ()
      ensures mockCalendars == map[]
    {
      mockCalendars := map[];
    }

    /**
     * `createMockCalendar(calendarId, events, date)`: a fresh list holding one
     * event per entry, stored under `calendarId` (replacing any earlier list)
     * and returned. When a time slot does not parse, `toISOString` throws
     * before the map is touched: None, and nothing changes.
     */
    method CreateMockCalendar(calendarId: string, events: seq<ScenarioEvent>, day: int) returns (r: Option<EventList>)
      modifies this
      ensures !AllSlotsParse(events, day) ==> r.None? && mockCalendars == old(mockCalendars)
      ensures AllSlotsParse(events, day) ==>
        && r.Some? && fresh(r.value) && MockEvents(calendarId, events, day).Some?
        && r.value.items == MockEvents(calendarId, events, day).value
        && mockCalendars == old(mockCalendars)[calendarId := r.value]
    {
      var made := MockEvents(calendarId, events, day);
      MockEventsDefined(calendarId, events, day);
      if made.None? {
        return None;
      }
      var list := new EventList(made.value);
      mockCalendars := mockCalendars[calendarId := list];
      return Some(list);
    }

    /**
     * `simulateSync(mockCalendars)`. The busy times of all calendars are
     * collected and sorted by start; then, target by target, every busy time
     * from another calendar either is reported as a conflict, when it
     * overlaps something already in the target's live list, or is pushed
     * into that list as a busy block. The lists end up holding the pass's
     * lists, and the counts are the pass's counts.
     */
    method SimulateSync(calendars: seq<(string, EventList)>) returns (results: SyncResults)
      requires SeparateLists(calendars)
      modifies Lists(calendars)
      ensures var p := SyncPass(old(Contents(calendars)));
        && results.calendars == calendars
        && results.busyBlocksCreated == p.busyBlocksCreated
        && results.conflicts == p.conflicts
        && results.calendarsUpdated == p.calendarsUpdated
        && forall k :: 0 <= k < |calendars| ==> calendars[k].1.items == p.lists[k]
    {
      ghost var snap := Contents(calendars);
      var all := CollectAll(calendars);
      all := SortByStart(all);

      results := SyncTargets(calendars, snap, all);
    }

    /** The second loop of `simulateSync`: every target in turn, in key order. */
    method SyncTargets(calendars: seq<(string, EventList)>, ghost snap: Snapshot, all: seq<BusyTime>)
      returns (results: SyncResults)
      requires SeparateLists(calendars) && snap == Contents(calendars)
      modifies Lists(calendars)
      ensures var p := PassUpTo(snap, all, |snap|);
        && results.calendars == calendars
        && results.busyBlocksCreated == p.busyBlocksCreated
        && results.conflicts == p.conflicts
        && results.calendarsUpdated == p.calendarsUpdated
        && forall k :: 0 <= k < |calendars| ==> calendars[k].1.items == p.lists[k]
    {
      results := SyncResults(calendars, 0, [], []);
      var t := 0;
      while t < |calendars|
        invariant 0 <= t <= |calendars|
        invariant results.calendars == calendars
        invariant var p := PassUpTo(snap, all, t);
          && results.busyBlocksCreated == p.busyBlocksCreated
          && results.conflicts == p.conflicts
          && results.calendarsUpdated == p.calendarsUpdated
        invariant forall k :: 0 <= k < t ==>
          calendars[k].1.items == Mirror(snap[k].0, snap[k].1, Foreign(all, snap[k].0)).events
        invariant forall k :: t <= k < |calendars| ==> calendars[k].1.items == snap[k].1
      {
        var list := calendars[t].1;
        assert list in Lists(calendars) by { assert calendars[t] in calendars; }
        label BeforeTarget:
        results := SyncTarget(calendars, snap, all, t, results);
        forall k | 0 <= k < |calendars| && k != t
          ensures calendars[k].1.items == old@BeforeTarget(calendars[k].1.items)
        {
          assert calendars[k].1 != list;
        }
        t := t + 1;
      }
      forall k | 0 <= k < |calendars| ensures calendars[k].1.items == PassUpTo(snap, all, |snap|).lists[k] {
        PassUpToList(snap, all, |snap|, k);
      }
    }

    /** One round of the outer loop of `simulateSync`: target `t` gets its busy blocks. */
    method SyncTarget(calendars: seq<(string, EventList)>, ghost snap: Snapshot, all: seq<BusyTime>,
                      t: nat, before: SyncResults) returns (results: SyncResults)
      requires |snap| == |calendars| && t < |calendars|
      requires snap[t] == (calendars[t].0, calendars[t].1.items)
      requires var p := PassUpTo(snap, all, t);
        && before.busyBlocksCreated == p.busyBlocksCreated
        && before.conflicts == p.conflicts
        && before.calendarsUpdated == p.calendarsUpdated
      modifies calendars[t].1
      ensures var p := PassUpTo(snap, all, t + 1);
        && results.calendars == before.calendars
        && results.busyBlocksCreated == p.busyBlocksCreated
        && results.conflicts == p.conflicts
        && results.calendarsUpdated == p.calendarsUpdated
        && calendars[t].1.items == Mirror(snap[t].0, snap[t].1, Foreign(all, snap[t].0)).events
    {
      var target := calendars[t].0;
      results := MirrorInto(calendars[t].1, target, Foreign(all, target), before);
    }

    /** The first loop of `simulateSync`: every event of every calendar, calendar by calendar. */
    method CollectAll(calendars: seq<(string, EventList)>) returns (all: seq<BusyTime>)
      ensures all == CollectBusyTimes(Contents(calendars))
    {
      ghost var snap := Contents(calendars);
      all := [];
      var c := 0;
      while c < |calendars|
        invariant 0 <= c <= |calendars|
        invariant all == CollectBusyTimes(snap[..c])
        invariant snap == Contents(calendars)
      {
        all := CollectFrom(all, calendars[c].0, calendars[c].1.items);
        assert snap[..c + 1][..c] == snap[..c];
        c := c + 1;
      }
      assert snap[..c] == snap;
    }

    /** The inner loop of the first loop: one calendar's events, in order, as busy times. */
    method CollectFrom(collected: seq<BusyTime>, calendarId: string, events: seq<Event>) returns (all: seq<BusyTime>)
      ensures all == collected + BusyTimesOf(calendarId, events)
    {
      all := collected;
      var i := 0;
      while i < |events|
        invariant 0 <= i <= |events|
        invariant all == collected + BusyTimesOf(calendarId, events[..i])
      {
        assert events[..i + 1] == events[..i] + [events[i]];
        all := all + [BusyTime(calendarId, events[i].start, events[i].end, events[i])];
        i := i + 1;
      }
      assert events[..i] == events;
    }

    /**
     * The inner loop for one target: each busy time in turn is tested against
     * the target's live list, which holds the blocks already pushed for the
     * busy times before it; a conflict is reported, or a block is pushed,
     * counted, and the target recorded as updated on its first block.
     */
    method MirrorInto(list: EventList, target: string, others: seq<BusyTime>, before: SyncResults)
      returns (results: SyncResults)
      modifies list
      ensures Tracks(target, old(list.items), others, before, list.items, results)
    {
      ghost var original := list.items;
      results := before;
      TracksStart(target, original, before);
      var j := 0;
      while j < |others|
        invariant 0 <= j <= |others|
        invariant Tracks(target, original, others[..j], before, list.items, results)
      {
        var busyTime := others[j];
        ghost var items := list.items;
        ghost var prior := results;
        results := MirrorOne(list, target, busyTime, results);
        TracksStep(target, original, others, j, before, items, prior, list.items, results);
        j := j + 1;
      }
      assert others[..j] == others;
    }

    /**
     * One busy time against the target's live list: a conflict when it
     * overlaps an event already there, otherwise a pushed and counted block,
     * the target being recorded as updated on its first block.
     */
    method MirrorOne(list: EventList, target: string, busyTime: BusyTime, before: SyncResults)
      returns (results: SyncResults)
      modifies list
      ensures HasConflict(busyTime, old(list.items)) ==>
        && list.items == old(list.items)
        && results == before.(conflicts := before.conflicts + [ConflictFor(target, busyTime)])
      ensures !HasConflict(busyTime, old(list.items)) ==>
        && list.items == old(list.items) + [BusyBlock(busyTime)]
        && results == before.(busyBlocksCreated := before.busyBlocksCreated + 1,
                              calendarsUpdated := if target in before.calendarsUpdated then before.calendarsUpdated
                                                  else before.calendarsUpdated + [target])
    {
      results := before;
      if HasConflict(busyTime, list.items) {
        results := results.(conflicts := results.conflicts + [ConflictFor(target, busyTime)]);
      } else {
        list.Push(BusyBlock(busyTime));
        var updated := results.calendarsUpdated;
        if target !in updated {
          updated := updated + [target];
        }
        results := results.(busyBlocksCreated := results.busyBlocksCreated + 1, calendarsUpdated := updated);
      }
    }
  }
}
