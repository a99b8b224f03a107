/**
 * The "Conflict Resolution Day" scenario of `generateDayScenario`
 * (src/testing/calendarTestGenerator.js), turned into mock calendars and run
 * through the mirroring pass.
 */
module Scenarios {
  import opened Wrappers
  import opened MockData
  import opened Mirroring

  function CompanyOneEntries(): seq<ScenarioEvent> {
    [ ScenarioEvent("10:00", "11:00", "Important Meeting", "HQ"),
      ScenarioEvent("14:00", "15:00", "Client Call", "Phone") ]
  }

  function CompanyTwoEntries(): seq<ScenarioEvent> {
    [ ScenarioEvent("10:30", "11:30", "Overlapping Meeting", "Branch Office"),
      ScenarioEvent("14:15", "14:45", "Quick Check-in", "Online") ]
  }

  /** The calendars `createMockCalendar` builds for the scenario on base day `day`. */
  function ConflictDayCalendars(day: int): Snapshot {
    [ ("work-company1",
        [ MockEvent("work-company1", 0, CompanyOneEntries()[0], day + 600, day + 660),
          MockEvent("work-company1", 1, CompanyOneEntries()[1], day + 840, day + 900) ]),
      ("work-company2",
        [ MockEvent("work-company2", 0, CompanyTwoEntries()[0], day + 630, day + 690),
          MockEvent("work-company2", 1, CompanyTwoEntries()[1], day + 855, day + 885) ]),
      ("personal", []) ]
  }

  lemma MockEventsStep(calendarId: string, events: seq<ScenarioEvent>, e: ScenarioEvent, day: int, start: int, end: int)
    requires MockEvents(calendarId, events, day).Some?
    requires ParseTimeSlot(e.start, day) == Some(start) && ParseTimeSlot(e.end, day) == Some(end)
    ensures MockEvents(calendarId, events + [e], day) ==
      Some(MockEvents(calendarId, events, day).value + [MockEvent(calendarId, |events|, e, start, end)])
  {
    assert (events + [e])[..|events|] == events;
  }

  /** `createMockCalendar` on a two-entry list whose slots parse. */
  lemma MockEventsOfTwo(calendarId: string, e0: ScenarioEvent, e1: ScenarioEvent, day: int,
                        s0: int, t0: int, s1: int, t1: int)
    requires ParseTimeSlot(e0.start, day) == Some(s0) && ParseTimeSlot(e0.end, day) == Some(t0)
    requires ParseTimeSlot(e1.start, day) == Some(s1) && ParseTimeSlot(e1.end, day) == Some(t1)
    ensures MockEvents(calendarId, [e0, e1], day) ==
      Some([MockEvent(calendarId, 0, e0, s0, t0), MockEvent(calendarId, 1, e1, s1, t1)])
  {
    assert MockEvents(calendarId, [], day) == Some([]);
    MockEventsStep(calendarId, [], e0, day, s0, t0);
    assert [] + [e0] == [e0];
    MockEventsStep(calendarId, [e0], e1, day, s1, t1);
    assert [e0] + [e1] == [e0, e1];
    var m0, m1 := MockEvent(calendarId, 0, e0, s0, t0), MockEvent(calendarId, 1, e1, s1, t1);
    assert [] + [m0] == [m0] && [m0] + [m1] == [m0, m1];
  }

  // Each scenario time slot parses to its minute of the base day.

  lemma Slot1000(day: int)
    requires ValidDay(day)
    ensures ParseTimeSlot("10:00", day) == Some(day + 600)
  {
    ParseClockText(10, 0, day);
    assert ClockText(10, 0) == "10:00";
  }

  lemma Slot1100(day: int)
    requires ValidDay(day)
    ensures ParseTimeSlot("11:00", day) == Some(day + 660)
  {
    ParseClockText(11, 0, day);
    assert ClockText(11, 0) == "11:00";
  }

  lemma Slot1400(day: int)
    requires ValidDay(day)
    ensures ParseTimeSlot("14:00", day) == Some(day + 840)
  {
    ParseClockText(14, 0, day);
    assert ClockText(14, 0) == "14:00";
  }

  lemma Slot1500(day: int)
    requires ValidDay(day)
    ensures ParseTimeSlot("15:00", day) == Some(day + 900)
  {
    ParseClockText(15, 0, day);
    assert ClockText(15, 0) == "15:00";
  }

  lemma Slot1030(day: int)
    requires ValidDay(day)
    ensures ParseTimeSlot("10:30", day) == Some(day + 630)
  {
    ParseClockText(10, 30, day);
    assert ClockText(10, 30) == "10:30";
  }

  lemma Slot1130(day: int)
    requires ValidDay(day)
    ensures ParseTimeSlot("11:30", day) == Some(day + 690)
  {
    ParseClockText(11, 30, day);
    assert ClockText(11, 30) == "11:30";
  }

  lemma Slot1415(day: int)
    requires ValidDay(day)
    ensures ParseTimeSlot("14:15", day) == Some(day + 855)
  {
    ParseClockText(14, 15, day);
    assert ClockText(14, 15) == "14:15";
  }

  lemma Slot1445(day: int)
    requires ValidDay(day)
    ensures ParseTimeSlot("14:45", day) == Some(day + 885)
  {
    ParseClockText(14, 45, day);
    assert ClockText(14, 45) == "14:45";
  }

  lemma CompanyOneSlots(day: int)
    requires ValidDay(day)
    ensures var e := CompanyOneEntries();
      && ParseTimeSlot(e[0].start, day) == Some(day + 600) && ParseTimeSlot(e[0].end, day) == Some(day + 660)
      && ParseTimeSlot(e[1].start, day) == Some(day + 840) && ParseTimeSlot(e[1].end, day) == Some(day + 900)
  {
    Slot1000(day); Slot1100(day); Slot1400(day); Slot1500(day);
  }

  lemma CompanyTwoSlots(day: int)
    requires ValidDay(day)
    ensures var e := CompanyTwoEntries();
      && ParseTimeSlot(e[0].start, day) == Some(day + 630) && ParseTimeSlot(e[0].end, day) == Some(day + 690)
      && ParseTimeSlot(e[1].start, day) == Some(day + 855) && ParseTimeSlot(e[1].end, day) == Some(day + 885)
  {
    Slot1030(day); Slot1130(day); Slot1415(day); Slot1445(day);
  }

  lemma CompanyOneMockCalendar(day: int)
    requires ValidDay(day)
    ensures MockEvents("work-company1", CompanyOneEntries(), day) == Some(ConflictDayCalendars(day)[0].1)
  {
    var e := CompanyOneEntries();
    CompanyOneSlots(day);
    MockEventsOfTwo("work-company1", e[0], e[1], day, day + 600, day + 660, day + 840, day + 900);
  }

  lemma CompanyTwoMockCalendar(day: int)
    requires ValidDay(day)
    ensures MockEvents("work-company2", CompanyTwoEntries(), day) == Some(ConflictDayCalendars(day)[1].1)
  {
    var e := CompanyTwoEntries();
    CompanyTwoSlots(day);
    MockEventsOfTwo("work-company2", e[0], e[1], day, day + 630, day + 690, day + 855, day + 885);
  }

  /** The scenario's "HH:MM" entries become exactly those calendars. */
  lemma ConflictDayMockCalendars(day: int)
    requires ValidDay(day)
    ensures MockEvents("work-company1", CompanyOneEntries(), day) == Some(ConflictDayCalendars(day)[0].1)
    ensures MockEvents("work-company2", CompanyTwoEntries(), day) == Some(ConflictDayCalendars(day)[1].1)
    ensures MockEvents("personal", [], day) == Some(ConflictDayCalendars(day)[2].1)
  {
    CompanyOneMockCalendar(day);
    CompanyTwoMockCalendar(day);
  }

  // ----- the pass on four busy times from two calendars, in general -----

  lemma SortStep(s: seq<BusyTime>, x: BusyTime)
    ensures SortByStart(s + [x]) == InsertByStart(x, SortByStart(s))
  {
    assert (s + [x])[..|s|] == s;
  }

  /** One more calendar collected. */
  lemma CollectStep(snap: Snapshot, i: nat)
    requires i < |snap|
    ensures CollectBusyTimes(snap[..i + 1]) == CollectBusyTimes(snap[..i]) + BusyTimesOf(snap[i].0, snap[i].1)
  {
    assert snap[..i + 1][..i] == snap[..i];
  }

  /** Two calendars with two events each and an empty third. */
  lemma CollectTwoByTwo(snap: Snapshot, a: BusyTime, b: BusyTime, c: BusyTime, d: BusyTime)
    requires |snap| == 3 && |snap[0].1| == 2 && |snap[1].1| == 2 && snap[2].1 == []
    requires a == BusyTime(snap[0].0, snap[0].1[0].start, snap[0].1[0].end, snap[0].1[0])
    requires b == BusyTime(snap[0].0, snap[0].1[1].start, snap[0].1[1].end, snap[0].1[1])
    requires c == BusyTime(snap[1].0, snap[1].1[0].start, snap[1].1[0].end, snap[1].1[0])
    requires d == BusyTime(snap[1].0, snap[1].1[1].start, snap[1].1[1].end, snap[1].1[1])
    ensures CollectBusyTimes(snap) == [a, b, c, d]
  {
    var one := BusyTimesOf(snap[0].0, snap[0].1);
    var two := BusyTimesOf(snap[1].0, snap[1].1);
    assert one == [a, b] && two == [c, d];
    CollectStep(snap, 0);
    CollectStep(snap, 1);
    CollectStep(snap, 2);
    assert snap[..0] == [] && snap[..3] == snap;
    assert BusyTimesOf(snap[2].0, snap[2].1) == [];
    assert [] + one + two + [] == [a, b, c, d];
  }

  lemma InsertFront(x: BusyTime, s: seq<BusyTime>)
    requires s != [] && x.start < s[0].start
    ensures InsertByStart(x, s) == [x] + s
  {
  }

  lemma InsertBehind(x: BusyTime, s: seq<BusyTime>)
    requires s != [] && s[0].start <= x.start
    ensures InsertByStart(x, s) == [s[0]] + InsertByStart(x, s[1..])
  {
  }

  /** A busy time starting after the last one is inserted at the end. */
  lemma {:induction false} InsertAtEnd(d: BusyTime, s: seq<BusyTime>)
    requires SortedByStart(s) && s != [] && s[|s| - 1].start < d.start
    ensures InsertByStart(d, s) == s + [d]
    decreases |s|
  {
    var rest := s[1..];
    assert s == [s[0]] + rest;
    if rest == [] {
      assert InsertByStart(d, rest) == [d];
    } else {
      assert SortedByStart(rest) && rest[|rest| - 1] == s[|s| - 1];
      InsertAtEnd(d, rest);
      assert [s[0]] + (rest + [d]) == s + [d];
    }
    InsertBehind(d, s);
  }

  lemma SortTwo(s: seq<BusyTime>, a: BusyTime, b: BusyTime)
    requires s == [a, b] && a.start < b.start
    ensures SortByStart(s) == s
  {
    var one := s[..1];
    assert one == [a] && s == one + [b];
    SortStep([], a);
    assert [] + [a] == one;
    SortStep(one, b);
    InsertAtEnd(b, one);
  }

  lemma SortThree(s: seq<BusyTime>, a: BusyTime, b: BusyTime, c: BusyTime)
    requires s == [a, b, c] && a.start < c.start < b.start
    ensures SortByStart(s) == [a, c, b]
  {
    var two := s[..2];
    assert two == [a, b] && s == two + [c];
    SortTwo(two, a, b);
    SortStep(two, c);
    InsertBehind(c, two);
    assert two[1..] == [b];
    InsertFront(c, [b]);
  }

  lemma SortFour(s: seq<BusyTime>, a: BusyTime, b: BusyTime, c: BusyTime, d: BusyTime)
    requires s == [a, b, c, d] && a.start < c.start < b.start < d.start
    ensures SortByStart(s) == [a, c, b, d]
  {
    var three := s[..3];
    assert s == three + [d];
    SortThree(three, a, b, c);
    SortStep(three, d);
    var sorted := [a, c, b];
    assert sorted[|sorted| - 1] == b;
    InsertAtEnd(d, sorted);
  }

  /** A target with two events, each overlapped by one foreign busy time. */
  lemma MirrorBothConflict(target: string, events: seq<Event>, x: BusyTime, y: BusyTime)
    requires |events| == 2 && Overlaps(x, events[0]) && Overlaps(y, events[1])
    ensures Mirror(target, events, [x, y]) == Mirrored(events, [ConflictFor(target, x), ConflictFor(target, y)])
  {
    MirrorStep(target, events, [], x);
    assert [] + [x] == [x];
    assert HasConflict(x, events);
    MirrorStep(target, events, [x], y);
    assert [x] + [y] == [x, y];
    assert HasConflict(y, events);
  }

  /** An empty target: a becomes a block, then c overlaps it. */
  lemma MirrorIntoEmptyFirstHalf(target: string, a: BusyTime, c: BusyTime)
    requires Overlaps(c, BusyBlock(a))
    ensures Mirror(target, [], [a, c]) == Mirrored([BusyBlock(a)], [ConflictFor(target, c)])
  {
    var ba, cc := BusyBlock(a), ConflictFor(target, c);
    MirrorStep(target, [], [], a);
    assert [] + [a] == [a] && [] + [ba] == [ba];
    assert !HasConflict(a, []);
    assert Mirror(target, [], [a]) == Mirrored([ba], []);
    MirrorStep(target, [], [a], c);
    assert [a] + [c] == [a, c] && [] + [cc] == [cc];
    assert Overlaps(c, [ba][0]);
  }

  /** Then b, clear of a's block, becomes a block, and d overlaps it. */
  lemma MirrorIntoEmptySecondHalf(target: string, ac: seq<BusyTime>, a: BusyTime, b: BusyTime, d: BusyTime, cc: Conflict)
    requires Mirror(target, [], ac) == Mirrored([BusyBlock(a)], [cc])
    requires !Overlaps(b, BusyBlock(a)) && Overlaps(d, BusyBlock(b))
    ensures Mirror(target, [], ac + [b, d]) == Mirrored([BusyBlock(a), BusyBlock(b)], [cc, ConflictFor(target, d)])
  {
    var ba, bb, cd := BusyBlock(a), BusyBlock(b), ConflictFor(target, d);
    MirrorStep(target, [], ac, b);
    assert [ba] + [bb] == [ba, bb];
    assert !HasConflict(b, [ba]) by {
      forall i | 0 <= i < 1 ensures !Overlaps(b, [ba][i]) {
        assert [ba][i] == ba;
      }
    }
    assert Mirror(target, [], ac + [b]) == Mirrored([ba, bb], [cc]);
    MirrorStep(target, [], ac + [b], d);
    assert ac + [b] + [d] == ac + [b, d] && [cc] + [cd] == [cc, cd];
    assert Overlaps(d, [ba, bb][1]);
  }

  /** An empty target: a, then c over a's block, then b, then d over b's block. */
  lemma MirrorIntoEmpty(target: string, a: BusyTime, c: BusyTime, b: BusyTime, d: BusyTime)
    requires Overlaps(c, BusyBlock(a)) && !Overlaps(b, BusyBlock(a)) && Overlaps(d, BusyBlock(b))
    ensures Mirror(target, [], [a, c, b, d]) ==
      Mirrored([BusyBlock(a), BusyBlock(b)], [ConflictFor(target, c), ConflictFor(target, d)])
  {
    MirrorIntoEmptyFirstHalf(target, a, c);
    MirrorIntoEmptySecondHalf(target, [a, c], a, b, d, ConflictFor(target, c));
    assert [a, c] + [b, d] == [a, c, b, d];
  }



  // ----- the scenario itself -----

  function BusyA(day: int): BusyTime { BusyTime("work-company1", day + 600, day + 660, ConflictDayCalendars(day)[0].1[0]) }
  function BusyB(day: int): BusyTime { BusyTime("work-company1", day + 840, day + 900, ConflictDayCalendars(day)[0].1[1]) }
  function BusyC(day: int): BusyTime { BusyTime("work-company2", day + 630, day + 690, ConflictDayCalendars(day)[1].1[0]) }
  function BusyD(day: int): BusyTime { BusyTime("work-company2", day + 855, day + 885, ConflictDayCalendars(day)[1].1[1]) }

  lemma DistinctIds()
    ensures "work-company1" != "work-company2"
    ensures "work-company1" != "personal" && "work-company2" != "personal"
  {
    assert "work-company1"[12] != "work-company2"[12];
  }

  /** Sorted by start: 10:00, 10:30, 14:00, 14:15. */
  lemma ConflictDaySorted(day: int)
    ensures SortedBusyTimes(ConflictDayCalendars(day)) == [BusyA(day), BusyC(day), BusyB(day), BusyD(day)]
  {
    CollectTwoByTwo(ConflictDayCalendars(day), BusyA(day), BusyB(day), BusyC(day), BusyD(day));
    SortFour(CollectBusyTimes(ConflictDayCalendars(day)), BusyA(day), BusyB(day), BusyC(day), BusyD(day));
  }

  lemma ForeignStep(all: seq<BusyTime>, target: string)
    requires all != []
    ensures Foreign(all, target) ==
      (if all[0].calendarId != target then [all[0]] else []) + Foreign(all[1..], target)
  {
  }

  /** The busy time if it is foreign to `target`, else nothing. */
  function Kept(x: BusyTime, target: string): seq<BusyTime> {
    if x.calendarId != target then [x] else []
  }

  lemma ForeignOfOne(s: seq<BusyTime>, d: BusyTime, t: string)
    requires s == [d]
    ensures Foreign(s, t) == Kept(d, t)
  {
    ForeignStep(s, t);
    assert s[1..] == [];
  }

  lemma ForeignOfTwo(s: seq<BusyTime>, b: BusyTime, d: BusyTime, t: string)
    requires s == [b, d]
    ensures Foreign(s, t) == Kept(b, t) + Kept(d, t)
  {
    ForeignOfOne(s[1..], d, t);
    ForeignStep(s, t);
  }

  lemma ForeignOfThree(s: seq<BusyTime>, c: BusyTime, b: BusyTime, d: BusyTime, t: string)
    requires s == [c, b, d]
    ensures Foreign(s, t) == Kept(c, t) + Kept(b, t) + Kept(d, t)
  {
    ForeignOfTwo(s[1..], b, d, t);
    ForeignStep(s, t);
  }

  lemma ForeignOfFour(s: seq<BusyTime>, a: BusyTime, c: BusyTime, b: BusyTime, d: BusyTime, t: string)
    requires s == [a, c, b, d]
    ensures Foreign(s, t) == Kept(a, t) + Kept(c, t) + Kept(b, t) + Kept(d, t)
  {
    ForeignOfThree(s[1..], c, b, d, t);
    ForeignStep(s, t);
  }

  /** Busy times a, b from calendar `p` and c, d from calendar `q`, seen by p, q and a third calendar r. */
  lemma ForeignByCalendar(all: seq<BusyTime>, a: BusyTime, c: BusyTime, b: BusyTime, d: BusyTime, p: string, q: string, r: string)
    requires all == [a, c, b, d]
    requires a.calendarId == p && b.calendarId == p && c.calendarId == q && d.calendarId == q
    requires p != q && r != p && r != q
    ensures Foreign(all, p) == [c, d] && Foreign(all, q) == [a, b] && Foreign(all, r) == all
  {
    ForeignOfFour(all, a, c, b, d, p);
    assert Kept(a, p) == [] && Kept(b, p) == [] && Kept(c, p) == [c] && Kept(d, p) == [d];
    assert [] + [c] + [] + [d] == [c, d];
    ForeignOfFour(all, a, c, b, d, q);
    assert Kept(a, q) == [a] && Kept(b, q) == [b] && Kept(c, q) == [] && Kept(d, q) == [];
    assert [a] + [] + [b] + [] == [a, b];
    ForeignOfFour(all, a, c, b, d, r);
    assert Kept(a, r) == [a] && Kept(b, r) == [b] && Kept(c, r) == [c] && Kept(d, r) == [d];
    assert [a] + [c] + [b] + [d] == all;
  }

  /** One more target in the outer loop. */
  lemma PassNext(snap: Snapshot, all: seq<BusyTime>, n: nat, prev: PassResult, m: Mirrored)
    requires 0 < n <= |snap|
    requires PassUpTo(snap, all, n - 1) == prev
    requires Mirror(snap[n - 1].0, snap[n - 1].1, Foreign(all, snap[n - 1].0)) == m
    ensures var added := |m.events| - |snap[n - 1].1|;
      PassUpTo(snap, all, n) ==
        PassResult(prev.lists + [m.events], prev.busyBlocksCreated + added, prev.conflicts + m.conflicts,
                   if added > 0 && snap[n - 1].0 !in prev.calendarsUpdated then prev.calendarsUpdated + [snap[n - 1].0]
                   else prev.calendarsUpdated)
  {
  }

  lemma PassOverOne(snap: Snapshot, all: seq<BusyTime>, m0: Mirrored)
    requires 1 <= |snap|
    requires Mirror(snap[0].0, snap[0].1, Foreign(all, snap[0].0)) == m0
    requires |m0.events| == |snap[0].1|
    ensures PassUpTo(snap, all, 1) == PassResult([m0.events], 0, m0.conflicts, [])
  {
    PassNext(snap, all, 1, PassResult([], 0, [], []), m0);
    assert [] + [m0.events] == [m0.events] && [] + m0.conflicts == m0.conflicts;
  }

  lemma PassOverTwo(snap: Snapshot, all: seq<BusyTime>, m0: Mirrored, m1: Mirrored)
    requires 2 <= |snap|
    requires Mirror(snap[0].0, snap[0].1, Foreign(all, snap[0].0)) == m0
    requires Mirror(snap[1].0, snap[1].1, Foreign(all, snap[1].0)) == m1
    requires |m0.events| == |snap[0].1| && |m1.events| == |snap[1].1|
    ensures PassUpTo(snap, all, 2) == PassResult([m0.events, m1.events], 0, m0.conflicts + m1.conflicts, [])
  {
    PassOverOne(snap, all, m0);
    PassNext(snap, all, 2, PassResult([m0.events], 0, m0.conflicts, []), m1);
    assert [m0.events] + [m1.events] == [m0.events, m1.events];
  }

  /** The pass over three targets where only the last one receives blocks. */
  lemma PassOverThree(snap: Snapshot, all: seq<BusyTime>, m0: Mirrored, m1: Mirrored, m2: Mirrored)
    requires |snap| == 3
    requires Mirror(snap[0].0, snap[0].1, Foreign(all, snap[0].0)) == m0
    requires Mirror(snap[1].0, snap[1].1, Foreign(all, snap[1].0)) == m1
    requires Mirror(snap[2].0, snap[2].1, Foreign(all, snap[2].0)) == m2
    requires |m0.events| == |snap[0].1| && |m1.events| == |snap[1].1| && |snap[2].1| < |m2.events|
    ensures PassUpTo(snap, all, 3) ==
      PassResult([m0.events, m1.events, m2.events], |m2.events| - |snap[2].1|,
                 m0.conflicts + m1.conflicts + m2.conflicts, [snap[2].0])
  {
    PassOverTwo(snap, all, m0, m1);
    PassNext(snap, all, 3, PassResult([m0.events, m1.events], 0, m0.conflicts + m1.conflicts, []), m2);
    assert [m0.events, m1.events] + [m2.events] == [m0.events, m1.events, m2.events];
    assert [] + [snap[2].0] == [snap[2].0];
  }

  /**
   * Three calendars p, q, r: p holds two events, each overlapped by one of q's
   * busy times c, d; q holds two events overlapped by p's busy times a, b; r
   * is empty. Sorted by start the busy times run a, c, b, d, and in r the
   * block made for a conflicts with c, the one made for b with d.
   */
  predicate ThreeCalendarSetting(snap: Snapshot, a: BusyTime, c: BusyTime, b: BusyTime, d: BusyTime) {
    && |snap| == 3 && |snap[0].1| == 2 && |snap[1].1| == 2 && snap[2].1 == []
    && snap[0].0 != snap[1].0 && snap[2].0 != snap[0].0 && snap[2].0 != snap[1].0
    && a.calendarId == snap[0].0 && b.calendarId == snap[0].0
    && c.calendarId == snap[1].0 && d.calendarId == snap[1].0
    && SortedBusyTimes(snap) == [a, c, b, d]
    && Overlaps(c, snap[0].1[0]) && Overlaps(d, snap[0].1[1])
    && Overlaps(a, snap[1].1[0]) && Overlaps(b, snap[1].1[1])
    && Overlaps(c, BusyBlock(a)) && !Overlaps(b, BusyBlock(a)) && Overlaps(d, BusyBlock(b))
  }

  lemma ThreeCalendarMirrors(snap: Snapshot, a: BusyTime, c: BusyTime, b: BusyTime, d: BusyTime)
    requires ThreeCalendarSetting(snap, a, c, b, d)
    ensures var all := SortedBusyTimes(snap);
      && Mirror(snap[0].0, snap[0].1, Foreign(all, snap[0].0))
           == Mirrored(snap[0].1, [ConflictFor(snap[0].0, c), ConflictFor(snap[0].0, d)])
      && Mirror(snap[1].0, snap[1].1, Foreign(all, snap[1].0))
           == Mirrored(snap[1].1, [ConflictFor(snap[1].0, a), ConflictFor(snap[1].0, b)])
      && Mirror(snap[2].0, snap[2].1, Foreign(all, snap[2].0))
           == Mirrored([BusyBlock(a), BusyBlock(b)], [ConflictFor(snap[2].0, c), ConflictFor(snap[2].0, d)])
  {
    var p, q, r := snap[0].0, snap[1].0, snap[2].0;
    ForeignByCalendar(SortedBusyTimes(snap), a, c, b, d, p, q, r);
    MirrorBothConflict(p, snap[0].1, c, d);
    MirrorBothConflict(q, snap[1].1, a, b);
    MirrorIntoEmpty(r, a, c, b, d);
  }

  lemma ThreeCalendarPass(snap: Snapshot, a: BusyTime, c: BusyTime, b: BusyTime, d: BusyTime)
    requires ThreeCalendarSetting(snap, a, c, b, d)
    ensures SyncPass(snap) == PassResult(
      [snap[0].1, snap[1].1, [BusyBlock(a), BusyBlock(b)]], 2,
      [ConflictFor(snap[0].0, c), ConflictFor(snap[0].0, d), ConflictFor(snap[1].0, a),
       ConflictFor(snap[1].0, b), ConflictFor(snap[2].0, c), ConflictFor(snap[2].0, d)],
      [snap[2].0])
  {
    var p, q, r := snap[0].0, snap[1].0, snap[2].0;
    var m0 := Mirrored(snap[0].1, [ConflictFor(p, c), ConflictFor(p, d)]);
    var m1 := Mirrored(snap[1].1, [ConflictFor(q, a), ConflictFor(q, b)]);
    var m2 := Mirrored([BusyBlock(a), BusyBlock(b)], [ConflictFor(r, c), ConflictFor(r, d)]);
    ThreeCalendarMirrors(snap, a, c, b, d);
    PassOverThree(snap, SortedBusyTimes(snap), m0, m1, m2);
    ThreePairs(ConflictFor(p, c), ConflictFor(p, d), ConflictFor(q, a), ConflictFor(q, b), ConflictFor(r, c), ConflictFor(r, d));
  }

  lemma ThreePairs<T>(x0: T, x1: T, x2: T, x3: T, x4: T, x5: T)
    ensures [x0, x1] + [x2, x3] + [x4, x5] == [x0, x1, x2, x3, x4, x5]
  {
  }

  /** The overlaps that decide the scenario, in minutes of the day. */
  lemma ConflictDayOverlaps(day: int)
    ensures var snap := ConflictDayCalendars(day);
      && Overlaps(BusyC(day), snap[0].1[0]) && Overlaps(BusyD(day), snap[0].1[1])
      && Overlaps(BusyA(day), snap[1].1[0]) && Overlaps(BusyB(day), snap[1].1[1])
      && Overlaps(BusyC(day), BusyBlock(BusyA(day))) && !Overlaps(BusyB(day), BusyBlock(BusyA(day)))
      && Overlaps(BusyD(day), BusyBlock(BusyB(day)))
  {
  }

  /**
   * work-company1 and work-company2 each get two conflicts and no block;
   * personal gets the blocks 10:00-11:00 and 14:00-15:00 and two conflicts
   * (10:30-11:30 and 14:15-14:45) against those blocks: six conflicts, two
   * blocks, one calendar updated.
   */
  lemma ConflictDayOutcome(day: int)
    ensures var p := SyncPass(ConflictDayCalendars(day));
      && p.busyBlocksCreated == 2
      && |p.conflicts| == 6
      && p.calendarsUpdated == ["personal"]
      && p.lists[0] == ConflictDayCalendars(day)[0].1
      && p.lists[1] == ConflictDayCalendars(day)[1].1
      && p.lists[2] == [BusyBlock(BusyA(day)), BusyBlock(BusyB(day))]
      && p.lists[2][0].start == day + 600 && p.lists[2][0].end == day + 660
      && p.lists[2][1].start == day + 840 && p.lists[2][1].end == day + 900
      && p.conflicts[..4] == [Conflict(day + 630, day + 690, "work-company1", "work-company2"),
                              Conflict(day + 855, day + 885, "work-company1", "work-company2"),
                              Conflict(day + 600, day + 660, "work-company2", "work-company1"),
                              Conflict(day + 840, day + 900, "work-company2", "work-company1")]
      && p.conflicts[4] == Conflict(day + 630, day + 690, "personal", "work-company2")
      && p.conflicts[5] == Conflict(day + 855, day + 885, "personal", "work-company2")
  {
    DistinctIds();
    ConflictDaySorted(day);
    ConflictDayOverlaps(day);
    ThreeCalendarPass(ConflictDayCalendars(day), BusyA(day), BusyC(day), BusyB(day), BusyD(day));
  }
}
