/**
 * What `simulateSync` (src/testing/calendarTestGenerator.js) computes, as
 * functions over a snapshot of the calendars, and what is proved about it.
 *
 * A snapshot lists the calendars in the order `Object.entries` gives them,
 * each with its event list as it was when the pass started. The pass
 * collects every event of every calendar as a busy time, sorts them by start,
 * and then, target by target, mirrors each busy time of the other calendars
 * into the target: a conflict when it overlaps an event already in the
 * target's list, otherwise a "Busy" block appended to that same list.
 */
module Mirroring {
  import opened Wrappers
  import opened MockData

  type Snapshot = seq<(string, seq<Event>)>

  /** An entry of `allBusyTimes`. */
  datatype BusyTime = BusyTime(calendarId: string, start: int, end: int, originalEvent: Event)

  /**
   * A conflict report. The source keeps the time as locale text and a
   * description; the model keeps the instants and the two calendar ids the
   * description is made of.
   */
  datatype Conflict = Conflict(start: int, end: int, calendarId: string, sourceCalendarId: string)

  /** The test of `events.some(...)`: half-open intervals that overlap. */
  predicate IntervalsOverlap(start: int, end: int, otherStart: int, otherEnd: int) {
    start < otherEnd && end > otherStart
  }

  predicate Overlaps(bt: BusyTime, e: Event) {
    IntervalsOverlap(bt.start, bt.end, e.start, e.end)
  }

  predicate HasConflict(bt: BusyTime, events: seq<Event>) {
    exists i :: 0 <= i < |events| && Overlaps(bt, events[i])
  }

  /** The same test between two events of one calendar. */
  predicate EventsOverlap(a: Event, b: Event) {
    IntervalsOverlap(a.start, a.end, b.start, b.end)
  }

  /**
   * For non-empty intervals, the overlap test holds exactly when some minute
   * lies in both half-open intervals; in particular intervals that only touch
   * at an endpoint never conflict.
   */
  predicate Within(t: int, start: int, end: int) {
    start <= t < end
  }

  lemma OverlapsIffSharedMinute(bt: BusyTime, e: Event)
    requires bt.start < bt.end && e.start < e.end
    ensures Overlaps(bt, e) <==> exists t :: Within(t, bt.start, bt.end) && Within(t, e.start, e.end)
  {
    if Overlaps(bt, e) {
      var t := if bt.start < e.start then e.start else bt.start;
      assert Within(t, bt.start, bt.end) && Within(t, e.start, e.end);
    }
  }

  lemma TouchingNeverConflicts(bt: BusyTime, e: Event)
    requires bt.start < bt.end && e.start < e.end
    requires bt.end == e.start || e.end == bt.start
    ensures !Overlaps(bt, e)
    ensures !HasConflict(bt, [e])
  {
    OverlapsIffSharedMinute(bt, e);
  }

  /** The block created for a busy time: only start and end are copied. */
  function BusyBlock(bt: BusyTime): (e: Event)
    ensures IsBusyBlock(e) && e.start == bt.start && e.end == bt.end
  {
    Event("sync-busy", "Busy", bt.start, bt.end, "", "busy", "private", true,
          Some("Automatically created busy time block"))
  }

  predicate IsBusyBlock(e: Event) {
    && e.subject == "Busy"
    && e.showAs == "busy"
    && e.sensitivity == "private"
    && e.location == ""
    && e.quickMeetingEmpty
    && e.body == Some("Automatically created busy time block")
  }

  // ----- collecting and sorting busy times -----

  /** The busy times of one calendar's events, in list order. */
  function BusyTimesOf(calendarId: string, events: seq<Event>): (r: seq<BusyTime>)
    ensures |r| == |events|
    ensures forall i :: 0 <= i < |r| ==>
      r[i] == BusyTime(calendarId, events[i].start, events[i].end, events[i])
  {
    if events == [] then []
    else BusyTimesOf(calendarId, events[..|events| - 1]) + [BusyTime(calendarId, events[|events| - 1].start, events[|events| - 1].end, events[|events| - 1])]
  }

  /** `allBusyTimes` before sorting: calendar by calendar, event by event. */
  function CollectBusyTimes(snap: Snapshot): (r: seq<BusyTime>)
  {
    if snap == [] then []
    else CollectBusyTimes(snap[..|snap| - 1]) + BusyTimesOf(snap[|snap| - 1].0, snap[|snap| - 1].1)
  }

  predicate SortedByStart(s: seq<BusyTime>) {
    forall i, j :: 0 <= i < j < |s| ==> s[i].start <= s[j].start
  }

  predicate StartsNoEarlier(s: seq<BusyTime>, bound: int) {
    forall i :: 0 <= i < |s| ==> bound <= s[i].start
  }

  lemma SortedCons(a: BusyTime, s: seq<BusyTime>)
    requires SortedByStart(s) && StartsNoEarlier(s, a.start)
    ensures SortedByStart([a] + s)
  {
    var r := [a] + s;
    forall i, j | 0 <= i < j < |r| ensures r[i].start <= r[j].start {
      if i > 0 {
        assert r[i] == s[i - 1] && r[j] == s[j - 1];
      } else {
        assert r[j] == s[j - 1];
      }
    }
  }

  /** Insert after every element that does not start later (keeps ties in order). */
  function InsertByStart(x: BusyTime, s: seq<BusyTime>): seq<BusyTime> {
    if s == [] then [x]
    else if x.start < s[0].start then [x] + s
    else [s[0]] + InsertByStart(x, s[1..])
  }

  /** Inserting into a sorted sequence keeps it sorted, and keeps every lower bound `x` respects. */
  lemma {:induction false} InsertSorted(x: BusyTime, s: seq<BusyTime>)
    requires SortedByStart(s)
    ensures SortedByStart(InsertByStart(x, s))
    ensures forall bound :: StartsNoEarlier(s, bound) && bound <= x.start ==> StartsNoEarlier(InsertByStart(x, s), bound)
    decreases |s|
  {
    if s != [] {
      if x.start < s[0].start {
        SortedCons(x, s);
      } else {
        var rest := InsertByStart(x, s[1..]);
        InsertSorted(x, s[1..]);
        assert StartsNoEarlier(s[1..], s[0].start);
        SortedCons(s[0], rest);
        forall bound | StartsNoEarlier(s, bound) && bound <= x.start
          ensures StartsNoEarlier([s[0]] + rest, bound)
        {
          assert StartsNoEarlier(s[1..], bound);
        }
      }
    }
  }

  /** Inserting adds exactly `x`. */
  lemma {:induction false} InsertPermutes(x: BusyTime, s: seq<BusyTime>)
    ensures multiset(InsertByStart(x, s)) == multiset(s) + multiset{x}
    decreases |s|
  {
    if s != [] && x.start >= s[0].start {
      InsertPermutes(x, s[1..]);
      assert s == [s[0]] + s[1..];
    }
  }

  /**
   * `allBusyTimes.sort((a, b) => a.start - b.start)`. The ECMAScript sort is
   * stable; this insertion sort is too.
   */
  function SortByStart(s: seq<BusyTime>): seq<BusyTime> {
    if s == [] then []
    else InsertByStart(s[|s| - 1], SortByStart(s[..|s| - 1]))
  }

  /** The sort orders by start. */
  lemma {:induction false} SortSorted(s: seq<BusyTime>)
    ensures SortedByStart(SortByStart(s))
    decreases |s|
  {
    if s != [] {
      SortSorted(s[..|s| - 1]);
      InsertSorted(s[|s| - 1], SortByStart(s[..|s| - 1]));
    }
  }

  /** The sort is a permutation. */
  lemma {:induction false} SortPermutes(s: seq<BusyTime>)
    ensures multiset(SortByStart(s)) == multiset(s)
    decreases |s|
  {
    if s != [] {
      var n := |s| - 1;
      SortPermutes(s[..n]);
      InsertPermutes(s[n], SortByStart(s[..n]));
      assert s == s[..n] + [s[n]];
    }
  }

  /** `allBusyTimes.filter(bt => bt.calendarId !== targetCalendarId)`. */
  function Foreign(all: seq<BusyTime>, target: string): (r: seq<BusyTime>)
    ensures forall i :: 0 <= i < |r| ==> r[i].calendarId != target
  {
    if all == [] then []
    else if all[0].calendarId != target then [all[0]] + Foreign(all[1..], target)
    else Foreign(all[1..], target)
  }

  lemma {:induction false} ForeignSorted(all: seq<BusyTime>, target: string, bound: int)
    requires SortedByStart(all) && StartsNoEarlier(all, bound)
    ensures SortedByStart(Foreign(all, target)) && StartsNoEarlier(Foreign(all, target), bound)
    decreases |all|
  {
    if all != [] {
      assert StartsNoEarlier(all[1..], all[0].start);
      ForeignSorted(all[1..], target, all[0].start);
      if all[0].calendarId != target {
        SortedCons(all[0], Foreign(all[1..], target));
      }
    }
  }

  /** Foreign busy times are handed to the target in non-decreasing start order. */
  lemma ForeignInStartOrder(snap: Snapshot, target: string)
    ensures SortedByStart(Foreign(SortByStart(CollectBusyTimes(snap)), target))
  {
    var all := SortByStart(CollectBusyTimes(snap));
    SortSorted(CollectBusyTimes(snap));
    if all != [] {
      ForeignSorted(all, target, all[0].start);
    }
  }

  // ----- mirroring into one target -----

  datatype Mirrored = Mirrored(events: seq<Event>, conflicts: seq<Conflict>)

  function ConflictFor(target: string, bt: BusyTime): Conflict {
    Conflict(bt.start, bt.end, target, bt.calendarId)
  }

  /**
   * The inner loop of the pass for one target: each busy time in turn is
   * tested against the target's live list, which already holds the blocks
   * created for the busy times before it.
   */
  function Mirror(target: string, events: seq<Event>, foreign: seq<BusyTime>): Mirrored
    decreases |foreign|
  {
    if foreign == [] then Mirrored(events, [])
    else
      var prev := Mirror(target, events, foreign[..|foreign| - 1]);
      var bt := foreign[|foreign| - 1];
      if HasConflict(bt, prev.events) then Mirrored(prev.events, prev.conflicts + [ConflictFor(target, bt)])
      else Mirrored(prev.events + [BusyBlock(bt)], prev.conflicts)
  }

  /**
   * The target's list only grows, by busy blocks; every busy time gives a
   * block or a conflict, and every conflict names the target.
   */
  lemma {:induction false} MirrorShape(target: string, events: seq<Event>, foreign: seq<BusyTime>)
    ensures var r := Mirror(target, events, foreign);
      && |events| <= |r.events| && r.events[..|events|] == events
      && |r.events| - |events| + |r.conflicts| == |foreign|
      && (forall k :: |events| <= k < |r.events| ==> IsBusyBlock(r.events[k]))
      && (forall i :: 0 <= i < |r.conflicts| ==> r.conflicts[i].calendarId == target)
    decreases |foreign|
  {
    if foreign != [] {
      var prev := Mirror(target, events, foreign[..|foreign| - 1]);
      MirrorShape(target, events, foreign[..|foreign| - 1]);
      var bt := foreign[|foreign| - 1];
      if !HasConflict(bt, prev.events) {
        assert (prev.events + [BusyBlock(bt)])[..|events|] == prev.events[..|events|];
      }
    }
  }

  /** One more busy time: tested against the list as the earlier ones left it. */
  lemma MirrorStep(target: string, events: seq<Event>, foreign: seq<BusyTime>, bt: BusyTime)
    ensures var prev := Mirror(target, events, foreign);
      Mirror(target, events, foreign + [bt]) ==
        if HasConflict(bt, prev.events) then Mirrored(prev.events, prev.conflicts + [ConflictFor(target, bt)])
        else Mirrored(prev.events + [BusyBlock(bt)], prev.conflicts)
  {
    assert (foreign + [bt])[..|foreign|] == foreign;
  }

  /** Every created block carries the times of one of the mirrored busy times. */
  lemma {:induction false} MirrorBlockSource(target: string, events: seq<Event>, foreign: seq<BusyTime>, k: nat)
    requires |events| <= k < |Mirror(target, events, foreign).events|
    ensures exists j :: 0 <= j < |foreign| && Mirror(target, events, foreign).events[k] == BusyBlock(foreign[j])
    decreases |foreign|
  {
    var n := |foreign| - 1;
    var prev := Mirror(target, events, foreign[..n]);
    var r := Mirror(target, events, foreign);
    if k < |prev.events| {
      MirrorBlockSource(target, events, foreign[..n], k);
      var j :| 0 <= j < n && prev.events[k] == BusyBlock(foreign[..n][j]);
      assert r.events[k] == prev.events[k];
      assert foreign[..n][j] == foreign[j];
    } else {
      assert r.events[k] == BusyBlock(foreign[n]);
    }
  }

  /** Every conflict is reported for one of the mirrored busy times. */
  lemma {:induction false} MirrorConflictSource(target: string, events: seq<Event>, foreign: seq<BusyTime>, i: nat)
    requires i < |Mirror(target, events, foreign).conflicts|
    ensures exists j :: 0 <= j < |foreign| && Mirror(target, events, foreign).conflicts[i] == ConflictFor(target, foreign[j])
    decreases |foreign|
  {
    var n := |foreign| - 1;
    var prev := Mirror(target, events, foreign[..n]);
    var r := Mirror(target, events, foreign);
    if i < |prev.conflicts| {
      MirrorConflictSource(target, events, foreign[..n], i);
      var j :| 0 <= j < n && prev.conflicts[i] == ConflictFor(target, foreign[..n][j]);
      assert r.conflicts[i] == prev.conflicts[i];
      assert foreign[..n][j] == foreign[j];
    } else {
      assert r.conflicts[i] == ConflictFor(target, foreign[n]);
    }
  }

  /**
   * No created block overlaps any other entry of the target's list, whether a
   * pre-existing event or another created block.
   */
  lemma {:induction false} MirrorBlockDisjoint(target: string, events: seq<Event>, foreign: seq<BusyTime>, j: nat, k: nat)
    requires |events| <= j < |Mirror(target, events, foreign).events|
    requires k < |Mirror(target, events, foreign).events| && j != k
    ensures !EventsOverlap(Mirror(target, events, foreign).events[j], Mirror(target, events, foreign).events[k])
    decreases |foreign|
  {
    var n := |foreign| - 1;
    var prev := Mirror(target, events, foreign[..n]);
    var r := Mirror(target, events, foreign);
    var m := |prev.events|;
    if j < m && k < m {
      MirrorBlockDisjoint(target, events, foreign[..n], j, k);
      assert r.events[j] == prev.events[j] && r.events[k] == prev.events[k];
    } else {
      var bt := foreign[n];
      assert !HasConflict(bt, prev.events) && r.events == prev.events + [BusyBlock(bt)];
      if j == m {
        assert !Overlaps(bt, prev.events[k]);
      } else {
        assert !Overlaps(bt, prev.events[j]);
      }
    }
  }

  // ----- the whole pass -----

  datatype PassResult = PassResult(
    lists: seq<seq<Event>>,
    busyBlocksCreated: nat,
    conflicts: seq<Conflict>,
    calendarsUpdated: seq<string>)

  /** The outer loop of the pass over the first `n` targets. */
  function PassUpTo(snap: Snapshot, all: seq<BusyTime>, n: nat): (p: PassResult)
    requires n <= |snap|
    ensures |p.lists| == n
  {
    if n == 0 then PassResult([], 0, [], [])
    else
      var prev := PassUpTo(snap, all, n - 1);
      var target := snap[n - 1].0;
      var m := Mirror(target, snap[n - 1].1, Foreign(all, target));
      MirrorShape(target, snap[n - 1].1, Foreign(all, target));
      var added := |m.events| - |snap[n - 1].1|;
      PassResult(
        prev.lists + [m.events],
        prev.busyBlocksCreated + added,
        prev.conflicts + m.conflicts,
        if added > 0 && target !in prev.calendarsUpdated then prev.calendarsUpdated + [target]
        else prev.calendarsUpdated)
  }

  /** Target `k`'s list is mirrored on its own; later targets do not touch it. */
  lemma {:induction false} PassUpToList(snap: Snapshot, all: seq<BusyTime>, n: nat, k: nat)
    requires k < n <= |snap|
    ensures PassUpTo(snap, all, n).lists[k] == Mirror(snap[k].0, snap[k].1, Foreign(all, snap[k].0)).events
  {
    if k < n - 1 {
      PassUpToList(snap, all, n - 1, k);
    }
  }

  function SortedBusyTimes(snap: Snapshot): seq<BusyTime> {
    SortByStart(CollectBusyTimes(snap))
  }

  function SyncPass(snap: Snapshot): PassResult {
    PassUpTo(snap, SortedBusyTimes(snap), |snap|)
  }

  // ----- counting -----

  /** The number of events in calendars other than `target`. */
  function ForeignEventCount(snap: Snapshot, target: string): nat {
    if snap == [] then 0
    else ForeignEventCount(snap[..|snap| - 1], target)
         + (if snap[|snap| - 1].0 != target then |snap[|snap| - 1].1| else 0)
  }

  /** Σ over the first `n` targets of the events in the other calendars. */
  function PairCount(snap: Snapshot, n: nat): nat
    requires n <= |snap|
  {
    if n == 0 then 0 else PairCount(snap, n - 1) + ForeignEventCount(snap, snap[n - 1].0)
  }

  /** A target is offered exactly the busy times of the other calendars. */
  lemma {:induction false} ForeignMembers(all: seq<BusyTime>, target: string)
    ensures forall x :: x in Foreign(all, target) <==> x in all && x.calendarId != target
    decreases |all|
  {
    if all != [] {
      ForeignMembers(all[1..], target);
      assert all == [all[0]] + all[1..];
    }
  }

  /** Filtering a sequence that starts with `x`. */
  lemma ForeignCons(x: BusyTime, s: seq<BusyTime>, target: string)
    ensures Foreign([x] + s, target) == (if x.calendarId != target then [x] else []) + Foreign(s, target)
  {
    assert ([x] + s)[0] == x;
    assert ([x] + s)[1..] == s;
  }

  lemma {:induction false} ForeignAppend(a: seq<BusyTime>, b: seq<BusyTime>, target: string)
    ensures Foreign(a + b, target) == Foreign(a, target) + Foreign(b, target)
    decreases |a|
  {
    if a == [] {
      assert a + b == b;
    } else {
      var head := if a[0].calendarId != target then [a[0]] else [];
      assert a == [a[0]] + a[1..];
      assert a + b == [a[0]] + (a[1..] + b);
      ForeignCons(a[0], a[1..], target);
      ForeignCons(a[0], a[1..] + b, target);
      ForeignAppend(a[1..], b, target);
      assert head + (Foreign(a[1..], target) + Foreign(b, target)) == (head + Foreign(a[1..], target)) + Foreign(b, target);
    }
  }

  lemma {:induction false} ForeignInsert(x: BusyTime, s: seq<BusyTime>, target: string)
    ensures |Foreign(InsertByStart(x, s), target)| == |Foreign(s, target)| + (if x.calendarId != target then 1 else 0)
    decreases |s|
  {
    if s != [] {
      if x.start < s[0].start {
        assert InsertByStart(x, s) == [x] + s;
        ForeignCons(x, s, target);
      } else {
        var rest := InsertByStart(x, s[1..]);
        assert InsertByStart(x, s) == [s[0]] + rest;
        ForeignInsert(x, s[1..], target);
        ForeignCons(s[0], rest, target);
        assert s == [s[0]] + s[1..];
        ForeignCons(s[0], s[1..], target);
      }
    }
  }

  lemma {:induction false} ForeignSortCount(s: seq<BusyTime>, target: string)
    ensures |Foreign(SortByStart(s), target)| == |Foreign(s, target)|
    decreases |s|
  {
    if s != [] {
      var n := |s| - 1;
      ForeignSortCount(s[..n], target);
      assert s == s[..n] + [s[n]];
      ForeignSortStep(s[..n], s[n], target);
    }
  }

  /** Sorting one more busy time in adds it to the count exactly when it is foreign. */
  lemma ForeignSortStep(prefix: seq<BusyTime>, x: BusyTime, target: string)
    requires |Foreign(SortByStart(prefix), target)| == |Foreign(prefix, target)|
    ensures |Foreign(SortByStart(prefix + [x]), target)| == |Foreign(prefix + [x], target)|
  {
    assert (prefix + [x])[..|prefix|] == prefix;
    assert SortByStart(prefix + [x]) == InsertByStart(x, SortByStart(prefix));
    ForeignInsert(x, SortByStart(prefix), target);
    ForeignAppend(prefix, [x], target);
  }

  lemma {:induction false} ForeignBusyTimesOf(calendarId: string, events: seq<Event>, target: string)
    ensures |Foreign(BusyTimesOf(calendarId, events), target)| == if calendarId != target then |events| else 0
    decreases |events|
  {
    if events != [] {
      var n := |events| - 1;
      ForeignBusyTimesOf(calendarId, events[..n], target);
      ForeignAppend(BusyTimesOf(calendarId, events[..n]), [BusyTime(calendarId, events[n].start, events[n].end, events[n])], target);
    }
  }

  lemma {:induction false} ForeignCollectCount(snap: Snapshot, target: string)
    ensures |Foreign(CollectBusyTimes(snap), target)| == ForeignEventCount(snap, target)
    decreases |snap|
  {
    if snap != [] {
      var n := |snap| - 1;
      ForeignCollectCount(snap[..n], target);
      ForeignAppend(CollectBusyTimes(snap[..n]), BusyTimesOf(snap[n].0, snap[n].1), target);
      ForeignBusyTimesOf(snap[n].0, snap[n].1, target);
    }
  }

  /** A target is offered exactly the events of the other calendars. */
  lemma ForeignCount(snap: Snapshot, target: string)
    ensures |Foreign(SortedBusyTimes(snap), target)| == ForeignEventCount(snap, target)
  {
    ForeignSortCount(CollectBusyTimes(snap), target);
    ForeignCollectCount(snap, target);
  }

  lemma {:induction false} PassUpToAccounts(snap: Snapshot, n: nat)
    requires n <= |snap|
    ensures var p := PassUpTo(snap, SortedBusyTimes(snap), n);
      p.busyBlocksCreated + |p.conflicts| == PairCount(snap, n)
  {
    if n > 0 {
      PassUpToAccounts(snap, n - 1);
      ForeignCount(snap, snap[n - 1].0);
      MirrorShape(snap[n - 1].0, snap[n - 1].1, Foreign(SortedBusyTimes(snap), snap[n - 1].0));
    }
  }

  /**
   * Each (target, busy time of another calendar) pair has exactly one
   * outcome, a block or a conflict.
   */
  lemma SyncPassAccountsForEveryPair(snap: Snapshot)
    ensures SyncPass(snap).busyBlocksCreated + |SyncPass(snap).conflicts| == PairCount(snap, |snap|)
  {
    PassUpToAccounts(snap, |snap|);
  }

  // ----- what the pass leaves in each list -----

  /**
   * The pass only appends to a list: the original events stay, in place, and
   * what follows them are "Busy"/"private" blocks.
   */
  lemma SyncPassAppendOnly(snap: Snapshot, k: nat)
    requires k < |snap|
    ensures |snap[k].1| <= |SyncPass(snap).lists[k]|
    ensures SyncPass(snap).lists[k][..|snap[k].1|] == snap[k].1
    ensures forall j :: |snap[k].1| <= j < |SyncPass(snap).lists[k]| ==> IsBusyBlock(SyncPass(snap).lists[k][j])
  {
    PassUpToList(snap, SortedBusyTimes(snap), |snap|, k);
    MirrorShape(snap[k].0, snap[k].1, Foreign(SortedBusyTimes(snap), snap[k].0));
  }

  /** A block in target `k` copies the times of a busy time of another calendar. */
  lemma SyncPassBlockSource(snap: Snapshot, k: nat, j: nat)
    requires k < |snap| && |snap[k].1| <= j < |SyncPass(snap).lists[k]|
    ensures exists b :: b in SortedBusyTimes(snap) && b.calendarId != snap[k].0 && SyncPass(snap).lists[k][j] == BusyBlock(b)
  {
    var all := SortedBusyTimes(snap);
    var f := Foreign(all, snap[k].0);
    PassUpToList(snap, all, |snap|, k);
    MirrorBlockSource(snap[k].0, snap[k].1, f, j);
    var i :| 0 <= i < |f| && SyncPass(snap).lists[k][j] == BusyBlock(f[i]);
    assert f[i] in f;
    ForeignMembers(all, snap[k].0);
  }

  /**
   * After the pass, no created block overlaps another created block or a
   * pre-existing event of the same target.
   */
  lemma SyncPassNoOverlap(snap: Snapshot, k: nat, j: nat, i: nat)
    requires k < |snap|
    requires |snap[k].1| <= j < |SyncPass(snap).lists[k]|
    requires i < |SyncPass(snap).lists[k]| && i != j
    ensures !EventsOverlap(SyncPass(snap).lists[k][j], SyncPass(snap).lists[k][i])
  {
    var all := SortedBusyTimes(snap);
    PassUpToList(snap, all, |snap|, k);
    MirrorBlockDisjoint(snap[k].0, snap[k].1, Foreign(all, snap[k].0), j, i);
  }

  // ----- conflicts and updated calendars -----

  lemma {:induction false} PassUpToConflict(snap: Snapshot, all: seq<BusyTime>, n: nat, i: nat)
    requires n <= |snap| && i < |PassUpTo(snap, all, n).conflicts|
    ensures var c := PassUpTo(snap, all, n).conflicts[i];
      && c.calendarId != c.sourceCalendarId
      && exists k :: 0 <= k < n && c.calendarId == snap[k].0
  {
    var prev := PassUpTo(snap, all, n - 1);
    var p := PassUpTo(snap, all, n);
    if i < |prev.conflicts| {
      PassUpToConflict(snap, all, n - 1, i);
      assert p.conflicts[i] == prev.conflicts[i];
    } else {
      var target := snap[n - 1].0;
      var f := Foreign(all, target);
      var m := Mirror(target, snap[n - 1].1, f);
      assert p.conflicts[i] == m.conflicts[i - |prev.conflicts|];
      MirrorConflictSource(target, snap[n - 1].1, f, i - |prev.conflicts|);
      var j :| 0 <= j < |f| && m.conflicts[i - |prev.conflicts|] == ConflictFor(target, f[j]);
      assert f[j].calendarId != target;
    }
  }

  /** A target never gets a conflict for one of its own events. */
  lemma SyncPassNoSelfConflicts(snap: Snapshot, i: nat)
    requires i < |SyncPass(snap).conflicts|
    ensures SyncPass(snap).conflicts[i].calendarId != SyncPass(snap).conflicts[i].sourceCalendarId
  {
    PassUpToConflict(snap, SortedBusyTimes(snap), |snap|, i);
  }

  predicate DistinctKeys(snap: Snapshot) {
    forall i, j :: 0 <= i < j < |snap| ==> snap[i].0 != snap[j].0
  }

  predicate NoDuplicates(s: seq<string>) {
    forall i, j :: 0 <= i < j < |s| ==> s[i] != s[j]
  }

  /** Target `k` received at least one block. */
  predicate Received(snap: Snapshot, lists: seq<seq<Event>>, k: nat)
    requires k < |snap| && k < |lists|
  {
    |lists[k]| > |snap[k].1|
  }

  /** The updated list has no duplicates. */
  lemma {:induction false} PassUpToUpdatedKeys(snap: Snapshot, all: seq<BusyTime>, n: nat)
    requires n <= |snap|
    requires DistinctKeys(snap)
    ensures NoDuplicates(PassUpTo(snap, all, n).calendarsUpdated)
  {
    if n > 0 {
      PassUpToUpdatedKeys(snap, all, n - 1);
      var prev := PassUpTo(snap, all, n - 1).calendarsUpdated;
      var target := snap[n - 1].0;
      if target in prev {
        PassUpToUpdatedSound(snap, all, n - 1, target);
        assert false;
      }
      NoDuplicatesAppend(prev, target);
    }
  }

  lemma NoDuplicatesAppend(s: seq<string>, x: string)
    requires NoDuplicates(s) && x !in s
    ensures NoDuplicates(s + [x])
  {
  }

  /** A target in the updated list received a block. */
  lemma {:induction false} PassUpToUpdatedSound(snap: Snapshot, all: seq<BusyTime>, n: nat, id: string)
    requires n <= |snap|
    requires id in PassUpTo(snap, all, n).calendarsUpdated
    ensures exists k :: 0 <= k < n && snap[k].0 == id && Received(snap, PassUpTo(snap, all, n).lists, k)
  {
    var prev := PassUpTo(snap, all, n - 1);
    var p := PassUpTo(snap, all, n);
    if id in prev.calendarsUpdated {
      PassUpToUpdatedSound(snap, all, n - 1, id);
      var k :| 0 <= k < n - 1 && snap[k].0 == id && Received(snap, prev.lists, k);
      assert p.lists[k] == prev.lists[k];
    } else {
      assert Received(snap, p.lists, n - 1);
    }
  }

  /** A target that received a block is in the updated list. */
  lemma {:induction false} PassUpToUpdatedComplete(snap: Snapshot, all: seq<BusyTime>, n: nat, k: nat)
    requires k < n <= |snap|
    requires Received(snap, PassUpTo(snap, all, n).lists, k)
    ensures snap[k].0 in PassUpTo(snap, all, n).calendarsUpdated
  {
    var prev := PassUpTo(snap, all, n - 1);
    var p := PassUpTo(snap, all, n);
    if k < n - 1 {
      assert p.lists[k] == prev.lists[k];
      PassUpToUpdatedComplete(snap, all, n - 1, k);
    }
  }

  /**
   * `calendarsUpdated` has no duplicates and holds exactly the targets that
   * received at least one block.
   */
  lemma SyncPassUpdated(snap: Snapshot)
    requires DistinctKeys(snap)
    ensures NoDuplicates(SyncPass(snap).calendarsUpdated)
    ensures forall id :: id in SyncPass(snap).calendarsUpdated <==>
      exists k :: 0 <= k < |snap| && snap[k].0 == id && Received(snap, SyncPass(snap).lists, k)
  {
    var all := SortedBusyTimes(snap);
    var p := SyncPass(snap);
    PassUpToUpdatedKeys(snap, all, |snap|);
    forall id ensures id in p.calendarsUpdated <==> exists k :: 0 <= k < |snap| && snap[k].0 == id && Received(snap, p.lists, k) {
      if id in p.calendarsUpdated {
        PassUpToUpdatedSound(snap, all, |snap|, id);
      }
      if exists k :: 0 <= k < |snap| && snap[k].0 == id && Received(snap, p.lists, k) {
        var k :| 0 <= k < |snap| && snap[k].0 == id && Received(snap, p.lists, k);
        PassUpToUpdatedComplete(snap, all, |snap|, k);
      }
    }
  }
}
