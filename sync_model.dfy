/**
 * The values `CalendarSyncManager` (src/taskpane/calendarSync.js) works on,
 * and the functions that say what its methods compute: the calendar
 * registry (a JavaScript `Map` kept in insertion order), the configuration
 * object and what local storage holds of it, the status ladder, and the
 * counts of a synchronisation pass.
 */
module SyncModel {
  import opened Wrappers
  import opened Text

  // ----- a JavaScript Map: entries in insertion order -----

  type Entries<V> = seq<(string, V)>

  predicate DistinctKeys<V>(m: Entries<V>) {
    forall i, j :: 0 <= i < j < |m| ==> m[i].0 != m[j].0
  }

  /** Where key `k` sits, if anywhere. */
  function IndexOf<V>(m: Entries<V>, k: string): (r: Option<nat>)
    ensures r.Some? ==> r.value < |m| && m[r.value].0 == k
    ensures r.None? <==> forall i :: 0 <= i < |m| ==> m[i].0 != k
    ensures r.Some? ==> forall i :: 0 <= i < r.value ==> m[i].0 != k
  {
    if m == [] then None
    else if m[0].0 == k then Some(0)
    else
      match IndexOf(m[1..], k)
      case None => None
      case Some(i) => Some(i + 1)
  }

  /** The first entry with key `k` is the one at `i`. */
  lemma IndexOfAt<V>(m: Entries<V>, k: string, i: nat)
    requires i < |m| && m[i].0 == k
    requires forall j :: 0 <= j < i ==> m[j].0 != k
    ensures IndexOf(m, k) == Some(i)
  {
  }

  /** `map.get(k)`. */
  function Get<V>(m: Entries<V>, k: string): Option<V> {
    match IndexOf(m, k)
    case None => None
    case Some(i) => Some(m[i].1)
  }

  /** `map.set(k, v)`: an existing key keeps its place, a new one goes last. */
  function Set<V>(m: Entries<V>, k: string, v: V): Entries<V> {
    match IndexOf(m, k)
    case None => m + [(k, v)]
    case Some(i) => m[i := (k, v)]
  }

  function Keys<V>(m: Entries<V>): (r: seq<string>)
    ensures |r| == |m| && forall i :: 0 <= i < |m| ==> r[i] == m[i].0
  {
    if m == [] then [] else [m[0].0] + Keys(m[1..])
  }

  /** After `set`, `get` of that key gives the new value and every other key is untouched. */
  lemma SetThenGet<V>(m: Entries<V>, k: string, v: V, other: string)
    ensures Get(Set(m, k, v), k) == Some(v)
    ensures other != k ==> Get(Set(m, k, v), other) == Get(m, other)
  {
    var r := Set(m, k, v);
    match IndexOf(m, k)
    case None =>
      assert r[..|m|] == m;
      IndexOfAt(r, k, |m|);
      if other != k {
        match IndexOf(m, other)
        case None =>
        case Some(i) =>
          assert r[i] == m[i];
          IndexOfAt(r, other, i);
      }
    case Some(i) =>
      IndexOfAt(r, k, i);
      if other != k {
        match IndexOf(m, other)
        case None =>
        case Some(j) =>
          IndexOfAt(r, other, j);
      }
  }

  /** `set` keeps the keys distinct and in order, adding a new key at the end. */
  lemma SetKeys<V>(m: Entries<V>, k: string, v: V)
    requires DistinctKeys(m)
    ensures DistinctKeys(Set(m, k, v))
    ensures Keys(Set(m, k, v)) == if IndexOf(m, k).Some? then Keys(m) else Keys(m) + [k]
  {
    var r := Set(m, k, v);
    if IndexOf(m, k).None? {
      assert Keys(r) == Keys(m) + [k];
    } else {
      assert Keys(r) == Keys(m);
    }
  }

  // ----- the calendar registry -----

  /** A calendar as `discoverCalendars` describes it. */
  datatype CalendarInfo = CalendarInfo(id: string, name: string, kind: string, syncEnabled: bool, itemCount: nat)

  type Registry = Entries<CalendarInfo>

  /** The five calendars `discoverCalendars` registers, three of them enabled. */
  function DiscoveredCalendars(): seq<CalendarInfo> {
    [ CalendarInfo("calendar-1", "Company A Calendar", "Exchange", true, 12),
      CalendarInfo("calendar-2", "Company B Calendar", "Office 365", true, 8),
      CalendarInfo("calendar-3", "Company C Calendar", "Exchange", false, 5),
      CalendarInfo("calendar-4", "Personal Calendar", "Outlook.com", true, 15),
      CalendarInfo("calendar-5", "Project Calendar", "SharePoint", false, 3) ]
  }

  /** `Array.from(calendars.values()).filter(cal => cal.syncEnabled)`. */
  function EnabledCalendars(registry: Registry): (r: seq<CalendarInfo>)
    ensures |r| <= |registry|
    ensures forall i :: 0 <= i < |r| ==> r[i].syncEnabled
  {
    if registry == [] then []
    else
      var n := |registry| - 1;
      var prev := EnabledCalendars(registry[..n]);
      if registry[n].1.syncEnabled then prev + [registry[n].1] else prev
  }

  /** The filter keeps exactly the enabled calendars of the registry. */
  lemma {:induction false} EnabledMembers(registry: Registry, c: CalendarInfo)
    ensures c in EnabledCalendars(registry) <==>
      c.syncEnabled && exists i :: 0 <= i < |registry| && registry[i].1 == c
    decreases |registry|
  {
    if registry != [] {
      var n := |registry| - 1;
      EnabledMembers(registry[..n], c);
      if exists i :: 0 <= i < |registry| && registry[i].1 == c {
        var i :| 0 <= i < |registry| && registry[i].1 == c;
        if i < n {
          assert registry[..n][i].1 == c;
        }
      }
      if exists i :: 0 <= i < n && registry[..n][i].1 == c {
        var i :| 0 <= i < n && registry[..n][i].1 == c;
        assert registry[i].1 == c;
      }
    }
  }

  /** The filter keeps the registry's order: it distributes over concatenation. */
  lemma {:induction false} EnabledAppend(a: Registry, b: Registry)
    ensures EnabledCalendars(a + b) == EnabledCalendars(a) + EnabledCalendars(b)
    decreases |b|
  {
    if b == [] {
      assert a + b == a;
    } else {
      var n := |b| - 1;
      assert (a + b)[..|a + b| - 1] == a + b[..n];
      assert (a + b)[|a + b| - 1] == b[n];
      EnabledAppend(a, b[..n]);
    }
  }

  /** Keys are distinct and each calendar is filed under its own id. */
  predicate Consistent(registry: Registry) {
    DistinctKeys(registry) && forall i :: 0 <= i < |registry| ==> registry[i].1.id == registry[i].0
  }

  /** Every enabled calendar is the value of some earlier-or-equal entry. */
  lemma {:induction false} EnabledFrom(registry: Registry, k: nat)
    requires k < |EnabledCalendars(registry)|
    ensures exists i :: 0 <= i < |registry| && registry[i].1 == EnabledCalendars(registry)[k]
  {
    var n := |registry| - 1;
    var prev := EnabledCalendars(registry[..n]);
    if k < |prev| {
      EnabledFrom(registry[..n], k);
      var i :| 0 <= i < n && registry[..n][i].1 == prev[k];
      assert registry[i].1 == EnabledCalendars(registry)[k];
    } else {
      assert registry[n].1 == EnabledCalendars(registry)[k];
    }
  }

  /** In a consistent registry the enabled calendars have distinct ids. */
  lemma {:induction false} EnabledIdsDistinct(registry: Registry)
    requires Consistent(registry)
    ensures DistinctIds(EnabledCalendars(registry))
  {
    if registry != [] {
      var n := |registry| - 1;
      var prev := EnabledCalendars(registry[..n]);
      assert Consistent(registry[..n]);
      EnabledIdsDistinct(registry[..n]);
      if registry[n].1.syncEnabled {
        forall k | 0 <= k < |prev| ensures prev[k].id != registry[n].1.id {
          EnabledFrom(registry[..n], k);
          var i :| 0 <= i < n && registry[..n][i].1 == prev[k];
          assert registry[i].0 != registry[n].0;
        }
      }
    }
  }

  /** A registry filled with `set(cal.id, cal)` from a list with distinct ids. */
  function Registered(cals: seq<CalendarInfo>): (r: Registry)
    ensures |r| == |cals| && forall i :: 0 <= i < |cals| ==> r[i] == (cals[i].id, cals[i])
  {
    if cals == [] then [] else Registered(cals[..|cals| - 1]) + [(cals[|cals| - 1].id, cals[|cals| - 1])]
  }

  lemma RegisteredConsistent(cals: seq<CalendarInfo>)
    requires DistinctIds(cals)
    ensures Consistent(Registered(cals))
  {
  }

  /** The discovered calendars have distinct ids. */
  lemma DiscoveredIdsDistinct()
    ensures DistinctIds(DiscoveredCalendars())
  {
    var d := DiscoveredCalendars();
    forall i, j | 0 <= i < j < |d| ensures d[i].id != d[j].id {
      assert d[i].id[9] != d[j].id[9];
    }
  }

  /** Three of the discovered calendars are enabled: calendar-1, -2 and -4. */
  lemma DiscoveredEnabledCount()
    ensures |EnabledCalendars(Registered(DiscoveredCalendars()))| == 3
  {
    var d := DiscoveredCalendars();
    var r := Registered(d);
    assert r[..1][..0] == r[..0] && r[..0] == [];
    assert |EnabledCalendars(r[..1])| == 1 by { assert r[..1][0].1 == d[0]; }
    assert r[..2][..1] == r[..1];
    assert |EnabledCalendars(r[..2])| == 2 by { assert r[..2][1].1 == d[1]; }
    assert r[..3][..2] == r[..2];
    assert |EnabledCalendars(r[..3])| == 2 by { assert r[..3][2].1 == d[2]; }
    assert r[..4][..3] == r[..3];
    assert |EnabledCalendars(r[..4])| == 3 by { assert r[..4][3].1 == d[3]; }
    assert r[..4] == r[..|r| - 1];
    assert r[4].1 == d[4];
  }

  function Flip(c: CalendarInfo): CalendarInfo {
    c.(syncEnabled := !c.syncEnabled)
  }

  /**
   * `toggleCalendarSync(id)`: the registry with the named calendar's flag
   * flipped, or None ("Calendar not found") for an unknown id.
   */
  function Toggled(registry: Registry, id: string): (r: Option<Registry>)
    ensures r.None? <==> Get(registry, id).None?
    ensures r.Some? ==> && |r.value| == |registry|
                        && Keys(r.value) == Keys(registry)
                        && Get(r.value, id) == Some(Flip(Get(registry, id).value))
    ensures r.Some? ==> forall i :: 0 <= i < |registry| && i != IndexOf(registry, id).value ==>
                          r.value[i] == registry[i]
  {
    match IndexOf(registry, id)
    case None => None
    case Some(i) =>
      var next := registry[i := (id, Flip(registry[i].1))];
      IndexOfAt(next, id, i);
      assert forall j :: 0 <= j < |next| ==> next[j].0 == registry[j].0;
      Some(next)
  }

  /** Toggling the same calendar twice gives back the registry. */
  lemma ToggleTwice(registry: Registry, id: string)
    requires Get(registry, id).Some?
    ensures Toggled(Toggled(registry, id).value, id) == Some(registry)
  {
    var i := IndexOf(registry, id).value;
    var once := Toggled(registry, id).value;
    assert once == registry[i := (id, Flip(registry[i].1))];
    IndexOfAt(once, id, i);
    assert once[i := (id, Flip(once[i].1))] == registry;
  }

  /** Toggling keeps every calendar under its own id. */
  lemma ToggledConsistent(registry: Registry, id: string)
    requires Consistent(registry) && Get(registry, id).Some?
    ensures Consistent(Toggled(registry, id).value)
  {
    var i := IndexOf(registry, id).value;
    assert Toggled(registry, id).value == registry[i := (id, Flip(registry[i].1))];
  }

  /** Toggling changes the number of enabled calendars by exactly one. */
  lemma {:induction false} ToggleEnabledCount(registry: Registry, id: string)
    requires Get(registry, id).Some?
    ensures var flipped := Get(registry, id).value;
      |EnabledCalendars(Toggled(registry, id).value)| ==
        if flipped.syncEnabled then |EnabledCalendars(registry)| - 1 else |EnabledCalendars(registry)| + 1
  {
    var i := IndexOf(registry, id).value;
    var next := Toggled(registry, id).value;
    EnabledCountAt(registry, next, i);
  }

  /** Two registries that differ only at entry `i`, whose flag is flipped. */
  lemma {:induction false} EnabledCountAt(a: Registry, b: Registry, i: nat)
    requires |a| == |b| && i < |a| && b[i].1 == Flip(a[i].1)
    requires forall j :: 0 <= j < |a| && j != i ==> b[j] == a[j]
    ensures |EnabledCalendars(b)| == if a[i].1.syncEnabled then |EnabledCalendars(a)| - 1 else |EnabledCalendars(a)| + 1
    decreases |a|
  {
    var n := |a| - 1;
    if i < n {
      EnabledCountAt(a[..n], b[..n], i);
      assert b[n] == a[n];
    } else {
      assert a[..n] == b[..n];
    }
  }

  // ----- configuration -----

  /** A JSON value as the configuration object holds it. */
  datatype Value = JNull | JBool(b: bool) | JNum(n: int) | JStr(s: string) | JOther

  type Config = map<string, Value>

  /** The defaults set by the constructor. */
  function DefaultConfig(): Config {
    map[ "syncIntervalMinutes" := JNum(15),
         "busyBlockSubject" := JStr("[Auto-Sync] Busy"),
         "busyBlockCategory" := JStr("Auto-Sync"),
         "lookAheadDays" := JNum(0),
         "lookBehindDays" := JNum(0) ]
  }

  /** `{ ...base, ...saved }`: saved keys override, the others keep the base value. */
  function Merge(base: Config, saved: Config): (r: Config)
    ensures r.Keys == base.Keys + saved.Keys
    ensures forall k :: k in saved ==> r[k] == saved[k]
    ensures forall k :: k in base && k !in saved ==> r[k] == base[k]
  {
    map k | k in base.Keys + saved.Keys :: if k in saved then saved[k] else base[k]
  }

  /**
   * What `localStorage.getItem('calendarSync_config')` yields, after
   * `JSON.parse`: nothing (null, or the empty string, which is falsy), text
   * that does not parse, or the own properties of the parsed value.
   */
  datatype StoredConfig = Missing | Malformed | Saved(entries: Config)

  /**
   * `loadConfiguration()`: the new configuration and `syncEnabled`. A
   * malformed saved configuration throws before `syncEnabled` is read, and
   * the catch leaves both as they were.
   */
  function Loaded(config: Config, enabled: bool, stored: StoredConfig, storedEnabled: Option<string>): (r: (Config, bool))
    ensures stored.Malformed? ==> r == (config, enabled)
    ensures !stored.Malformed? ==> (r.1 <==> storedEnabled == Some("true"))
    ensures stored.Missing? ==> r.0 == config
    ensures stored.Saved? ==> r.0 == Merge(config, stored.entries)
    ensures stored.Saved? ==> r.0.Keys == config.Keys + stored.entries.Keys
  {
    match stored
    case Malformed => (config, enabled)
    case Missing => (config, storedEnabled == Some("true"))
    case Saved(entries) => (Merge(config, entries), storedEnabled == Some("true"))
  }

  /** `this.syncEnabled.toString()`. */
  function BoolText(b: bool): string {
    if b then "true" else "false"
  }

  /**
   * Loading what `saveConfiguration` stored gives back the saved flag, and
   * the saved configuration whenever it has every key of the one loaded
   * into, as a configuration grown from the defaults always has.
   */
  lemma SaveThenLoad(current: Config, enabled: bool, saved: Config, savedEnabled: bool)
    requires current.Keys <= saved.Keys
    ensures Loaded(current, enabled, Saved(saved), Some(BoolText(savedEnabled))) == (saved, savedEnabled)
  {
    var r := Merge(current, saved);
    assert r.Keys == saved.Keys;
    assert forall k :: k in r ==> r[k] == saved[k];
    assert r == saved;
    assert BoolText(savedEnabled) == "true" <==> savedEnabled by {
      assert "false" != "true" by { assert "false"[0] != "true"[0]; }
    }
  }

  // ----- status -----

  datatype State = Syncing | Stopped | Error | Active

  datatype Status = Status(state: State, message: string, lastSync: Option<int>)

  /** `getSyncStatus()`, from the fields it reads. */
  function StatusOf(inProgress: bool, syncEnabled: bool, registry: Registry, lastSync: Option<int>): (s: Status)
    ensures s.lastSync == lastSync
    ensures s.state == Syncing <==> inProgress
    ensures s.state == Stopped <==> !inProgress && !syncEnabled
    ensures s.state == Error <==> !inProgress && syncEnabled && |EnabledCalendars(registry)| < 2
    ensures s.state == Active <==> !inProgress && syncEnabled && |EnabledCalendars(registry)| >= 2
  {
    if inProgress then Status(Syncing, "Synchronization in progress...", lastSync)
    else if !syncEnabled then Status(Stopped, "Synchronization disabled", lastSync)
    else
      var enabledCount := |EnabledCalendars(registry)|;
      if enabledCount < 2 then Status(Error, "Need at least 2 enabled calendars", lastSync)
      else Status(Active, "Monitoring " + NatToString(enabledCount) + " calendars", lastSync)
  }

  /** The number in an Active status message is the number of enabled calendars. */
  lemma ActiveMessageCount(inProgress: bool, syncEnabled: bool, registry: Registry, lastSync: Option<int>)
    requires StatusOf(inProgress, syncEnabled, registry, lastSync).state == Active
    ensures var m := StatusOf(inProgress, syncEnabled, registry, lastSync).message;
      var digits := m[11..|m| - 10];
      && m[..11] == "Monitoring " && m[|m| - 10..] == " calendars"
      && JsNumber(digits) == Some(|EnabledCalendars(registry)|)
  {
    var n := |EnabledCalendars(registry)|;
    var m := StatusOf(inProgress, syncEnabled, registry, lastSync).message;
    assert m == "Monitoring " + NatToString(n) + " calendars";
    assert m[11..|m| - 10] == NatToString(n);
    NatToStringRoundTrip(n);
  }

  // ----- the counts of a pass -----

  /** A busy time as the event source reports it. */
  datatype BusySlot = BusySlot(start: int, end: int, subject: string, isPrivate: bool)

  type BusyMap = Entries<seq<BusySlot>>

  predicate DistinctIds(cals: seq<CalendarInfo>) {
    forall i, j :: 0 <= i < j < |cals| ==> cals[i].id != cals[j].id
  }

  /**
   * `getBusyTimesFromCalendars(cals)`: each calendar's busy times under its
   * id, or an empty list when fetching them failed (None).
   */
  function FetchedBusy(cals: seq<CalendarInfo>, fetch: string -> Option<seq<BusySlot>>): BusyMap {
    if cals == [] then []
    else
      var n := |cals| - 1;
      Set(FetchedBusy(cals[..n], fetch), cals[n].id, fetch(cals[n].id).GetOr([]))
  }

  /** For distinct ids, one entry per calendar, in calendar order. */
  lemma {:induction false} FetchedBusyEntries(cals: seq<CalendarInfo>, fetch: string -> Option<seq<BusySlot>>)
    requires DistinctIds(cals)
    ensures var busy := FetchedBusy(cals, fetch);
      && |busy| == |cals| && DistinctKeys(busy)
      && forall i :: 0 <= i < |cals| ==> busy[i] == (cals[i].id, fetch(cals[i].id).GetOr([]))
  {
    if cals != [] {
      var n := |cals| - 1;
      var prev := FetchedBusy(cals[..n], fetch);
      FetchedBusyEntries(cals[..n], fetch);
      forall i | 0 <= i < |prev| ensures prev[i].0 != cals[n].id {
        assert prev[i].0 == cals[i].id;
      }
      assert IndexOf(prev, cals[n].id).None?;
      SetKeys(prev, cals[n].id, fetch(cals[n].id).GetOr([]));
    }
  }

  /** `removeExistingSyncBlocks(cals)`: the counts of the removals that succeeded. */
  function RemovedTotal(cals: seq<CalendarInfo>, remove: string -> Option<nat>): nat {
    if cals == [] then 0
    else RemovedTotal(cals[..|cals| - 1], remove) + remove(cals[|cals| - 1].id).GetOr(0)
  }

  /** Removal counts add up over consecutive runs of calendars. */
  lemma {:induction false} RemovedTotalAppend(a: seq<CalendarInfo>, b: seq<CalendarInfo>, remove: string -> Option<nat>)
    ensures RemovedTotal(a + b, remove) == RemovedTotal(a, remove) + RemovedTotal(b, remove)
    decreases |b|
  {
    if b == [] {
      assert a + b == a;
    } else {
      var n := |b| - 1;
      assert (a + b)[..|a + b| - 1] == a + b[..n];
      RemovedTotalAppend(a, b[..n], remove);
    }
  }

  /** A calendar whose removal fails is skipped; the others still count. */
  lemma RemovalFailureSkipped(a: seq<CalendarInfo>, c: CalendarInfo, b: seq<CalendarInfo>, remove: string -> Option<nat>)
    requires remove(c.id).None?
    ensures RemovedTotal(a + [c] + b, remove) == RemovedTotal(a, remove) + RemovedTotal(b, remove)
  {
    RemovedTotalAppend(a + [c], b, remove);
    assert (a + [c])[..|a|] == a;
  }

  /** The busy times of every source other than `targetId`, in map order. */
  function OtherBusy(busy: BusyMap, targetId: string): seq<BusySlot> {
    if busy == [] then []
    else
      var n := |busy| - 1;
      OtherBusy(busy[..n], targetId) + (if busy[n].0 != targetId then busy[n].1 else [])
  }

  /** All busy times of the map. */
  function TotalBusy(busy: BusyMap): nat {
    if busy == [] then 0 else TotalBusy(busy[..|busy| - 1]) + |busy[|busy| - 1].1|
  }

  /** For distinct keys, the other sources' busy times and the target's own make up all of them. */
  lemma {:induction false} OtherBusyCount(busy: BusyMap, targetId: string)
    requires DistinctKeys(busy)
    ensures |OtherBusy(busy, targetId)| + |Get(busy, targetId).GetOr([])| == TotalBusy(busy)
  {
    if busy != [] {
      var n := |busy| - 1;
      var prev := busy[..n];
      assert DistinctKeys(prev);
      OtherBusyCount(prev, targetId);
      if busy[n].0 == targetId {
        assert IndexOf(prev, targetId).None? by {
          forall i | 0 <= i < n ensures prev[i].0 != targetId {
            assert busy[i].0 != busy[n].0;
          }
        }
        GetAtLast(busy);
      } else {
        GetBeforeLast(busy, targetId);
      }
    }
  }

  lemma GetAtLast(busy: BusyMap)
    requires busy != [] && IndexOf(busy[..|busy| - 1], busy[|busy| - 1].0).None?
    ensures Get(busy, busy[|busy| - 1].0) == Some(busy[|busy| - 1].1)
  {
    var n := |busy| - 1;
    assert busy == busy[..n] + [busy[n]];
    assert IndexOf(busy, busy[n].0) == Some(n) by {
      forall i | 0 <= i < n ensures busy[i].0 != busy[n].0 {
        assert busy[..n][i] == busy[i];
      }
    }
  }

  lemma GetBeforeLast(busy: BusyMap, k: string)
    requires busy != [] && busy[|busy| - 1].0 != k
    ensures Get(busy, k) == Get(busy[..|busy| - 1], k)
  {
    var n := |busy| - 1;
    var prev := busy[..n];
    match IndexOf(prev, k)
    case None =>
      assert forall i :: 0 <= i < n ==> busy[i] == prev[i];
      assert IndexOf(busy, k).None?;
    case Some(i) =>
      assert forall j :: 0 <= j <= i ==> busy[j] == prev[j];
      assert IndexOf(busy, k) == Some(i);
  }

  /**
   * `createSyncBlocks(cals, busy)`: every target asks for blocks for the
   * other sources' busy times; a target whose create step fails adds 0,
   * the others add the number of blocks they asked for.
   */
  function CreatedTotal(cals: seq<CalendarInfo>, busy: BusyMap, createFails: string -> bool): nat {
    if cals == [] then 0
    else
      var n := |cals| - 1;
      CreatedTotal(cals[..n], busy, createFails) + (if createFails(cals[n].id) then 0 else |OtherBusy(busy, cals[n].id)|)
  }

  /** Created counts add up over consecutive runs of targets. */
  lemma {:induction false} CreatedTotalAppend(a: seq<CalendarInfo>, b: seq<CalendarInfo>, busy: BusyMap, createFails: string -> bool)
    ensures CreatedTotal(a + b, busy, createFails) == CreatedTotal(a, busy, createFails) + CreatedTotal(b, busy, createFails)
    decreases |b|
  {
    if b == [] {
      assert a + b == a;
    } else {
      var n := |b| - 1;
      assert (a + b)[..|a + b| - 1] == a + b[..n];
      CreatedTotalAppend(a, b[..n], busy, createFails);
    }
  }

  /** A target whose create step fails contributes nothing to the count. */
  lemma CreateFailureContributesNothing(a: seq<CalendarInfo>, c: CalendarInfo, b: seq<CalendarInfo>,
                                        busy: BusyMap, createFails: string -> bool)
    requires createFails(c.id)
    ensures CreatedTotal(a + [c] + b, busy, createFails) == CreatedTotal(a, busy, createFails) + CreatedTotal(b, busy, createFails)
  {
    CreatedTotalAppend(a + [c], b, busy, createFails);
    assert (a + [c])[..|a|] == a;
  }

  /** The own busy times of each target, summed over the targets. */
  function OwnBusy(cals: seq<CalendarInfo>, busy: BusyMap): nat {
    if cals == [] then 0
    else OwnBusy(cals[..|cals| - 1], busy) + |Get(busy, cals[|cals| - 1].id).GetOr([])|
  }

  /**
   * When no create step fails, each target gets every busy time but its
   * own: the count is |targets| * all busy times minus the targets' own.
   */
  lemma {:induction false} CreatedWhenAllSucceed(cals: seq<CalendarInfo>, busy: BusyMap, createFails: string -> bool)
    requires DistinctKeys(busy)
    requires forall i :: 0 <= i < |cals| ==> !createFails(cals[i].id)
    ensures CreatedTotal(cals, busy, createFails) + OwnBusy(cals, busy) == |cals| * TotalBusy(busy)
  {
    if cals != [] {
      var n := |cals| - 1;
      CreatedWhenAllSucceed(cals[..n], busy, createFails);
      OtherBusyCount(busy, cals[n].id);
      MulSucc(n, TotalBusy(busy));
    }
  }

  lemma MulSucc(n: nat, t: nat)
    ensures (n + 1) * t == n * t + t
  {
  }

  /** The busy times fetched for the enabled calendars are each calendar's own. */
  lemma {:induction false} OwnBusyOfFetched(cals: seq<CalendarInfo>, fetch: string -> Option<seq<BusySlot>>, m: nat)
    requires DistinctIds(cals) && m <= |cals|
    ensures OwnBusy(cals[..m], FetchedBusy(cals, fetch)) == TotalBusy(FetchedBusy(cals[..m], fetch))
    decreases m
  {
    var busy := FetchedBusy(cals, fetch);
    FetchedBusyEntries(cals, fetch);
    if m > 0 {
      var prefix := cals[..m];
      assert prefix[..m - 1] == cals[..m - 1];
      OwnBusyOfFetched(cals, fetch, m - 1);
      FetchedBusyEntries(prefix, fetch);
      var part := FetchedBusy(prefix, fetch);
      assert part[..m - 1] == FetchedBusy(cals[..m - 1], fetch) by {
        FetchedBusyEntries(cals[..m - 1], fetch);
      }
      assert Get(busy, cals[m - 1].id) == Some(busy[m - 1].1) by {
        assert IndexOf(busy, cals[m - 1].id) == Some(m - 1) by {
          forall i | 0 <= i < m - 1 ensures busy[i].0 != cals[m - 1].id {
            assert busy[i].0 == cals[i].id;
          }
        }
      }
    }
  }

  /**
   * A pass in which every create step succeeds creates, for n enabled
   * calendars with distinct ids, (n - 1) blocks for every busy time fetched.
   */
  lemma SuccessfulPassCount(cals: seq<CalendarInfo>, fetch: string -> Option<seq<BusySlot>>, createFails: string -> bool)
    requires DistinctIds(cals)
    requires forall i :: 0 <= i < |cals| ==> !createFails(cals[i].id)
    ensures var busy := FetchedBusy(cals, fetch);
      CreatedTotal(cals, busy, createFails) == (|cals| - 1) * TotalBusy(busy)
  {
    var busy := FetchedBusy(cals, fetch);
    FetchedBusyEntries(cals, fetch);
    CreatedWhenAllSucceed(cals, busy, createFails);
    OwnBusyOfFetched(cals, fetch, |cals|);
    assert cals[..|cals|] == cals;
  }

  /**
   * For the calendars a consistent registry enables, a pass whose create
   * steps all succeed creates (n - 1) blocks for every busy time fetched.
   */
  lemma RegistryPassCount(registry: Registry, fetch: string -> Option<seq<BusySlot>>, createFails: string -> bool)
    requires Consistent(registry)
    requires forall c :: c in EnabledCalendars(registry) ==> !createFails(c.id)
    ensures var enabled := EnabledCalendars(registry);
      var busy := FetchedBusy(enabled, fetch);
      CreatedTotal(enabled, busy, createFails) == (|enabled| - 1) * TotalBusy(busy)
  {
    var enabled := EnabledCalendars(registry);
    EnabledIdsDistinct(registry);
    assert forall i :: 0 <= i < |enabled| ==> !createFails(enabled[i].id) by {
      forall i | 0 <= i < |enabled| ensures !createFails(enabled[i].id) {
        assert enabled[i] in enabled;
      }
    }
    SuccessfulPassCount(enabled, fetch, createFails);
  }
}
