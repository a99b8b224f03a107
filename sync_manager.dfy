/**
 * `CalendarSyncManager` (src/taskpane/calendarSync.js) as an object whose
 * methods update its fields: the calendar registry, the enabled flag, the
 * configuration, the auto-sync timer handle, the last sync time and the
 * re-entrance flag of `performSync`.
 *
 * The browser's local storage is a `LocalStorage` object holding the two
 * keys the manager writes. The `simulate*` stubs, which wait on timers and
 * draw random numbers, are a `CalendarBackend` object: its answers for each
 * calendar are fixed when it is made, and it logs every request, so that
 * the contracts can say which requests a sync makes and in what order.
 */
module SyncManager {
  import opened Wrappers
  import opened SyncModel

  /** `localStorage` under 'calendarSync_config' and 'calendarSync_enabled'. */
  class LocalStorage {
    var config: StoredConfig
    var enabled: Option<string>

    constructor (config: StoredConfig, enabled: Option<string>)
      ensures this.config == config && this.enabled == enabled
    {
      this.config := config;
      this.enabled := enabled;
    }
  }

  /** A request made to a calendar during a sync. */
  datatype Request =
    | FetchBusyTimes(calendarId: string)
    | RemoveSyncBlocks(calendarId: string)
    | CreateSyncBlocks(calendarId: string, blocks: seq<BusySlot>)

  /**
   * The calendars' side of a sync. `fetch` gives a calendar's busy times or
   * None when the request fails, `remove` the number of blocks removed or
   * None, and `createFails` says whether creating blocks in a calendar fails.
   */
  class CalendarBackend {
    const fetch: string -> Option<seq<BusySlot>>
    const remove: string -> Option<nat>
    const createFails: string -> bool
    var requests: seq<Request>

    constructor (fetch: string -> Option<seq<BusySlot>>, remove: string -> Option<nat>, createFails: string -> bool)
      ensures this.fetch == fetch && this.remove == remove && this.createFails == createFails
      ensures requests == []
    {
      this.fetch := fetch;
      this.remove := remove;
      this.createFails := createFails;
      requests := [];
    }

    /** `simulateGetBusyTimes(calendar)`. */
    method GetBusyTimes(calendar: CalendarInfo) returns (r: Option<seq<BusySlot>>)
      modifies this
      ensures r == fetch(calendar.id)
      ensures requests == old(requests) + [FetchBusyTimes(calendar.id)]
    {
      requests := requests + [FetchBusyTimes(calendar.id)];
      r := fetch(calendar.id);
    }

    /** `simulateRemoveSyncBlocks(calendar)`. */
    method RemoveBlocks(calendar: CalendarInfo) returns (r: Option<nat>)
      modifies this
      ensures r == remove(calendar.id)
      ensures requests == old(requests) + [RemoveSyncBlocks(calendar.id)]
    {
      requests := requests + [RemoveSyncBlocks(calendar.id)];
      r := remove(calendar.id);
    }

    /** `simulateCreateSyncBlocks(calendar, busyTimes)`: the number of blocks created. */
    method CreateBlocks(calendar: CalendarInfo, blocks: seq<BusySlot>) returns (r: Option<nat>)
      modifies this
      ensures r == if createFails(calendar.id) then None else Some(|blocks|)
      ensures requests == old(requests) + [CreateSyncBlocks(calendar.id, blocks)]
    {
      requests := requests + [CreateSyncBlocks(calendar.id, blocks)];
      r := if createFails(calendar.id) then None else Some(|blocks|);
    }
  }

  /** The requests `getBusyTimesFromCalendars(cals)` makes. */
  function FetchLog(cals: seq<CalendarInfo>): (r: seq<Request>)
    ensures |r| == |cals| && forall i :: 0 <= i < |cals| ==> r[i] == FetchBusyTimes(cals[i].id)
  {
    if cals == [] then [] else FetchLog(cals[..|cals| - 1]) + [FetchBusyTimes(cals[|cals| - 1].id)]
  }

  /** The requests `removeExistingSyncBlocks(cals)` makes. */
  function RemoveLog(cals: seq<CalendarInfo>): (r: seq<Request>)
    ensures |r| == |cals| && forall i :: 0 <= i < |cals| ==> r[i] == RemoveSyncBlocks(cals[i].id)
  {
    if cals == [] then [] else RemoveLog(cals[..|cals| - 1]) + [RemoveSyncBlocks(cals[|cals| - 1].id)]
  }

  /** The requests `createSyncBlocks(cals, busy)` makes: every other calendar's busy times, per target. */
  function CreateLog(cals: seq<CalendarInfo>, busy: BusyMap): (r: seq<Request>)
    ensures |r| == |cals|
    ensures forall i :: 0 <= i < |cals| ==> r[i] == CreateSyncBlocks(cals[i].id, OtherBusy(busy, cals[i].id))
  {
    if cals == [] then []
    else
      var n := |cals| - 1;
      CreateLog(cals[..n], busy) + [CreateSyncBlocks(cals[n].id, OtherBusy(busy, cals[n].id))]
  }

  /** The handle `setInterval` returns, with the period it was started with. */
  datatype Timer = Timer(minutes: Option<Value>)

  /** The period `startAutoSync` reads from the configuration. */
  function TimerFor(config: Config): Timer {
    Timer(if "syncIntervalMinutes" in config then Some(config["syncIntervalMinutes"]) else None)
  }

  /** What a successful `performSync` returns. */
  datatype SyncReport = SyncReport(blocksCreated: nat, blocksRemoved: nat, syncTime: int)

  class CalendarSyncManager {
    var syncEnabled: bool
    var calendars: Registry
    var syncInterval: Option<Timer>
    var lastSync: Option<int>
    var syncInProgress: bool
    var config: Config
    const storage: LocalStorage
    const backend: CalendarBackend

    /** Every calendar is filed under its own id, once. */
    predicate Valid()
      reads this
    {
      Consistent(calendars)
    }

    /** The constructor: sync disabled, no calendars, no timer, the default configuration. */
    constructor (storage: LocalStorage, backend: CalendarBackend)
      ensures this.storage == storage && this.backend == backend
      ensures !syncEnabled && calendars == [] && syncInterval.None? && lastSync.None? && !syncInProgress
      ensures config == DefaultConfig()
      ensures Valid()
    {
      syncEnabled := false;
      calendars := [];
      syncInterval := None;
      lastSync := None;
      syncInProgress := false;
      config := DefaultConfig();
      this.storage := storage;
      this.backend := backend;
    }

    /**
     * `initialize()`: load the configuration, discover the calendars, and
     * start the timer when sync is enabled.
     */
    method Initialize()
      modifies this
      ensures (config, syncEnabled) == Loaded(old(config), old(syncEnabled), storage.config, storage.enabled)
      ensures calendars == Registered(DiscoveredCalendars()) && Valid()
      ensures syncInterval == if syncEnabled then Some(TimerFor(config)) else old(syncInterval)
      ensures lastSync == old(lastSync) && syncInProgress == old(syncInProgress)
    {
      LoadConfiguration();
      DiscoverCalendars();
      if syncEnabled {
        StartAutoSync();
      }
    }

    /** `loadConfiguration()`: saved keys over the current ones; enabled iff the stored text is "true". */
    method LoadConfiguration()
      modifies this
      ensures (config, syncEnabled) == Loaded(old(config), old(syncEnabled), storage.config, storage.enabled)
      ensures calendars == old(calendars) && syncInterval == old(syncInterval)
      ensures lastSync == old(lastSync) && syncInProgress == old(syncInProgress)
    {
      match storage.config
      case Malformed =>
      case Missing =>
        syncEnabled := storage.enabled == Some("true");
      case Saved(entries) =>
        config := Merge(config, entries);
        syncEnabled := storage.enabled == Some("true");
    }

    /** `saveConfiguration()`: both keys are written. */
    method SaveConfiguration()
      modifies storage
      ensures storage.config == Saved(config) && storage.enabled == Some(BoolText(syncEnabled))
    {
      storage.config := Saved(config);
      storage.enabled := Some(BoolText(syncEnabled));
    }

    /** `discoverCalendars()`: the registry is cleared and refilled with the five calendars. */
    method DiscoverCalendars()
      modifies this
      ensures calendars == Registered(DiscoveredCalendars()) && Valid()
      ensures |EnabledCalendars(calendars)| == 3
      ensures syncEnabled == old(syncEnabled) && config == old(config) && syncInterval == old(syncInterval)
      ensures lastSync == old(lastSync) && syncInProgress == old(syncInProgress)
    {
      var found := DiscoveredCalendars();
      DiscoveredIdsDistinct();
      var registry := [];
      for i := 0 to |found|
        invariant registry == Registered(found[..i])
        modifies {}
      {
        RegisterNew(found, i);
        registry := Set(registry, found[i].id, found[i]);
      }
      assert found[..|found|] == found;
      calendars := registry;
      RegisteredConsistent(found);
      DiscoveredEnabledCount();
    }

    /** `getAvailableCalendars()`: the registry's calendars in insertion order. */
    function AvailableCalendars(): (r: seq<CalendarInfo>)
      reads this
      ensures |r| == |calendars| && forall i :: 0 <= i < |r| ==> r[i] == calendars[i].1
    {
      var registry := calendars;
      seq(|registry|, i requires 0 <= i < |registry| => registry[i].1)
    }

    /**
     * `toggleCalendarSync(calendarId)`: flips the calendar's flag, saves the
     * configuration and returns the new flag; "Calendar not found" when the
     * id is unknown, and then nothing changes.
     */
    method ToggleCalendarSync(calendarId: string) returns (r: Result<bool, string>)
      requires Valid()
      modifies this, storage
      ensures Valid()
      ensures Toggled(old(calendars), calendarId).None? ==>
        && r == Err("Calendar not found") && calendars == old(calendars)
        && storage.config == old(storage.config) && storage.enabled == old(storage.enabled)
      ensures Toggled(old(calendars), calendarId).Some? ==>
        && calendars == Toggled(old(calendars), calendarId).value
        && r == Ok(Get(calendars, calendarId).value.syncEnabled)
        && r == Ok(!Get(old(calendars), calendarId).value.syncEnabled)
        && storage.config == Saved(config) && storage.enabled == Some(BoolText(syncEnabled))
      ensures syncEnabled == old(syncEnabled) && config == old(config) && syncInterval == old(syncInterval)
      ensures lastSync == old(lastSync) && syncInProgress == old(syncInProgress)
    {
      var toggled := Toggled(calendars, calendarId);
      if toggled.None? {
        return Err("Calendar not found");
      }
      ToggledConsistent(calendars, calendarId);
      calendars := toggled.value;
      SaveConfiguration();
      r := Ok(Get(calendars, calendarId).value.syncEnabled);
    }

    /**
     * `performSync()`. A second call while one runs fails with "Sync already
     * in progress" and changes nothing. Otherwise the flag is set for the
     * call and cleared at its end, whatever the outcome. Fewer than two
     * enabled calendars fail before any request is made. Else busy times are
     * fetched, old blocks removed and new ones created, in that order, and
     * the counts of removed and created blocks are reported with the time.
     */
    method PerformSync(now: int) returns (r: Result<SyncReport, string>)
      modifies this, backend
      ensures old(syncInProgress) ==>
        && r == Err("Sync already in progress") && syncInProgress
        && lastSync == old(lastSync) && backend.requests == old(backend.requests)
      ensures !old(syncInProgress) ==> !syncInProgress
      ensures var enabled := EnabledCalendars(old(calendars));
        !old(syncInProgress) && |enabled| < 2 ==>
          && r == Err("At least 2 calendars must be enabled for synchronization")
          && lastSync == old(lastSync) && backend.requests == old(backend.requests)
      ensures var enabled := EnabledCalendars(old(calendars));
        var busy := FetchedBusy(enabled, backend.fetch);
        !old(syncInProgress) && |enabled| >= 2 ==>
          && r == Ok(SyncReport(CreatedTotal(enabled, busy, backend.createFails), RemovedTotal(enabled, backend.remove), now))
          && lastSync == Some(now)
          && backend.requests == old(backend.requests) + FetchLog(enabled) + RemoveLog(enabled) + CreateLog(enabled, busy)
      ensures calendars == old(calendars) && syncEnabled == old(syncEnabled)
      ensures config == old(config) && syncInterval == old(syncInterval)
    {
      if syncInProgress {
        return Err("Sync already in progress");
      }
      syncInProgress := true;
      var enabled := EnabledCalendars(calendars);
      if |enabled| < 2 {
        syncInProgress := false;
        return Err("At least 2 calendars must be enabled for synchronization");
      }
      var report := SyncCalendars(enabled, now);
      lastSync := Some(now);
      syncInProgress := false;
      r := Ok(report);
    }

    /** The body of `performSync` past the checks: fetch, remove, create, in that order. */
    method SyncCalendars(enabled: seq<CalendarInfo>, now: int) returns (report: SyncReport)
      modifies backend
      ensures var busy := FetchedBusy(enabled, backend.fetch);
        && report == SyncReport(CreatedTotal(enabled, busy, backend.createFails), RemovedTotal(enabled, backend.remove), now)
        && backend.requests == old(backend.requests) + FetchLog(enabled) + RemoveLog(enabled) + CreateLog(enabled, busy)
    {
      var busy := GetBusyTimesFromCalendars(enabled);
      var removed := RemoveExistingSyncBlocks(enabled);
      var created := CreateSyncBlocks(enabled, busy);
      report := SyncReport(created, removed, now);
    }

    /** `getBusyTimesFromCalendars(cals)`: a failed fetch files an empty list. */
    method GetBusyTimesFromCalendars(cals: seq<CalendarInfo>) returns (busy: BusyMap)
      modifies backend
      ensures busy == FetchedBusy(cals, backend.fetch)
      ensures backend.requests == old(backend.requests) + FetchLog(cals)
    {
      busy := [];
      for i := 0 to |cals|
        invariant busy == FetchedBusy(cals[..i], backend.fetch)
        invariant backend.requests == old(backend.requests) + FetchLog(cals[..i])
      {
        var fetched := backend.GetBusyTimes(cals[i]);
        FetchStep(cals, i, backend.fetch);
        busy := Set(busy, cals[i].id, fetched.GetOr([]));
      }
      assert cals[..|cals|] == cals;
    }

    /** `removeExistingSyncBlocks(cals)`: the blocks removed, a failed removal counting nothing. */
    method RemoveExistingSyncBlocks(cals: seq<CalendarInfo>) returns (removedCount: nat)
      modifies backend
      ensures removedCount == RemovedTotal(cals, backend.remove)
      ensures backend.requests == old(backend.requests) + RemoveLog(cals)
    {
      removedCount := 0;
      for i := 0 to |cals|
        invariant removedCount == RemovedTotal(cals[..i], backend.remove)
        invariant backend.requests == old(backend.requests) + RemoveLog(cals[..i])
      {
        var removed := backend.RemoveBlocks(cals[i]);
        assert cals[..i + 1][..i] == cals[..i];
        if removed.Some? {
          removedCount := removedCount + removed.value;
        }
      }
      assert cals[..|cals|] == cals;
    }

    /** `createSyncBlocks(cals, busy)`: each target is asked for every other calendar's busy times. */
    method CreateSyncBlocks(cals: seq<CalendarInfo>, busy: BusyMap) returns (createdCount: nat)
      modifies backend
      ensures createdCount == CreatedTotal(cals, busy, backend.createFails)
      ensures backend.requests == old(backend.requests) + CreateLog(cals, busy)
    {
      createdCount := 0;
      for i := 0 to |cals|
        invariant createdCount == CreatedTotal(cals[..i], busy, backend.createFails)
        invariant backend.requests == old(backend.requests) + CreateLog(cals[..i], busy)
      {
        var blocksToCreate := BlocksFor(busy, cals[i].id);
        var created := backend.CreateBlocks(cals[i], blocksToCreate);
        assert cals[..i + 1][..i] == cals[..i];
        if created.Some? {
          createdCount := createdCount + created.value;
        }
      }
      assert cals[..|cals|] == cals;
    }

    /** The inner loop of `createSyncBlocks`: the busy times of every calendar but the target, in map order. */
    method BlocksFor(busy: BusyMap, targetId: string) returns (blocksToCreate: seq<BusySlot>)
      ensures blocksToCreate == OtherBusy(busy, targetId)
    {
      blocksToCreate := [];
      for j := 0 to |busy|
        invariant blocksToCreate == OtherBusy(busy[..j], targetId)
      {
        assert busy[..j + 1][..j] == busy[..j];
        if busy[j].0 != targetId {
          blocksToCreate := blocksToCreate + busy[j].1;
        }
      }
      assert busy[..|busy|] == busy;
    }

    /** `startAutoSync()`: a running timer is replaced by one with the configured period. */
    method StartAutoSync()
      modifies this
      ensures syncInterval == Some(TimerFor(config))
      ensures calendars == old(calendars) && syncEnabled == old(syncEnabled) && config == old(config)
      ensures lastSync == old(lastSync) && syncInProgress == old(syncInProgress)
    {
      syncInterval := Some(TimerFor(config));
    }

    /** `stopAutoSync()`: no timer afterwards. */
    method StopAutoSync()
      modifies this
      ensures syncInterval.None?
      ensures calendars == old(calendars) && syncEnabled == old(syncEnabled) && config == old(config)
      ensures lastSync == old(lastSync) && syncInProgress == old(syncInProgress)
    {
      if syncInterval.Some? {
        syncInterval := None;
      }
    }

    /** `getSyncStatus()`. */
    function GetSyncStatus(): (s: Status)
      reads this
      ensures s == StatusOf(syncInProgress, syncEnabled, calendars, lastSync)
    {
      StatusOf(syncInProgress, syncEnabled, calendars, lastSync)
    }

    /** `setSyncInterval(minutes)`: saved, and a running timer restarted with the new period. */
    method SetSyncInterval(minutes: int)
      modifies this, storage
      ensures config == old(config)["syncIntervalMinutes" := JNum(minutes)]
      ensures storage.config == Saved(config) && storage.enabled == Some(BoolText(syncEnabled))
      ensures syncInterval == if old(syncInterval).Some? then Some(Timer(Some(JNum(minutes)))) else None
      ensures calendars == old(calendars) && syncEnabled == old(syncEnabled)
      ensures lastSync == old(lastSync) && syncInProgress == old(syncInProgress)
    {
      config := config["syncIntervalMinutes" := JNum(minutes)];
      SaveConfiguration();
      if syncInterval.Some? {
        StartAutoSync();
      }
    }

    /** `setBusyBlockSubject(subject)`. */
    method SetBusyBlockSubject(subject: string)
      modifies this, storage
      ensures config == old(config)["busyBlockSubject" := JStr(subject)]
      ensures storage.config == Saved(config) && storage.enabled == Some(BoolText(syncEnabled))
      ensures calendars == old(calendars) && syncEnabled == old(syncEnabled) && syncInterval == old(syncInterval)
      ensures lastSync == old(lastSync) && syncInProgress == old(syncInProgress)
    {
      config := config["busyBlockSubject" := JStr(subject)];
      SaveConfiguration();
    }

    /** `setLookAheadDays(days)`. */
    method SetLookAheadDays(days: int)
      modifies this, storage
      ensures config == old(config)["lookAheadDays" := JNum(days)]
      ensures storage.config == Saved(config) && storage.enabled == Some(BoolText(syncEnabled))
      ensures calendars == old(calendars) && syncEnabled == old(syncEnabled) && syncInterval == old(syncInterval)
      ensures lastSync == old(lastSync) && syncInProgress == old(syncInProgress)
    {
      config := config["lookAheadDays" := JNum(days)];
      SaveConfiguration();
    }

    /** `getConfiguration()`: a copy, so later changes to it do not reach the manager. */
    function GetConfiguration(): (c: Config)
      reads this
      ensures c == config
    {
      config
    }
  }

  /** One more calendar fetched: its busy times are filed and its request logged. */
  lemma FetchStep(cals: seq<CalendarInfo>, i: nat, fetch: string -> Option<seq<BusySlot>>)
    requires i < |cals|
    ensures FetchedBusy(cals[..i + 1], fetch) == Set(FetchedBusy(cals[..i], fetch), cals[i].id, fetch(cals[i].id).GetOr([]))
    ensures FetchLog(cals[..i + 1]) == FetchLog(cals[..i]) + [FetchBusyTimes(cals[i].id)]
  {
    assert cals[..i + 1][..i] == cals[..i];
  }

  /** Adding a calendar whose id is new appends it to the registry. */
  lemma RegisterNew(found: seq<CalendarInfo>, i: nat)
    requires DistinctIds(found) && i < |found|
    ensures Set(Registered(found[..i]), found[i].id, found[i]) == Registered(found[..i + 1])
  {
    var r := Registered(found[..i]);
    assert IndexOf(r, found[i].id).None? by {
      forall j | 0 <= j < i ensures r[j].0 != found[i].id {
        assert r[j].0 == found[j].id;
      }
    }
    assert found[..i + 1][..i] == found[..i];
  }
}
