# Multi-calendar busy-time sync, modelled in Dafny

This project models the two places where the multicalendarsync add-in mirrors
busy time across calendars, and proves what they promise.

1. **The test generator's mirroring pass** (`CalendarTestDataGenerator` in
   `src/testing/calendarTestGenerator.js`).
   - `parseTimeSlot` turns "HH:MM" into an instant of a base day.
   - `createMockCalendar` turns a scenario's entries into events with ids
     `<calendar>-event-<i>` and stores the list in the generator's map.
   - `simulateSync` does the pass:
     - it collects every event of every calendar as a busy time and sorts them by start;
     - target by target, it tests each busy time of the other calendars against the target's live list;
     - an overlap is reported as a conflict, otherwise a "Busy"/"private" block is pushed into that same list.

   The results object shares its arrays with the caller's object. So a block
   pushed earlier in the pass takes part in later overlap tests for the same
   target, and the model reproduces this with `EventList` objects that both
   sides reference.

2. **`CalendarSyncManager`** (`src/taskpane/calendarSync.js`). This is an object whose methods update:
   - the calendar registry, a `Map` in insertion order;
   - the enabled flag;
   - the configuration;
   - the auto-sync timer handle;
   - the last sync time;
   - the `syncInProgress` guard.

   `performSync` does three things in order:
   - it fetches every enabled calendar's busy times, where a failure gives an empty list;
   - it removes old blocks, where a failure is skipped;
   - it asks every target to create blocks for the other calendars' busy times, where a failure adds nothing.

Time is an integer number of minutes. A base date is the minute of its local midnight.

Modules, one file each:
- `Wrappers` and `Text` (text.dfy): Option/Result; decimal digits, `Number()` on digit strings, `split(':')`.
- `MockData` (mock_data.dfy): events, `parseTimeSlot`, the event list `createMockCalendar` builds.
- `Mirroring` (mirroring.dfy): the pass as functions over a snapshot of the calendars, and its properties.
- `Scenarios` (scenarios.dfy): the "Conflict Resolution Day" scenario run through the pass.
- `TestGenerator` (test_generator.dfy): the generator class, with `SimulateSync` as loops over shared event lists, proved equal to the pass.
- `SyncModel` (sync_model.dfy): the registry, configuration, status and the counts of a sync, as functions and lemmas.
- `SyncManager` (sync_manager.dfy): the manager class, local storage, and the calendar backend. The backend answers each request from fixed per-calendar outcomes and logs every request.

Two behaviours of the code are worth knowing, and the model follows the code in both:
- Conflicts are meant to be only overlaps with user-authored events. The code reports as a conflict any overlap with the target's live list, including blocks created earlier in the same pass. Those are the two extra conflicts of the "Conflict Resolution Day" scenario (`Scenarios.ConflictDayOutcome`). The code also has no delete step, no distinction between mirrored and user-authored events, and no redaction of private subjects: every block gets the subject "Busy".
- `saveConfiguration` writes only the configuration object and the global enabled flag. A toggled per-calendar flag is therefore not saved, and the model keeps it only in the registry (`SyncManager.CalendarSyncManager.ToggleCalendarSync`).

## Model

| member | source | states |
|---|---|---|
| MockData.ParseTimeSlot | src/testing/calendarTestGenerator.js:99-104 | definition of `parseTimeSlot`: split at ':', `Number` of digit-only parts (other strings: see Left out), the base day plus 60·h + m minutes when a `Date` can hold that instant, otherwise an invalid date (None); its properties are the three lemmas below |
| MockData.ParseClockText | src/testing/calendarTestGenerator.js:99-104 | on a base day a `Date` can hold, "HH:MM" with HH < 24 and MM < 60 parses to the base day plus 60·HH + MM minutes, an instant within that day |
| MockData.ParseWithoutColon | src/testing/calendarTestGenerator.js:99-104 | a slot without ':' has no minutes part, so the date is invalid (None) |
| MockData.ParseOutOfRange | src/testing/calendarTestGenerator.js:99-104 | hours that carry the instant past the ±8.64e15 ms a `Date` can hold give an invalid date |
| MockData.MockEventIdsDistinct | src/testing/calendarTestGenerator.js:109 | ids `<calendarId>-event-<i>` of one calendar are equal only for equal indices |
| MockData.MockEvents | src/testing/calendarTestGenerator.js:108-124 | definition of the `events.map(...)` of `createMockCalendar`: one event per entry, None as soon as a slot gives an invalid date; its properties are the three lemmas below |
| MockData.MockEventsDefined | src/testing/calendarTestGenerator.js:107-124 | building the events succeeds exactly when every start and end slot parses (an invalid date makes `toISOString` throw) |
| MockData.MockEventsLength | src/testing/calendarTestGenerator.js:108-124 | one event per scenario entry |
| MockData.MockEventsField | src/testing/calendarTestGenerator.js:108-124 | event i has id `<calendarId>-event-<i>`, the entry's title as subject and its location, its parsed start and end, showAs "busy" and sensitivity "normal" |
| Mirroring.IntervalsOverlap | src/testing/calendarTestGenerator.js:205-209 | definition of the overlap test `start < otherEnd && end > otherStart`, shared by `Overlaps` and `EventsOverlap`; its meaning is `OverlapsIffSharedMinute` |
| Mirroring.Overlaps | src/testing/calendarTestGenerator.js:205-209 | a busy time against one existing event, through `IntervalsOverlap` |
| Mirroring.HasConflict | src/testing/calendarTestGenerator.js:205-209 | `events.some(...)`: the busy time overlaps some event of the list |
| Mirroring.OverlapsIffSharedMinute | src/testing/calendarTestGenerator.js:205-209 | for non-empty intervals, the conflict test holds exactly when some minute lies in both half-open intervals |
| Mirroring.TouchingNeverConflicts | src/testing/calendarTestGenerator.js:205-209 | intervals that only touch at an endpoint never conflict |
| Mirroring.BusyBlock | src/testing/calendarTestGenerator.js:218-234 | the block made for a busy time is a "Busy"/"busy"/"private" block with empty location and the fixed body, and copies only the busy time's start and end |
| Mirroring.CollectBusyTimes | src/testing/calendarTestGenerator.js:184-194 | definition of `allBusyTimes` before sorting: calendar by calendar, each calendar's `BusyTimesOf`; `ForeignCount` and `CollectAll` are proved about it |
| Mirroring.SortByStart | src/testing/calendarTestGenerator.js:197 | definition of the sort by start as a stable insertion sort; `SortSorted` and `SortPermutes` are proved about it |
| Mirroring.BusyTimesOf | src/testing/calendarTestGenerator.js:186-193 | one busy time per event, in list order, carrying the calendar id, the event's start and end and the event itself |
| Mirroring.InsertSorted | src/testing/calendarTestGenerator.js:197 | inserting by start into a sorted sequence keeps it sorted and keeps every lower bound the new element respects |
| Mirroring.InsertPermutes | src/testing/calendarTestGenerator.js:197 | inserting adds exactly the new element (multiset) |
| Mirroring.SortSorted | src/testing/calendarTestGenerator.js:197 | the sort by start yields non-decreasing starts |
| Mirroring.SortPermutes | src/testing/calendarTestGenerator.js:197 | the sort is a permutation of the collected busy times |
| Mirroring.Foreign | src/testing/calendarTestGenerator.js:201 | no busy time offered to a target comes from the target itself |
| Mirroring.ForeignMembers | src/testing/calendarTestGenerator.js:201 | a busy time is offered to a target exactly when it was collected and comes from another calendar |
| Mirroring.ForeignSorted | src/testing/calendarTestGenerator.js:197-201 | filtering a sorted sequence keeps it sorted and keeps its lower bounds |
| Mirroring.ForeignInStartOrder | src/testing/calendarTestGenerator.js:184-201 | every target is handed the foreign busy times in non-decreasing start order |
| Mirroring.ForeignAppend | src/testing/calendarTestGenerator.js:201 | the filter distributes over concatenation |
| Mirroring.ForeignCount | src/testing/calendarTestGenerator.js:184-201 | a target is offered exactly as many busy times as the other calendars have events |
| Mirroring.Mirror | src/testing/calendarTestGenerator.js:203-243 | definition of the inner loop for one target: each busy time in turn against the list as the earlier ones left it, a conflict or an appended block; its properties are the Mirror lemmas below |
| Mirroring.MirrorShape | src/testing/calendarTestGenerator.js:203-243 | a target's list only grows, by busy blocks; blocks plus conflicts equal the busy times offered; every conflict names the target |
| Mirroring.MirrorStep | src/testing/calendarTestGenerator.js:203-243 | one more busy time is tested against the list as the earlier ones left it: a conflict, or a block appended |
| Mirroring.MirrorBlockSource | src/testing/calendarTestGenerator.js:218-236 | every created block carries the times of one of the offered busy times |
| Mirroring.MirrorConflictSource | src/testing/calendarTestGenerator.js:211-215 | every conflict reports one of the offered busy times against the target |
| Mirroring.MirrorBlockDisjoint | src/testing/calendarTestGenerator.js:205-236 | a created block overlaps no other entry of the target's list, original or created |
| Mirroring.SyncPass | src/testing/calendarTestGenerator.js:175-247 | definition of the whole pass: collect, sort, then the outer loop over all targets; the SyncPass lemmas below are proved about it and `SimulateSync` is proved equal to it |
| Mirroring.PassUpTo | src/testing/calendarTestGenerator.js:200-244 | the outer loop over the first n targets leaves one list per target |
| Mirroring.PassUpToList | src/testing/calendarTestGenerator.js:200-236 | target k's final list is its own mirroring; later targets do not touch it |
| Mirroring.PassUpToAccounts | src/testing/calendarTestGenerator.js:200-243 | over the first n targets, blocks plus conflicts equal the sum of the other calendars' event counts |
| Mirroring.SyncPassAccountsForEveryPair | src/testing/calendarTestGenerator.js:175-247 | `busyBlocksCreated + conflicts.length` is Σ over targets of the events in the other calendars: one outcome per pair |
| Mirroring.SyncPassAppendOnly | src/testing/calendarTestGenerator.js:218-236 | after the pass every original event is still in place, and all that follows it are "Busy"/"private" blocks |
| Mirroring.SyncPassBlockSource | src/testing/calendarTestGenerator.js:201-236 | a block in a target copies only the start and end of a busy time from another calendar |
| Mirroring.SyncPassNoOverlap | src/testing/calendarTestGenerator.js:177-236 | after the pass no created block overlaps another created block or an original event of the same target |
| Mirroring.PassUpToConflict | src/testing/calendarTestGenerator.js:200-215 | every conflict names a processed target and a different source calendar |
| Mirroring.SyncPassNoSelfConflicts | src/testing/calendarTestGenerator.js:201-215 | no target is reported in conflict with its own events |
| Mirroring.PassUpToUpdatedKeys | src/testing/calendarTestGenerator.js:239-241 | for distinct calendar ids the updated list has no duplicates |
| Mirroring.PassUpToUpdatedSound | src/testing/calendarTestGenerator.js:236-241 | a calendar in the updated list received at least one block |
| Mirroring.PassUpToUpdatedComplete | src/testing/calendarTestGenerator.js:236-241 | a target that received a block is in the updated list |
| Mirroring.SyncPassUpdated | src/testing/calendarTestGenerator.js:236-241 | `calendarsUpdated` has no duplicates and holds exactly the targets that received at least one block |
| Scenarios.ConflictDayMockCalendars | src/testing/calendarTestGenerator.js:48-59 | the scenario's "HH:MM" entries become the three mock calendars at 10:00-11:00, 14:00-15:00, 10:30-11:30 and 14:15-14:45 |
| Scenarios.ThreeCalendarPass | src/testing/calendarTestGenerator.js:200-243 | with two calendars whose events cross-overlap and an empty third, the pass gives the third two blocks and two conflicts against those blocks, the others two conflicts each |
| Scenarios.ConflictDayOutcome | src/testing/calendarTestGenerator.js:48-59 | "Conflict Resolution Day": 2 blocks, 6 conflicts, only "personal" updated; work-company1 gets conflicts 10:30-11:30 and 14:15-14:45 from work-company2, work-company2 gets 10:00-11:00 and 14:00-15:00 from work-company1, personal gets the blocks 10:00-11:00 and 14:00-15:00 and conflicts 10:30-11:30 and 14:15-14:45 from work-company2 |
| TestGenerator.EventList.Push | src/testing/calendarTestGenerator.js:236 | `push` appends to the shared array |
| TestGenerator.CalendarTestDataGenerator.constructor | src/testing/calendarTestGenerator.js:5-8 | the map of mock calendars starts empty |
| TestGenerator.CalendarTestDataGenerator.CreateMockCalendar | src/testing/calendarTestGenerator.js:107-127 | when every slot parses, a fresh list holding the mock events is stored under the id, replacing any earlier one, and returned; otherwise nothing is stored |
| TestGenerator.CalendarTestDataGenerator.SimulateSync | src/testing/calendarTestGenerator.js:175-247 | the shared lists end as the pass's lists; counts, conflicts and updated calendars are the pass's; the results' calendars are the caller's lists |
| TestGenerator.CalendarTestDataGenerator.SyncTargets | src/testing/calendarTestGenerator.js:200-244 | the outer loop: every list is mirrored with the busy times of the other calendars, the results accumulate |
| TestGenerator.CalendarTestDataGenerator.SyncTarget | src/testing/calendarTestGenerator.js:200-243 | one round of the outer loop advances the results by one target and changes only that target's list |
| TestGenerator.CalendarTestDataGenerator.CollectAll | src/testing/calendarTestGenerator.js:184-194 | the collection loop gives every event of every calendar, calendar by calendar |
| TestGenerator.CalendarTestDataGenerator.CollectFrom | src/testing/calendarTestGenerator.js:186-193 | one calendar's events are appended as busy times, in list order |
| TestGenerator.CalendarTestDataGenerator.MirrorInto | src/testing/calendarTestGenerator.js:203-243 | the inner loop leaves the live list and the results as mirroring the offered busy times into the original list prescribes |
| TestGenerator.CalendarTestDataGenerator.MirrorOne | src/testing/calendarTestGenerator.js:205-241 | an overlap with the live list adds a conflict and leaves the list; otherwise a block is pushed, counted, and the target recorded once |
| SyncModel.Get | src/taskpane/calendarSync.js:191 | definition of `map.get(k)`: the value of the entry with key k, or nothing; `SetThenGet` states its relation to `Set` |
| SyncModel.Set | src/taskpane/calendarSync.js:175 | definition of `map.set(k, v)`: an existing key keeps its place, a new key goes last; `SetThenGet` and `SetKeys` are proved about it |
| SyncModel.SetThenGet | src/taskpane/calendarSync.js:173-176 | after `map.set(k, v)`, `get(k)` is v and every other key is untouched |
| SyncModel.SetKeys | src/taskpane/calendarSync.js:173-176 | `set` keeps keys distinct and in insertion order, a new key going last |
| SyncModel.EnabledCalendars | src/taskpane/calendarSync.js:224-225 | the filter keeps only enabled calendars |
| SyncModel.EnabledMembers | src/taskpane/calendarSync.js:224-225 | a calendar is kept exactly when it is enabled and is a value of the registry |
| SyncModel.EnabledAppend | src/taskpane/calendarSync.js:224-225 | the filter keeps the registry's order: it distributes over concatenation |
| SyncModel.EnabledIdsDistinct | src/taskpane/calendarSync.js:224-225 | the enabled calendars of a consistent registry have distinct ids |
| SyncModel.Registered | src/taskpane/calendarSync.js:173-176 | entry i of the refilled registry is calendar i under its own id |
| SyncModel.RegisteredConsistent | src/taskpane/calendarSync.js:173-176 | filling from calendars with distinct ids gives a consistent registry |
| SyncModel.DiscoveredIdsDistinct | src/taskpane/calendarSync.js:135-171 | the five discovered calendars have distinct ids |
| SyncModel.DiscoveredEnabledCount | src/taskpane/calendarSync.js:135-176 | three of them are enabled |
| SyncModel.Toggled | src/taskpane/calendarSync.js:190-202 | unknown id: no registry ("Calendar not found"); else the same keys in order, the named calendar's flag flipped and every other entry unchanged |
| SyncModel.ToggleTwice | src/taskpane/calendarSync.js:190-202 | toggling the same calendar twice restores the registry |
| SyncModel.ToggledConsistent | src/taskpane/calendarSync.js:190-202 | toggling keeps every calendar under its own id |
| SyncModel.ToggleEnabledCount | src/taskpane/calendarSync.js:190-202 | toggling changes the number of enabled calendars by exactly one, down if it was enabled |
| SyncModel.Merge | src/taskpane/calendarSync.js:109 | `{...config, ...parsed}`: saved keys override, the others keep their current value |
| SyncModel.Loaded | src/taskpane/calendarSync.js:104-119 | malformed saved text leaves configuration and flag as they were; otherwise the flag is true iff the stored text is exactly "true"; nothing saved keeps the configuration, a saved one is `Merge`d over it |
| SyncModel.SaveThenLoad | src/taskpane/calendarSync.js:104-128 | loading what `saveConfiguration` wrote gives back the flag and the configuration |
| SyncModel.StatusOf | src/taskpane/calendarSync.js:393-426 | Syncing iff in progress; else Stopped iff disabled; else Error iff fewer than two enabled; else Active; `lastSync` passed through |
| SyncModel.ActiveMessageCount | src/taskpane/calendarSync.js:421-425 | the Active message reads "Monitoring <n> calendars" with n the number of enabled calendars |
| SyncModel.FetchedBusy | src/taskpane/calendarSync.js:258-275 | definition of the map `getBusyTimesFromCalendars` fills: each calendar's busy times set under its id, an empty list for a failed fetch; `FetchedBusyEntries` is proved about it |
| SyncModel.FetchedBusyEntries | src/taskpane/calendarSync.js:258-275 | one entry per calendar, in order, holding its busy times or an empty list when the fetch failed |
| SyncModel.RemovedTotal | src/taskpane/calendarSync.js:302-318 | definition of the removal count: the sum of the successful removals' counts; the two lemmas below are proved about it |
| SyncModel.RemovedTotalAppend | src/taskpane/calendarSync.js:302-318 | removal counts add up over consecutive runs of calendars |
| SyncModel.RemovalFailureSkipped | src/taskpane/calendarSync.js:302-318 | a calendar whose removal fails is skipped and the others still count |
| SyncModel.OtherBusy | src/taskpane/calendarSync.js:334-341 | definition of `blocksToCreate`: the busy times of every source but the target, in map order |
| SyncModel.OtherBusyCount | src/taskpane/calendarSync.js:337-341 | a target's blocks to create and its own busy times together are all busy times fetched |
| SyncModel.CreatedTotal | src/taskpane/calendarSync.js:328-353 | definition of the created count: per target, the number of other sources' busy times, or 0 when its create step fails; the lemmas below are proved about it |
| SyncModel.CreatedTotalAppend | src/taskpane/calendarSync.js:328-353 | created counts add up over consecutive runs of targets |
| SyncModel.CreateFailureContributesNothing | src/taskpane/calendarSync.js:328-353 | a target whose create step fails contributes 0 |
| SyncModel.CreatedWhenAllSucceed | src/taskpane/calendarSync.js:328-368 | with no failed create step, created plus the targets' own busy times is targets × all busy times |
| SyncModel.OwnBusyOfFetched | src/taskpane/calendarSync.js:258-275 | the own busy times of the fetched calendars sum to all busy times fetched |
| SyncModel.SuccessfulPassCount | src/taskpane/calendarSync.js:328-368 | with every create step succeeding, n calendars with distinct ids create (n - 1) blocks per busy time fetched, i.e. Σ_T Σ_{S≠T} busy[S] |
| SyncModel.RegistryPassCount | src/taskpane/calendarSync.js:224-238 | the same count for the calendars a consistent registry enables |
| SyncManager.CalendarBackend.GetBusyTimes | src/taskpane/calendarSync.js:277-300 | a calendar's busy times or a failure, the request logged |
| SyncManager.CalendarBackend.RemoveBlocks | src/taskpane/calendarSync.js:320-326 | a removal count or a failure, the request logged |
| SyncManager.CalendarBackend.CreateBlocks | src/taskpane/calendarSync.js:355-368 | the number of blocks asked for, or a failure, the request logged |
| SyncManager.LocalStorage.constructor | src/taskpane/calendarSync.js:104-128 | storage holds what the keys 'calendarSync_config' and 'calendarSync_enabled' hold |
| SyncManager.FetchLog | src/taskpane/calendarSync.js:261-266 | calendar i is asked for its busy times, one request per calendar in order |
| SyncManager.RemoveLog | src/taskpane/calendarSync.js:305-310 | calendar i is asked to remove its blocks, one request per calendar in order |
| SyncManager.TimerFor | src/taskpane/calendarSync.js:375-380 | definition of the timer `startAutoSync` starts: it carries the configured `syncIntervalMinutes` value, nothing when the key is absent; `StartAutoSync` and `Initialize` state how it is installed |
| SyncManager.CreateLog | src/taskpane/calendarSync.js:332-344 | target i is asked to create every other calendar's busy times |
| SyncManager.CalendarSyncManager.constructor | src/taskpane/calendarSync.js:9-24 | disabled, no calendars, no timer, no last sync, not in progress, the default configuration |
| SyncManager.CalendarSyncManager.Initialize | src/taskpane/calendarSync.js:26-63 | configuration loaded, the five calendars registered, the timer started only when sync is enabled |
| SyncManager.CalendarSyncManager.LoadConfiguration | src/taskpane/calendarSync.js:104-119 | configuration and flag become `Loaded` of what storage holds; nothing else changes |
| SyncManager.CalendarSyncManager.SaveConfiguration | src/taskpane/calendarSync.js:121-128 | storage holds the configuration and "true"/"false" for the flag |
| SyncManager.CalendarSyncManager.DiscoverCalendars | src/taskpane/calendarSync.js:130-184 | the registry is cleared and refilled with the five calendars, consistent, three enabled; nothing else changes |
| SyncManager.CalendarSyncManager.AvailableCalendars | src/taskpane/calendarSync.js:186-188 | the registry's calendars in insertion order |
| SyncManager.CalendarSyncManager.ToggleCalendarSync | src/taskpane/calendarSync.js:190-202 | unknown id: "Calendar not found", nothing changes; else the registry is `Toggled`, the new flag (the old one negated) is returned and the configuration saved |
| SyncManager.CalendarSyncManager.PerformSync | src/taskpane/calendarSync.js:204-256 | re-entry: "Sync already in progress", the flag stays set, nothing else changes; past the guard the flag is clear on exit; fewer than two enabled: an error before any request; else fetch, remove, create requests in that order, counts `CreatedTotal`/`RemovedTotal`, `lastSync` set and returned |
| SyncManager.CalendarSyncManager.SyncCalendars | src/taskpane/calendarSync.js:231-248 | the three steps in order and the report of their counts |
| SyncManager.CalendarSyncManager.GetBusyTimesFromCalendars | src/taskpane/calendarSync.js:258-275 | the loop yields `FetchedBusy`: a failed fetch files an empty list; one request per calendar |
| SyncManager.CalendarSyncManager.RemoveExistingSyncBlocks | src/taskpane/calendarSync.js:302-318 | the loop yields `RemovedTotal`, a failed removal counting nothing |
| SyncManager.CalendarSyncManager.CreateSyncBlocks | src/taskpane/calendarSync.js:328-353 | the loop yields `CreatedTotal`, a failed create step counting nothing; one request per target |
| SyncManager.CalendarSyncManager.BlocksFor | src/taskpane/calendarSync.js:334-341 | the busy times of every calendar but the target, in map order |
| SyncManager.CalendarSyncManager.StartAutoSync | src/taskpane/calendarSync.js:370-383 | a timer with the configured period replaces any running one |
| SyncManager.CalendarSyncManager.StopAutoSync | src/taskpane/calendarSync.js:385-391 | no timer afterwards |
| SyncManager.CalendarSyncManager.GetSyncStatus | src/taskpane/calendarSync.js:393-426 | the status ladder `StatusOf` of the current fields |
| SyncManager.CalendarSyncManager.SetSyncInterval | src/taskpane/calendarSync.js:429-436 | the period is set and saved; the timer is restarted with it only when one is running |
| SyncManager.CalendarSyncManager.SetBusyBlockSubject | src/taskpane/calendarSync.js:438-441 | the subject is set and saved |
| SyncManager.CalendarSyncManager.SetLookAheadDays | src/taskpane/calendarSync.js:443-446 | the look-ahead is set and saved |
| SyncManager.CalendarSyncManager.GetConfiguration | src/taskpane/calendarSync.js:448-450 | a copy of the configuration |

## Left out

- The Office host checks of `initialize` and `requestPermissions` (calendarSync.js:30-44, 65-102) are not modelled. They only log, or throw when Office.js is absent, which is outside the model.
- `localStorage` and `JSON.parse`/`JSON.stringify` are not modelled as text. Storage holds the parsed configuration, or a marker for text that does not parse. A write that throws is not modelled.
- The `simulate*` stubs are not modelled as written. Their timer delays and random numbers become fixed per-calendar outcomes of the backend object: busy times or a failure, a removal count or a failure, and whether a create step fails.
- `setInterval` and `clearInterval` are modelled only as the handle the manager holds. The handle records the period it was started with. Its callback is not modelled.
- The day window computed at calendarSync.js:216-221 is not modelled: it is never used. The `targetDate` of `performSync` only feeds a log line, so it is not a parameter. `new Date()` for `lastSync` is the parameter `now`.
- `Date`, ISO strings, time zones, `toLocaleTimeString` and daylight-saving shifts are not modelled. Instants are integer minutes. A conflict keeps its instants and the two calendar ids its description is made of. The range a `Date` can hold (±8.64e15 ms) is applied to the instant as if local time were UTC.
- The random block ids (`sync-busy-<time>-<random>`) are not modelled. Every block has the id "sync-busy".
- `testSyncScenario`, `displayCalendarState`, `runTestSuite` and the scenario data other than "Conflict Resolution Day" are not modelled. `displayCalendarState` sorts each calendar's array in place by start (calendarTestGenerator.js:256) before printing it. `testSyncScenario` builds the calendars, calls it on the same arrays before and after `simulateSync`, and runs `simulateSync` between the two calls. That in-place reordering is outside the model: `SimulateSync` takes the lists in whatever order they arrive.
- MockData.ParseTimeSlot: `Number()` is modelled on digit strings only (the empty string is 0, as in JavaScript). Other strings that JavaScript turns into a number give None here, so the model reports an invalid date where the source builds one: signs ("+9", "-1"), surrounding spaces, decimals ("9.5"), exponents ("1e1" is 10), hexadecimal ("0x9"), binary ("0b1") and octal ("0o7"). ("Infinity" gives an invalid date in JavaScript too.) MockData.ParseClockText is unaffected: it is about two-digit "HH:MM" text.
- Mirroring.SortSorted: the sort is proved ordered and a permutation (Mirroring.SortPermutes). The insertion sort is stable like the ECMAScript sort, but stability is not proved.
- TestGenerator.CalendarTestDataGenerator.SimulateSync: requires that different calendars hold different arrays. `createMockCalendar` always makes a fresh array. A caller that puts one array under two keys is not modelled.
- SyncManager.CalendarSyncManager.ToggleCalendarSync: the registry holds calendar values. The source flips the flag on the calendar object itself, which the arrays returned earlier by `getAvailableCalendars` also see. That aliasing is not modelled.
- SyncModel.SuccessfulPassCount: the closed form Σ_T Σ_{S≠T} |busy[S]| = (n - 1)·Σ|busy| is proved for runs in which every create step succeeds. With failures the count is `CreatedTotal`, and SyncModel.CreateFailureContributesNothing says what a failure removes.
- Asynchronous interleaving is not modelled. Each `await` is read as sequential code, and a second `performSync` can only start between two calls.
