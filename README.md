# SpaceX / Roadster — a verified Dafny model

This project models the logic of a Unity application with two screens.

The **Roadster screen** replays the orbit of Elon Musk's Tesla Roadster from a CSV table of
orbital elements. `RoadsterSimulation` loads the table. It skips the header, blank lines and
lines whose parse throws. It sorts the records into a *primary* list (2018-02-07 to
2019-10-08 inclusive) and an *extended* list (anything later). It then plays them back in one
of two modes:

- **Required mode** steps one record per tick.
- **Optional mode** interpolates between consecutive extended records. Each segment's duration
  follows the time gap between the two records, with a cap.

Either way, the emitted positions feed a bounded trail. `OrbitalData` turns one CSV line into
a record.

The **Launches screen** lists SpaceX launches:

- `SpaceXAPIManager` fetches launches, rockets and ships, and keeps replies in a ten-minute
  cache. An expired entry is evicted when it is looked up.
- `SpaceXModels` holds the records and their small helpers: the launch date, the upcoming test,
  the mission count and cache-entry validity.
- `LaunchesBrowser` sorts the launches latest first and preloads each distinct rocket once. It
  filters by a past/upcoming dropdown and a case-insensitive name search, and fills list items
  taken from an `ObjectPool`.

How the model is built:

- **Pure code is functions.** This covers parsing, keys, validity tests, sorting, the filter
  pipelines and the playback step rules. Lemmas state what the code promises about them.
- **State-changing code is classes.** `Simulation`, `ObjectPool`, `SpaceXAPIManager` and
  `LaunchesBrowser` hold the source's fields. Each method's `ensures` ties its new state to the
  specification functions. Loops carry their invariants.
- **The outside world is parameters.** The clock is `now` (and `receivedAt` for a reply's
  arrival). Library parsers (`double.Parse`, `DateTime.Parse`/`TryParse`, `JsonUtility`) are
  function-typed parameters. The Kepler solver is `Config.position`. A web request is its
  `Response`, and each rocket request of the preload loop is `fetch(id)`.

Times are whole seconds since 0001-01-01 (`DateTime.MinValue` is 0). Floating-point values are
`real`s.

A loop pass does nothing while the *primary* list is empty, in optional mode too
(`RoadsterSimulation.cs:211`); see `RoadsterSimulation.EmptyPrimaryIsNoOp`.

Some lemmas are proof steps only and have no row below: `RoadsterSimulation.AppendAssoc` (sequence
associativity for the loading loop), `RoadsterSimulation.DivideMonotone` and
`RoadsterSimulation.AdvancedNonNegative` (real arithmetic behind `DurationBounded` and the
non-negativity lemmas), and `Seqs.IndexOfPrefix` (behind `Seqs.DistinctFirstOccurrenceOrder`).

## Model

| member | source | states |
|---|---|---|
| OrbitalData.FirstBadField | Assets/Scripts/RoadsterScripts/OrbitalData.cs:24-32 | The result is None iff every field from i up to 8 parses; otherwise it is the first field that does not parse, and all fields before it parse |
| OrbitalData.ShortLineGivesDefault | Assets/Scripts/RoadsterScripts/OrbitalData.cs:6-20 | A line of fewer than nine comma-separated fields does not throw: it yields the default record (date MinValue, numbers 0) |
| OrbitalData.ParseFailsIffFieldFails | Assets/Scripts/RoadsterScripts/OrbitalData.cs:20-32 | A line of nine or more fields fails iff one of its first nine fields does not parse; the failure names the first such field, so no partly filled record escapes |
| OrbitalData.ParseFieldMapping | Assets/Scripts/RoadsterScripts/OrbitalData.cs:18-32 | Fields 0..8, each trimmed, fill epoch, date, semi-major axis, eccentricity, inclination, ascending node, argument of periapsis, mean anomaly and true anomaly in that order |
| OrbitalData.ExtraFieldsIgnored | Assets/Scripts/RoadsterScripts/OrbitalData.cs:20-33 | Appending further fields to a line of nine or more leaves the parse result unchanged |
| OrbitalData.AllFieldsParse | Assets/Scripts/RoadsterScripts/OrbitalData.cs:24-32 | When no field fails, every one of the nine parses succeeds |
| OrbitalData.FirstBadFieldPrefix | Assets/Scripts/RoadsterScripts/OrbitalData.cs:24-32 | Only the first nine fields decide which field fails first |
| Text.TrimSpec | Assets/Scripts/RoadsterScripts/OrbitalData.cs:24 | string.Trim returns a contiguous slice of its input whose ends are not white space; it is empty iff the input is all white space |
| Text.TrimStart | Assets/Scripts/RoadsterScripts/RoadsterSimulation.cs:73 | Drops exactly the leading white space: the result is a suffix, what was dropped is white space, and the result starts with a non-white character or is empty |
| Text.TrimEnd | Assets/Scripts/RoadsterScripts/RoadsterSimulation.cs:73 | Drops exactly the trailing white space: the result is a prefix, what was dropped is white space, and the result ends with a non-white character or is empty |
| Text.SplitJoin | Assets/Scripts/RoadsterScripts/OrbitalData.cs:18 | string.Split loses nothing: joining the pieces with the separator gives back the line |
| Text.JoinSplit | Assets/Scripts/RoadsterScripts/OrbitalData.cs:18 | Splitting a join of separator-free pieces gives back those pieces |
| Text.SplitPiecesFree | Assets/Scripts/RoadsterScripts/OrbitalData.cs:18 | No piece of a split contains the separator |
| Text.SplitWithoutSeparator | Assets/Scripts/RoadsterScripts/RoadsterSimulation.cs:63 | A text without the separator splits into one piece, itself |
| Text.SplitConcat | Assets/Scripts/RoadsterScripts/OrbitalData.cs:18 | Splitting a + sep + b gives the pieces of a followed by the pieces of b |
| Text.SplitConsAppend | Assets/Scripts/RoadsterScripts/OrbitalData.cs:18 | Adding a character in front of a split only touches its first piece |
| Text.RemoveChar | Assets/Scripts/RoadsterScripts/RoadsterSimulation.cs:73 | Replace("\r", "") leaves no '\r'; the result has the input's characters with every '\r' taken out (same multiset with the '\r' count set to 0) and keeps their order (a subsequence of the input) |
| Text.ToLower | Assets/Scripts/LaunchesScripts/LaunchesBrowser.cs:143-145 | Lower-casing keeps the length, maps each of `A`–`Z` to the matching `a`–`z`, leaves every other character unchanged, and so leaves no upper-case ASCII letter |
| Text.ToLowerIdempotent | Assets/Scripts/LaunchesScripts/LaunchesBrowser.cs:143-145 | Lower-casing twice is lower-casing once |
| RoadsterSimulation.Simulation.LoadOrbitalData | Assets/Scripts/RoadsterScripts/RoadsterSimulation.cs:55-96 | A missing file loads nothing. Otherwise the lists gain, in row order, the primary-window and later-dated records of the parsed rows after the header, and the playback invariant is kept |
| RoadsterSimulation.Simulation.AddRows | Assets/Scripts/RoadsterScripts/RoadsterSimulation.cs:66-96 | The loop from line 1 to the end appends to each list exactly its share of the parsed rows |
| RoadsterSimulation.Simulation.AddRow | Assets/Scripts/RoadsterScripts/RoadsterSimulation.cs:68-94 | One row: a blank row or one whose parse throws adds nothing; otherwise its record goes to the primary list, the extended list or neither, by date |
| RoadsterSimulation.RowRecords | Assets/Scripts/RoadsterScripts/RoadsterSimulation.cs:68-94 | A row contributes at most one record |
| RoadsterSimulation.ParsedRowsConcat | Assets/Scripts/RoadsterScripts/RoadsterSimulation.cs:66-96 | Rows load independently: the records of a + b are those of a followed by those of b |
| RoadsterSimulation.BadRowSkipped | Assets/Scripts/RoadsterScripts/RoadsterSimulation.cs:68-94 | A blank row, or one whose parse throws, is skipped and the rows after it still load |
| RoadsterSimulation.EmptyRowSkipped | Assets/Scripts/RoadsterScripts/RoadsterSimulation.cs:66-96 | A row contributing nothing leaves the records of the rows around it unchanged |
| RoadsterSimulation.ParsedRowsSingle | Assets/Scripts/RoadsterScripts/RoadsterSimulation.cs:68-94 | A single row's records are that row's contribution |
| RoadsterSimulation.RowRecordsOfBadRow | Assets/Scripts/RoadsterScripts/RoadsterSimulation.cs:68-94 | A blank or unparseable row contributes nothing |
| RoadsterSimulation.LoadStart | Assets/Scripts/RoadsterScripts/RoadsterSimulation.cs:66 | Before line 1 nothing is loaded |
| RoadsterSimulation.LoadStep | Assets/Scripts/RoadsterScripts/RoadsterSimulation.cs:66-96 | Loading line i appends that line's share to each list |
| RoadsterSimulation.PartitionConcat | Assets/Scripts/RoadsterScripts/RoadsterSimulation.cs:78-88 | Each list's share of two runs of records is the share of the first followed by the share of the second |
| RoadsterSimulation.SingleRecordPartition | Assets/Scripts/RoadsterScripts/RoadsterSimulation.cs:78-88 | One record goes to the primary list iff its date is in the window, and to the extended list iff its date is after the window |
| RoadsterSimulation.Partition | Assets/Scripts/RoadsterScripts/RoadsterSimulation.cs:78-88 | The primary list holds exactly the records dated in [2018-02-07, 2019-10-08], the extended list exactly those dated later, earlier records are in neither, and both keep input order |
| RoadsterSimulation.WindowEdges | Assets/Scripts/RoadsterScripts/RoadsterSimulation.cs:78-85 | Both window ends are primary; 2019-10-08 06:00 is extended and not primary; 2018-02-06 is in neither list |
| RoadsterSimulation.ShortRowDropped | Assets/Scripts/RoadsterScripts/OrbitalData.cs:20 | A non-blank row of fewer than nine fields yields the default record, which lands in neither list |
| RoadsterSimulation.LerpEndpointsAndWeights | Assets/Scripts/RoadsterScripts/RoadsterSimulation.cs:282-284 | The blend between two positions starts at the first, ends at the second, and weighs them by 1 - t and t in every coordinate |
| RoadsterSimulation.SegmentDuration | Assets/Scripts/RoadsterScripts/RoadsterSimulation.cs:164-191 | The duration is 1 outside optional mode, with fewer than 2 extended records, or at the last index. For a gap of at most 24 h, duration times speed equals the gap. For a longer gap it is min(gap / (speed × multiplier), cap): never above the cap, and either the cap or exactly gap / (speed × multiplier), which it never exceeds when the divisor is positive. A zero divisor gives the cap |
| RoadsterSimulation.DurationBounded | Assets/Scripts/RoadsterScripts/RoadsterSimulation.cs:164-191 | With chronological data and positive settings, the duration is non-negative and at most the largest of 1 s, 24 h at the current speed, and the cap |
| RoadsterSimulation.TrailAfter | Assets/Scripts/RoadsterScripts/RoadsterSimulation.cs:336-346 | A bounded trail stays bounded. A point far enough from the last one is appended at the end, in order: while there is room the trail becomes trail + [p]; when it is full the oldest entry is dropped and it becomes trail[1..] + [p]. A point too close leaves the trail unchanged |
| RoadsterSimulation.Simulation.UpdateTrail | Assets/Scripts/RoadsterScripts/RoadsterSimulation.cs:336-346 | The trail becomes TrailAfter of the old trail and the new point |
| RoadsterSimulation.Simulation.UpdateInterpolationDuration | Assets/Scripts/RoadsterScripts/RoadsterSimulation.cs:164-191 | The stored duration becomes SegmentDuration of the current mode, index and speed |
| RoadsterSimulation.Simulation.ToggleMode | Assets/Scripts/RoadsterScripts/RoadsterSimulation.cs:129-154 | The state becomes Toggled of the old state, and the playback invariant is kept |
| RoadsterSimulation.ToggleProperties | Assets/Scripts/RoadsterScripts/RoadsterSimulation.cs:129-154 | A toggle rewinds index and progress to 0 and empties the trail, giving a state that satisfies the invariant; toggling twice restores the mode and sets that mode's speed (24 or 240) |
| RoadsterSimulation.Simulation.UpdateRoadsterPositionRequired | Assets/Scripts/RoadsterScripts/RoadsterSimulation.cs:243-262 | The step matches RequiredUpdate: with an index in range and a roadster, it emits the record's position and adds it to the trail; otherwise it changes nothing |
| RoadsterSimulation.Simulation.UpdateRoadsterPositionOptional | Assets/Scripts/RoadsterScripts/RoadsterSimulation.cs:264-302 | The step matches OptionalUpdate, the optional-mode rule as written: the duration is recomputed before the index wraps (see Findings) |
| RoadsterSimulation.Simulation.Tick | Assets/Scripts/RoadsterScripts/RoadsterSimulation.cs:205-241 | One loop pass matches LoopTick and keeps the playback invariant |
| RoadsterSimulation.Simulation.constructor | Assets/Scripts/RoadsterScripts/RoadsterSimulation.cs:25-44 | The field initializers: required mode, index 0, progress 0, duration 1, speed 24, empty lists and trail |
| RoadsterSimulation.InitialInvariant | Assets/Scripts/RoadsterScripts/RoadsterSimulation.cs:25-44 | The initial state satisfies the playback invariant |
| RoadsterSimulation.TickKeepsInvariant | Assets/Scripts/RoadsterScripts/RoadsterSimulation.cs:205-302 | Every loop pass keeps the speed that matches the mode, the index in range, progress below 1 and the trail within its length |
| RoadsterSimulation.RequiredTickCycles | Assets/Scripts/RoadsterScripts/RoadsterSimulation.cs:221-232 | A required-mode pass sets the index to (index + 1) mod count, empties the trail when it wraps, and emits exactly when the roadster exists |
| RoadsterSimulation.EmptyPrimaryIsNoOp | Assets/Scripts/RoadsterScripts/RoadsterSimulation.cs:209-215 | With no primary records a pass changes nothing and emits nothing, in optional mode too |
| RoadsterSimulation.OptionalTickShape | Assets/Scripts/RoadsterScripts/RoadsterSimulation.cs:264-302 | With fewer than 2 extended records or no roadster nothing changes. Otherwise a pass emits the blend of the current segment's two records at the current progress and adds that point to the trail. While progress + dt/duration stays below 1, only progress and the trail change. When it reaches 1 and a next segment remains, the index moves on by one, progress resets and the duration becomes that segment's. After the last segment, the index wraps to 0 with progress 0, an empty trail and, as written, duration 1 |
| RoadsterSimulation.ProgressStaysNonNegative | Assets/Scripts/RoadsterScripts/RoadsterSimulation.cs:264-302 | With chronological data and positive settings, progress and duration never become negative |
| RoadsterSimulation.OptionalProgressNonNegative | Assets/Scripts/RoadsterScripts/RoadsterSimulation.cs:264-302 | The same for the optional-mode step alone |
| RoadsterSimulation.StaleDurationAfterWrap | Assets/Scripts/RoadsterScripts/RoadsterSimulation.cs:291-301 | For three records 48 h apart, finishing the last segment wraps to index 0 with duration 1, although segment 0 calls for 0.2 s |
| RoadsterSimulation.CorrectionOnlyChangesDuration | Assets/Scripts/RoadsterScripts/RoadsterSimulation.cs:291-301 | The corrected rule emits the same position and reaches the same index, progress and trail as the rule as written; only the stored duration can differ |
| RoadsterSimulation.CorrectedKeepsDurationCurrent | Assets/Scripts/RoadsterScripts/RoadsterSimulation.cs:291-301 | With the duration recomputed after the wrap, every optional pass keeps the invariant and the stored duration equal to the current segment's |
| ObjectPooling.ObjectPool.constructor | Assets/Scripts/LaunchesScripts/ObjectPool.cs:13-22 | The queue holds initialSize new inactive objects (none if it is negative) and the active list is empty |
| ObjectPooling.ObjectPool.CreateNewObject | Assets/Scripts/LaunchesScripts/ObjectPool.cs:24-30 | A new inactive object is enqueued at the back and returned |
| ObjectPooling.ObjectPool.Get | Assets/Scripts/LaunchesScripts/ObjectPool.cs:32-45 | Returns the front of the queue, or a new object when the queue is empty; activates it and appends it to the active list; the total grows only when the queue was empty |
| ObjectPooling.ObjectPool.Return | Assets/Scripts/LaunchesScripts/ObjectPool.cs:47-59 | Null changes nothing. Otherwise the object is deactivated, its first occurrence leaves the active list, and it is enqueued even if it was not active. The total is unchanged when it was active |
| ObjectPooling.ObjectPool.ReturnAll | Assets/Scripts/LaunchesScripts/ObjectPool.cs:61-71 | The active list becomes empty and the queue gains the previously active objects in active-list order, all deactivated |
| ObjectPooling.ObjectPool.GetActiveObjects | Assets/Scripts/LaunchesScripts/ObjectPool.cs:73-76 | Returns a copy equal to the active list |
| ObjectPooling.ReturnMovesOneObject | Assets/Scripts/LaunchesScripts/ObjectPool.cs:51-53 | Returning an active object keeps the total; returning an inactive one adds one reference to the queue |
| ObjectPooling.ReturnHeadRemovesHead | Assets/Scripts/LaunchesScripts/ObjectPool.cs:61-71 | Returning the head of the active list removes exactly the head |
| Seqs.RemoveFirst | Assets/Scripts/LaunchesScripts/ObjectPool.cs:52 | List.Remove shortens the list by one when the element is present and leaves it unchanged otherwise |
| Seqs.RemoveFirstMultiset | Assets/Scripts/LaunchesScripts/ObjectPool.cs:52 | List.Remove takes away one copy of the element and nothing else |
| Seqs.RemoveFirstAt | Assets/Scripts/LaunchesScripts/ObjectPool.cs:52 | List.Remove cuts out exactly the first occurrence |
| Seqs.IndexOf | Assets/Scripts/LaunchesScripts/ObjectPool.cs:52 | The position found holds the element and no earlier position does |
| SpaceXModels.GetLaunchDate | Assets/Scripts/LaunchesScripts/SpaceXModels.cs:19-24 | The parsed date when it parses, DateTime.MinValue when it is null or does not parse |
| SpaceXModels.UpcomingFlagWins | Assets/Scripts/LaunchesScripts/SpaceXModels.cs:26-29 | A launch with the upcoming flag set is upcoming at every instant |
| SpaceXModels.UpcomingByDate | Assets/Scripts/LaunchesScripts/SpaceXModels.cs:26-29 | Without the flag, a launch is upcoming iff its date parses and lies strictly after now |
| SpaceXModels.UnparseableIsPast | Assets/Scripts/LaunchesScripts/SpaceXModels.cs:21-28 | A launch with no flag and a missing or unparseable date is never upcoming |
| SpaceXModels.UpcomingIsMonotone | Assets/Scripts/LaunchesScripts/SpaceXModels.cs:26-29 | A launch upcoming at a later instant is upcoming at every earlier one |
| SpaceXModels.GetMissionCount | Assets/Scripts/LaunchesScripts/SpaceXModels.cs:53-56 | 0 for a null list, otherwise the list's length (never negative) |
| SpaceXModels.ExpiryIsPermanent | Assets/Scripts/LaunchesScripts/SpaceXModels.cs:83-86 | An entry invalid at some instant is invalid at every later one |
| SpaceXModels.ValidWindow | Assets/Scripts/LaunchesScripts/SpaceXModels.cs:83-86 | An entry is valid iff fewer than lifetime seconds have elapsed; at exactly the lifetime it has expired |
| SpaceXModels.DefaultLifetimeWindow | Assets/Scripts/LaunchesScripts/SpaceXModels.cs:81-86 | With the default lifetime an entry is valid for the 600 seconds after it is stored |
| SpaceXAPI.KeysDisjoint | Assets/Scripts/LaunchesScripts/SpaceXAPIManager.cs:63-145 | The launches, rocket and ship keys never coincide |
| SpaceXAPI.KeysInjective | Assets/Scripts/LaunchesScripts/SpaceXAPIManager.cs:108-145 | Distinct ids give distinct keys; a null ship id shares the key of the empty id |
| SpaceXAPI.KeyKinds | Assets/Scripts/LaunchesScripts/SpaceXAPIManager.cs:63-145 | Rocket keys start with "rocket_", ship keys with "ship_", and neither prefix matches the other kinds |
| SpaceXAPI.LookupTouchesOnlyItsKey | Assets/Scripts/LaunchesScripts/SpaceXAPIManager.cs:32-46 | A lookup adds no key and leaves every other entry alone; the key survives iff the lookup finds it |
| SpaceXAPI.LookupIdempotent | Assets/Scripts/LaunchesScripts/SpaceXAPIManager.cs:32-46 | Repeating a lookup at the same instant finds the same thing and changes nothing more |
| SpaceXAPI.AddThenLookup | Assets/Scripts/LaunchesScripts/SpaceXAPIManager.cs:27-57 | What is added is found for the next 600 seconds and not from then on |
| SpaceXAPI.AddKeepsOtherLookups | Assets/Scripts/LaunchesScripts/SpaceXAPIManager.cs:49-57 | Adding under one key does not change what a lookup under another finds |
| SpaceXAPI.Outcome | Assets/Scripts/LaunchesScripts/SpaceXAPIManager.cs:72-175 | A failed request reports "Request error: ..."; a parse exception reports "Parse error: ..."; a parsed value is delivered |
| SpaceXAPI.SpaceXAPIManager.constructor | Assets/Scripts/LaunchesScripts/SpaceXAPIManager.cs:29 | The cache starts empty |
| SpaceXAPI.SpaceXAPIManager.GetFromCache | Assets/Scripts/LaunchesScripts/SpaceXAPIManager.cs:32-46 | Returns the data of a present, valid entry and None otherwise. An expired entry, and only that one, is removed. An absent key changes nothing |
| SpaceXAPI.SpaceXAPIManager.AddToCache | Assets/Scripts/LaunchesScripts/SpaceXAPIManager.cs:27-57 | The key's entry is overwritten with the data, stamped now, with lifetime 600; every other key is untouched |
| SpaceXAPI.SpaceXAPIManager.ClearCache | Assets/Scripts/LaunchesScripts/SpaceXAPIManager.cs:218-221 | The cache becomes empty |
| SpaceXAPI.SpaceXAPIManager.GetLaunches | Assets/Scripts/LaunchesScripts/SpaceXAPIManager.cs:60-96 | A cache hit delivers the cached list with no request. Otherwise the launches URL is requested, the reply is the outcome of the {"docs": ...}-wrapped text, and a delivered list is cached |
| SpaceXAPI.SpaceXAPIManager.GetRocket | Assets/Scripts/LaunchesScripts/SpaceXAPIManager.cs:99-139 | A null or empty id reports "Invalid rocket ID" with no lookup, request or cache change. Otherwise it behaves as GetLaunches under "rocket_" + id |
| SpaceXAPI.SpaceXAPIManager.GetShip | Assets/Scripts/LaunchesScripts/SpaceXAPIManager.cs:142-176 | As GetRocket under "ship_" + id, with no test of the id |
| Sorting.InsertDescSorted | Assets/Scripts/LaunchesScripts/LaunchesBrowser.cs:79 | Inserting into a descending list keeps it descending and adds exactly that element |
| Sorting.SortDescSorted | Assets/Scripts/LaunchesScripts/LaunchesBrowser.cs:79 | OrderByDescending yields a descending permutation of its input |
| Sorting.InsertDescWithKey | Assets/Scripts/LaunchesScripts/LaunchesBrowser.cs:79 | Insertion places the element ahead of the elements with an equal key and leaves their order alone |
| Sorting.SortDescStable | Assets/Scripts/LaunchesScripts/LaunchesBrowser.cs:79 | The sort is stable: the elements with any one key keep their input order |
| LaunchesBrowsing.SortedLaunchesSpec | Assets/Scripts/LaunchesScripts/LaunchesBrowser.cs:79 | The stored launches run from the latest date to the earliest, are a permutation of the API's list, and keep API order among equal dates |
| Seqs.FilterIsSubsequence | Assets/Scripts/LaunchesScripts/LaunchesBrowser.cs:132-146 | A Where keeps the order of what it selects |
| Seqs.Filter | Assets/Scripts/LaunchesScripts/LaunchesBrowser.cs:132-146 | A Where keeps exactly the elements that pass its test and is never longer than its input |
| Seqs.FilterFilter | Assets/Scripts/LaunchesScripts/LaunchesBrowser.cs:127-147 | Two Where steps in a row are one Where on the conjunction |
| LaunchesBrowsing.ByDropdownIsWhere | Assets/Scripts/LaunchesScripts/LaunchesBrowser.cs:127-138 | The dropdown step is a Where on the dropdown test for every value, including values other than 1 and 2 |
| LaunchesBrowsing.BySearchIsWhere | Assets/Scripts/LaunchesScripts/LaunchesBrowser.cs:141-147 | The search step is a Where on the search test, including when there is no text |
| LaunchesBrowsing.FilteredIsOneWhere | Assets/Scripts/LaunchesScripts/LaunchesBrowser.cs:119-147 | The two filter steps together are one Where on the per-launch test |
| LaunchesBrowsing.FilteredSpec | Assets/Scripts/LaunchesScripts/LaunchesBrowser.cs:119-147 | The filtered list is an order-preserving selection of the loaded launches. A launch is in it iff it is loaded and passes both the dropdown and the search. With no dropdown choice it is the search's selection, and with no search text it is the dropdown's |
| LaunchesBrowsing.PastUpcomingSplit | Assets/Scripts/LaunchesScripts/LaunchesBrowser.cs:131-135 | The past and upcoming selections are disjoint and their sizes add up to the number of launches |
| LaunchesBrowsing.SearchIgnoresCase | Assets/Scripts/LaunchesScripts/LaunchesBrowser.cs:143-145 | Lower-casing the search text first changes nothing: the search ignores its case |
| LaunchesBrowsing.RocketIds | Assets/Scripts/LaunchesScripts/LaunchesBrowser.cs:92-94 | Every launch's non-empty rocket id is selected, and every selected id comes from such a launch |
| LaunchesBrowsing.UniqueRocketIds | Assets/Scripts/LaunchesScripts/LaunchesBrowser.cs:92-96 | The ids to preload contain no repeat and no empty id; they are exactly the launches' non-empty rocket ids |
| Seqs.Distinct | Assets/Scripts/LaunchesScripts/LaunchesBrowser.cs:95 | Distinct has no repeats and the same elements as its input |
| Seqs.DistinctIsSubsequence | Assets/Scripts/LaunchesScripts/LaunchesBrowser.cs:95 | Distinct is a subsequence of its input |
| Seqs.DistinctFirstOccurrenceOrder | Assets/Scripts/LaunchesScripts/LaunchesBrowser.cs:95 | Distinct lists elements in the order of their first occurrences: an earlier entry first occurs earlier in the input |
| LaunchesBrowsing.RocketFor | Assets/Scripts/LaunchesScripts/LaunchesBrowser.cs:160-164 | A row has a rocket iff its launch names a non-empty id that is cached, and then it is the cached rocket |
| LaunchesBrowsing.PreloadedContents | Assets/Scripts/LaunchesScripts/LaunchesBrowser.cs:101-112 | After the preload, the cache holds a key iff it held it before or its request delivered; a delivered key maps to the fetched rocket and every other key to its old rocket |
| LaunchesBrowsing.PreloadedRows | Assets/Scripts/LaunchesScripts/LaunchesBrowser.cs:101-164 | After the preload, a launch whose rocket request delivered shows that rocket; any other launch shows what the cache held before |
| LaunchesBrowsing.PreloadStart | Assets/Scripts/LaunchesScripts/LaunchesBrowser.cs:101 | Before the loop nothing is stored or counted |
| LaunchesBrowsing.PreloadStep | Assets/Scripts/LaunchesScripts/LaunchesBrowser.cs:102-111 | One turn stores and counts the next id's rocket exactly when its request delivers |
| LaunchesBrowsing.LaunchesBrowser.constructor | Assets/Scripts/LaunchesScripts/LaunchesBrowser.cs:26-37 | Empty lists and cache, no error, and a new pool of poolInitialSize inactive items |
| LaunchesBrowsing.LaunchesBrowser.RefreshList | Assets/Scripts/LaunchesScripts/LaunchesBrowser.cs:152-169 | The rows pair each active item with the filtered launch at the same position and its rocket. The pool's total grows only to the number of filtered launches |
| LaunchesBrowsing.LaunchesBrowser.ApplyFilters | Assets/Scripts/LaunchesScripts/LaunchesBrowser.cs:119-150 | The filtered list is rebuilt from the loaded launches alone as Filtered(...), and the rows show it |
| LaunchesBrowsing.LaunchesBrowser.PreloadRockets | Assets/Scripts/LaunchesScripts/LaunchesBrowser.cs:90-117 | The cache becomes Preloaded over the distinct ids. The count is the number of delivered requests. The loading panel is hidden, and the filters are applied and shown |
| LaunchesBrowsing.LaunchesBrowser.LoadLaunches | Assets/Scripts/LaunchesScripts/LaunchesBrowser.cs:71-88 | A failure shows "Failed to load launches: " + message and leaves lists, cache and pool alone. Success stores the launches latest first as a permutation, then preloads and filters. Either way the loading panel ends hidden |
| LaunchesBrowsing.LaunchesBrowser.Destroy | Assets/Scripts/LaunchesScripts/LaunchesBrowser.cs:197-205 | Lists and rocket cache become empty and every active item goes back to the pool |

## Left out

- Kepler position, `atan2`, `sqrt` and `Vector3Double` are not modelled. The position of a record is the parameter `Config.position`.
- LerpEndpointsAndWeights: states the endpoints and weights of the blend only. It does not prove that the blended point lies between the endpoints, which needs nonlinear real arithmetic.
- FarEnough: the trail's distance test `> 0.1` is stated on squared distance (`> 0.01`), which is equivalent over the reals.
- Rendering and UI are not modelled. This covers the scale clamp, `LookRotation`, the line renderer, text formatting, button labels, `SetActive`, `ResetItem`, `SetData`'s widget updates, the click handler and scene loading. List items are modelled only by the rows they are given.
- `GetLocalTime` and `GetFormattedDisplay` are not modelled: they are time-zone conversion and string formatting.
- The gap statistics and all `Debug.Log` output are not modelled: they are diagnostics only. This includes the error logged when both lists are empty after loading.
- Coroutine timing (`WaitForSeconds`, `yield`) is not modelled. A loop pass is atomic, and `Time.deltaTime` is the parameter `dt`.
- Tick: requires `dt > 0`, and a toggle is applied between passes (`Toggled`), so optional playback starts at index 0. In the code a required-mode pass suspends in `WaitForSeconds(1 / simulationSpeed)` (1/24 s, `RoadsterSimulation.cs:225`), the only place it yields, so a toggle to optional mode lands inside that wait. The pass then increments the index of the freshly toggled state and compares it with the primary list it captured at line 209: optional playback starts at index 1 (or at 0 with an empty trail when there is one primary record), with the duration computed for segment 0, and segment 0 is skipped. That interleaving is not modelled.
- Simulation.constructor: `trailLength` is a `nat`. A negative serialized length would make the trail drop to zero entries each update, and that case is not modelled.
- `float` and `double` are exact `real`s, so rounding is not modelled.
- A zero duration or divisor follows the float result: `+Infinity` ends the segment, and the minimum with the cap is the cap.
- Timestamps are whole seconds, so `TotalHours` and `TotalSeconds` of sub-second differences are not modelled.
- `DateTime.TryParse` returning local time while `UtcNow` is UTC is not modelled: the parser parameter returns an instant directly.
- `double.Parse`, `DateTime.Parse`, `DateTime.TryParse` and `JsonUtility.FromJson` are parameters, not implementations.
- ToLower: lower-cases ASCII letters only; culture-specific case mapping is not modelled.
- A null launch name is not modelled (the source would throw in `ToLower`).
- The network side of `SpaceXAPIManager` is not modelled: `UnityWebRequest`, the `Instance` singleton, and the `OnDestroy` of the manager. A request is represented by its `Response` and its URL.
- `GetShips` is not modelled. It waits for a set of `GetShip` calls with a timeout driven by frame time, which is asynchronous plumbing.
- `Payload` and `LaunchesResponse` are plain data carriers with no logic and are not modelled.
- LaunchesBrowser.PreloadRockets: each rocket request's outcome is the parameter `fetch(id)`, so the requests' effect on the manager's cache is not part of this method's model.
- An exception thrown inside an `onSuccess` callback (which the manager's `try` would report as a parse error) is not modelled.
- LaunchesBrowser.RefreshList: states the pool's total size but not which objects the new rows use.

## Findings

| source | as written | input that shows it | evidently intended | confidence | as-written member | corrected member |
|---|---|---|---|---|---|---|
| Assets/Scripts/RoadsterScripts/RoadsterSimulation.cs:291-301 | When the last segment finishes, the duration is recomputed for the one-past-the-end index (which gives 1 s) before the index wraps to 0, so every later cycle plays segment 0 for 1 s | Optional mode, three extended records 48 h apart, speed 240, index 1, progress 0.5, dt = 1: the pass wraps to index 0 with duration 1, while segment 0 calls for 0.2 s | Recompute the duration after wrapping, so the stored duration always matches the segment being played | not executed | RoadsterSimulation.StaleDurationAfterWrap | RoadsterSimulation.CorrectedKeepsDurationCurrent |
