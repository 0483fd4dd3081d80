/**
 * LaunchesBrowser: the launch list screen. It sorts the launches by date,
 * preloads the rockets they name, filters the list by the past/upcoming
 * dropdown and a case-insensitive name search, and fills pooled list items
 * with one launch (and its rocket, when known) each.
 *
 * The UI widgets become parameters: the dropdown's value is `dropdown`
 * (None when there is no dropdown), the search field's text is `search`
 * (None when there is no field), DateTime.UtcNow is `now`. The requests the
 * coroutines wait for become their outcomes: the launches as a Reply, and
 * each rocket request as `fetch(id)`.
 */
module LaunchesBrowsing {
  import opened Wrappers
  import opened Seqs
  import opened Text
  import opened Dates
  import opened SpaceXModels
  import opened SpaceXAPI
  import opened Sorting
  import opened ObjectPooling

  // ---------------------------------------------------------------
  // Sorting by launch date
  // ---------------------------------------------------------------

  /** The sort key of OrderByDescending(l => l.GetLaunchDate()). */
  function DateKey(tryParse: DateParser): Launch -> int
  {
    (l: Launch) => GetLaunchDate(l, tryParse)
  }

  function SortedLaunches(launches: seq<Launch>, tryParse: DateParser): seq<Launch>
  {
    SortDesc(launches, DateKey(tryParse))
  }

  /**
   * The stored list runs from the latest launch date to the earliest, holds
   * the same launches, and keeps launches with the same date in the order
   * the API returned them.
   */
  lemma SortedLaunchesSpec(launches: seq<Launch>, tryParse: DateParser, date: Instant)
    ensures var r := SortedLaunches(launches, tryParse);
      && (forall i, j :: 0 <= i < j < |r| ==> GetLaunchDate(r[i], tryParse) >= GetLaunchDate(r[j], tryParse))
      && multiset(r) == multiset(launches)
      && WithKey(r, DateKey(tryParse), date) == WithKey(launches, DateKey(tryParse), date)
  {
    SortDescSorted(launches, DateKey(tryParse));
    SortDescStable(launches, DateKey(tryParse), date);
  }

  // ---------------------------------------------------------------
  // Filtering
  // ---------------------------------------------------------------

  function Past(now: Instant, tryParse: DateParser): Launch -> bool
  {
    (l: Launch) => !IsUpcoming(l, now, tryParse)
  }

  function Upcoming(now: Instant, tryParse: DateParser): Launch -> bool
  {
    (l: Launch) => IsUpcoming(l, now, tryParse)
  }

  /** The name test of the search: the lower-cased name contains the already lower-cased text. */
  function NameContains(lowered: string): Launch -> bool
  {
    (l: Launch) => Contains(ToLower(l.name), lowered)
  }

  /** The dropdown step: option 1 keeps past launches, option 2 upcoming ones, anything else all. */
  function ByDropdown(launches: seq<Launch>, dropdown: Option<int>, now: Instant, tryParse: DateParser): seq<Launch>
  {
    if dropdown == Some(1) then Filter(Past(now, tryParse), launches)
    else if dropdown == Some(2) then Filter(Upcoming(now, tryParse), launches)
    else launches
  }

  /** The search step: no field or an empty text filters nothing. */
  function BySearch(launches: seq<Launch>, search: Option<string>): seq<Launch>
  {
    if search.None? || search.value == "" then launches
    else Filter(NameContains(ToLower(search.value)), launches)
  }

  /** The list ApplyFilters builds from the loaded launches. */
  function Filtered(launches: seq<Launch>, dropdown: Option<int>, search: Option<string>, now: Instant, tryParse: DateParser): seq<Launch>
  {
    BySearch(ByDropdown(launches, dropdown, now, tryParse), search)
  }

  /** What the dropdown keeps, stated launch by launch. */
  predicate DropdownKeeps(dropdown: Option<int>, l: Launch, now: Instant, tryParse: DateParser)
  {
    if dropdown == Some(1) then !IsUpcoming(l, now, tryParse)
    else if dropdown == Some(2) then IsUpcoming(l, now, tryParse)
    else true
  }

  /** What the search keeps, stated launch by launch: both sides are compared lower-cased. */
  predicate SearchKeeps(search: Option<string>, l: Launch)
  {
    search.None? || search.value == "" || Contains(ToLower(l.name), ToLower(search.value))
  }

  function Keeps(dropdown: Option<int>, search: Option<string>, now: Instant, tryParse: DateParser): Launch -> bool
  {
    (l: Launch) => DropdownKeeps(dropdown, l, now, tryParse) && SearchKeeps(search, l)
  }

  function DropdownTest(dropdown: Option<int>, now: Instant, tryParse: DateParser): Launch -> bool
  {
    (l: Launch) => DropdownKeeps(dropdown, l, now, tryParse)
  }

  function SearchTest(search: Option<string>): Launch -> bool
  {
    (l: Launch) => SearchKeeps(search, l)
  }

  /** The dropdown step is a Where on DropdownKeeps, whatever the value. */
  lemma ByDropdownIsWhere(launches: seq<Launch>, dropdown: Option<int>, now: Instant, tryParse: DateParser)
    ensures ByDropdown(launches, dropdown, now, tryParse) == Filter(DropdownTest(dropdown, now, tryParse), launches)
  {
    hide IsUpcoming;
    var dk := DropdownTest(dropdown, now, tryParse);
    if dropdown == Some(1) {
      FilterExtensional(Past(now, tryParse), dk, launches);
    } else if dropdown == Some(2) {
      FilterExtensional(Upcoming(now, tryParse), dk, launches);
    } else {
      FilterAll(dk, launches);
    }
  }

  /** The search step is a Where on SearchKeeps, including when there is no text. */
  lemma BySearchIsWhere(launches: seq<Launch>, search: Option<string>)
    ensures BySearch(launches, search) == Filter(SearchTest(search), launches)
  {
    hide Contains, ToLower;
    if search.None? || search.value == "" {
      FilterAll(SearchTest(search), launches);
    } else {
      FilterExtensional(NameContains(ToLower(search.value)), SearchTest(search), launches);
    }
  }

  /** The two filter steps together are a single Where on the per-launch test. */
  lemma FilteredIsOneWhere(launches: seq<Launch>, dropdown: Option<int>, search: Option<string>, now: Instant, tryParse: DateParser)
    ensures Filtered(launches, dropdown, search, now, tryParse) == Filter(Keeps(dropdown, search, now, tryParse), launches)
  {
    var dk, sk := DropdownTest(dropdown, now, tryParse), SearchTest(search);
    ByDropdownIsWhere(launches, dropdown, now, tryParse);
    BySearchIsWhere(ByDropdown(launches, dropdown, now, tryParse), search);
    hide ByDropdown, BySearch, DropdownKeeps, SearchKeeps;
    FilterFilter(dk, sk, launches);
    FilterExtensional(And(dk, sk), Keeps(dropdown, search, now, tryParse), launches);
  }

  /**
   * The filtered list is an order-preserving selection from the loaded list;
   * a launch is in it exactly when it is loaded and passes both the dropdown
   * and the search; without search text it is the dropdown's selection.
   */
  lemma FilteredSpec(launches: seq<Launch>, dropdown: Option<int>, search: Option<string>, now: Instant, tryParse: DateParser)
    ensures var r := Filtered(launches, dropdown, search, now, tryParse);
      && IsSubsequence(r, launches)
      && (forall l :: l in r <==> l in launches && DropdownKeeps(dropdown, l, now, tryParse) && SearchKeeps(search, l))
      && (dropdown.None? || (dropdown.value != 1 && dropdown.value != 2) ==> r == BySearch(launches, search))
      && (search.None? || search.value == "" ==> r == ByDropdown(launches, dropdown, now, tryParse))
  {
    FilteredIsOneWhere(launches, dropdown, search, now, tryParse);
    FilterIsSubsequence(Keeps(dropdown, search, now, tryParse), launches);
  }

  /** Past and Upcoming split the loaded launches: no launch is in both and together they are all of them. */
  lemma PastUpcomingSplit(launches: seq<Launch>, now: Instant, tryParse: DateParser)
    ensures var past := ByDropdown(launches, Some(1), now, tryParse);
      var upcoming := ByDropdown(launches, Some(2), now, tryParse);
      && |past| + |upcoming| == |launches|
      && (forall l :: l in past ==> l !in upcoming)
  {
    var up := Upcoming(now, tryParse);
    FilterComplement(up, launches);
    FilterExtensional(Not(up), Past(now, tryParse), launches);
  }

  /** The search text is lower-cased first, so its case does not matter. */
  lemma SearchIgnoresCase(launches: seq<Launch>, text: string)
    ensures BySearch(launches, Some(ToLower(text))) == BySearch(launches, Some(text))
  {
    ToLowerIdempotent(text);
  }

  // ---------------------------------------------------------------
  // Rocket ids and the rocket cache
  // ---------------------------------------------------------------

  /** !string.IsNullOrEmpty(l.rocket) */
  predicate HasRocketId(l: Launch)
  {
    l.rocket.Some? && l.rocket.value != ""
  }

  /** Where(non-empty rocket).Select(l => l.rocket): the ids, in launch order, repeats included. */
  function RocketIds(launches: seq<Launch>): (r: seq<string>)
    ensures forall l :: l in launches && HasRocketId(l) ==> l.rocket.value in r
    ensures forall id :: id in r ==> exists l :: l in launches && HasRocketId(l) && l.rocket.value == id
  {
    if launches == [] then []
    else
      var rest := RocketIds(launches[1..]);
      assert forall l :: l in launches <==> l == launches[0] || l in launches[1..];
      (if HasRocketId(launches[0]) then [launches[0].rocket.value] else []) + rest
  }

  /**
   * The ids PreloadRockets requests: no empty id, no id twice, every
   * launch's non-empty rocket id, and nothing a launch does not name.
   */
  function UniqueRocketIds(launches: seq<Launch>): (r: seq<string>)
    ensures NoDuplicates(r)
    ensures "" !in r
    ensures forall l :: l in launches && HasRocketId(l) ==> l.rocket.value in r
    ensures forall id :: id in r ==> exists l :: l in launches && HasRocketId(l) && l.rocket.value == id
  {
    Distinct(RocketIds(launches))
  }

  /** The rocket a list row shows: the cached rocket for a non-empty id, null otherwise. */
  function RocketFor(l: Launch, rocketCache: map<string, Rocket>): (r: Option<Rocket>)
    ensures r.Some? <==> HasRocketId(l) && l.rocket.value in rocketCache
    ensures r.Some? ==> r.value == rocketCache[l.rocket.value]
  {
    if HasRocketId(l) && l.rocket.value in rocketCache then Some(rocketCache[l.rocket.value]) else None
  }

  /** The rocket requests whose callback stores a rocket. */
  function Fetched(fetch: string -> Reply<Rocket>): string -> bool
  {
    (id: string) => fetch(id).Delivered?
  }

  /** The cache after the preload loop has run over ids: each delivered rocket stored under its id. */
  function Preloaded(cache: map<string, Rocket>, ids: seq<string>, fetch: string -> Reply<Rocket>): map<string, Rocket>
  {
    if ids == [] then cache
    else
      var before := Preloaded(cache, ids[..|ids| - 1], fetch);
      var id := ids[|ids| - 1];
      if fetch(id).Delivered? then before[id := fetch(id).value] else before
  }

  /**
   * After the preload, the cache holds the rocket of every id whose request
   * delivered one; every other entry is the one it held before.
   */
  lemma {:induction false} PreloadedContents(cache: map<string, Rocket>, ids: seq<string>, fetch: string -> Reply<Rocket>)
    ensures var p := Preloaded(cache, ids, fetch);
      && (forall id :: id in p <==> id in cache || (id in ids && fetch(id).Delivered?))
      && (forall id :: id in p ==> p[id] == if id in ids && fetch(id).Delivered? then fetch(id).value else cache[id])
  {
    if ids != [] {
      var init := ids[..|ids| - 1];
      assert ids == init + [ids[|ids| - 1]];
      PreloadedContents(cache, init, fetch);
    }
  }

  /**
   * Once the rockets are preloaded, a row shows the fetched rocket of every
   * launch whose rocket request delivered, and otherwise what the cache held.
   */
  lemma PreloadedRows(launches: seq<Launch>, cache: map<string, Rocket>, fetch: string -> Reply<Rocket>, l: Launch)
    requires l in launches
    ensures var p := Preloaded(cache, UniqueRocketIds(launches), fetch);
      HasRocketId(l) && fetch(l.rocket.value).Delivered? ==> RocketFor(l, p) == Some(fetch(l.rocket.value).value)
    ensures var p := Preloaded(cache, UniqueRocketIds(launches), fetch);
      !HasRocketId(l) || fetch(l.rocket.value).Reported? ==> RocketFor(l, p) == RocketFor(l, cache)
  {
    PreloadedContents(cache, UniqueRocketIds(launches), fetch);
  }

  /** Before the preload loop: nothing requested, nothing stored, nothing counted. */
  lemma PreloadStart(cache: map<string, Rocket>, ids: seq<string>, fetch: string -> Reply<Rocket>)
    ensures Preloaded(cache, ids[..0], fetch) == cache
    ensures Filter(Fetched(fetch), ids[..0]) == []
  {
    assert ids[..0] == [];
  }

  /** One turn of the preload loop: the next id's request, stored and counted when it delivers. */
  lemma PreloadStep(cache: map<string, Rocket>, ids: seq<string>, i: nat, fetch: string -> Reply<Rocket>)
    requires i < |ids|
    ensures Preloaded(cache, ids[..i + 1], fetch) ==
      var before := Preloaded(cache, ids[..i], fetch);
      if fetch(ids[i]).Delivered? then before[ids[i] := fetch(ids[i]).value] else before
    ensures |Filter(Fetched(fetch), ids[..i + 1])| ==
      |Filter(Fetched(fetch), ids[..i])| + if fetch(ids[i]).Delivered? then 1 else 0
  {
    assert ids[..i + 1][..i] == ids[..i];
    assert ids[..i + 1] == ids[..i] + [ids[i]];
    FilterConcat(Fetched(fetch), ids[..i], [ids[i]]);
    assert [ids[i]][1..] == [];
  }

  /** A list item with the launch and the rocket SetData gave it. */
  datatype ListRow = ListRow(item: PoolItem, launch: Launch, rocket: Option<Rocket>)

  class LaunchesBrowser {
    var allLaunches: seq<Launch>
    var filteredLaunches: seq<Launch>
    var rocketCache: map<string, Rocket>
    /** Whether the loading panel is shown. */
    var loading: bool
    /** The text of the error label; it is shown when non-empty. */
    var errorMessage: string
    const itemPool: ObjectPool
    const tryParse: DateParser

    /** Start: the field initializers and a pool of poolInitialSize items (20 by default). */
    constructor (poolInitialSize: int, tryParse: DateParser)
      ensures allLaunches == [] && filteredLaunches == [] && rocketCache == map[]
      ensures !loading && errorMessage == ""
      ensures this.tryParse == tryParse
      ensures fresh(itemPool) && itemPool.activeObjects == []
      ensures |itemPool.pool| == if poolInitialSize < 0 then 0 else poolInitialSize
    {
      allLaunches := [];
      filteredLaunches := [];
      rocketCache := map[];
      loading := false;
      errorMessage := "";
      this.tryParse := tryParse;
      itemPool := new ObjectPool(poolInitialSize);
    }

    /** The rows on screen match the filtered launches one for one, each on the pool's matching active item. */
    predicate Shows(rows: seq<ListRow>)
      reads this, itemPool
    {
      && |rows| == |filteredLaunches| == |itemPool.activeObjects|
      && forall i :: 0 <= i < |rows| ==>
        rows[i] == ListRow(itemPool.activeObjects[i], filteredLaunches[i], RocketFor(filteredLaunches[i], rocketCache))
    }

    /**
     * RefreshList: every item goes back to the pool, then one item is taken
     * per filtered launch and given the launch and its rocket. The pool only
     * creates items when it holds fewer than the list needs.
     */
    method RefreshList() returns (rows: seq<ListRow>)
      modifies itemPool, itemPool.pool, itemPool.activeObjects
      ensures Shows(rows)
      ensures |itemPool.pool| + |itemPool.activeObjects| ==
        var before := |old(itemPool.pool)| + |old(itemPool.activeObjects)|;
        if |filteredLaunches| <= before then before else |filteredLaunches|
    {
      itemPool.ReturnAll();
      ghost var total := |itemPool.pool|;
      rows := [];
      for i := 0 to |filteredLaunches|
        invariant |itemPool.activeObjects| == i == |rows|
        invariant |itemPool.pool| == if i <= total then total - i else 0
        invariant forall o :: o in itemPool.pool ==> o in old(itemPool.pool) || o in old(itemPool.activeObjects)
        invariant forall k :: 0 <= k < i ==>
          rows[k] == ListRow(itemPool.activeObjects[k], filteredLaunches[k], RocketFor(filteredLaunches[k], rocketCache))
      {
        var launch := filteredLaunches[i];
        assert itemPool.pool != [] ==> itemPool.pool[0] in itemPool.pool;
        var item := itemPool.Get();
        var rocket: Option<Rocket> := None;
        if launch.rocket.Some? && launch.rocket.value != "" && launch.rocket.value in rocketCache {
          rocket := Some(rocketCache[launch.rocket.value]);
        }
        rows := rows + [ListRow(item, launch, rocket)];
      }
    }

    /** ApplyFilters: the list is rebuilt from the loaded launches alone, then redrawn. */
    method ApplyFilters(now: Instant, dropdown: Option<int>, search: Option<string>) returns (rows: seq<ListRow>)
      modifies this`filteredLaunches, itemPool, itemPool.pool, itemPool.activeObjects
      ensures filteredLaunches == Filtered(allLaunches, dropdown, search, now, tryParse)
      ensures Shows(rows)
    {
      hide Filter, Shows, Contains, ToLower;
      filteredLaunches := [];
      filteredLaunches := filteredLaunches + allLaunches;
      assert filteredLaunches == allLaunches;
      if dropdown.Some? {
        if dropdown.value == 1 {
          filteredLaunches := Filter(Past(now, tryParse), filteredLaunches);
        } else if dropdown.value == 2 {
          filteredLaunches := Filter(Upcoming(now, tryParse), filteredLaunches);
        }
      }
      if search.Some? && search.value != "" {
        var lowered := ToLower(search.value);
        filteredLaunches := Filter(NameContains(lowered), filteredLaunches);
      }
      rows := RefreshList();
    }

    /**
     * PreloadRockets: requests each distinct rocket id once, stores every
     * delivered rocket and counts them, then hides the loading panel and
     * applies the filters.
     */
    method PreloadRockets(fetch: string -> Reply<Rocket>, now: Instant, dropdown: Option<int>, search: Option<string>)
      returns (loaded: nat, rows: seq<ListRow>)
      modifies this`rocketCache, this`loading, this`filteredLaunches, itemPool, itemPool.pool, itemPool.activeObjects
      ensures rocketCache == Preloaded(old(rocketCache), UniqueRocketIds(allLaunches), fetch)
      ensures loaded == |Filter(Fetched(fetch), UniqueRocketIds(allLaunches))|
      ensures !loading
      ensures filteredLaunches == Filtered(allLaunches, dropdown, search, now, tryParse)
      ensures Shows(rows)
    {
      hide Preloaded, UniqueRocketIds, Filter, Filtered, Shows;
      var uniqueRocketIds := UniqueRocketIds(allLaunches);
      loaded := 0;
      PreloadStart(rocketCache, uniqueRocketIds, fetch);
      for i := 0 to |uniqueRocketIds|
        invariant rocketCache == Preloaded(old(rocketCache), uniqueRocketIds[..i], fetch)
        invariant loaded == |Filter(Fetched(fetch), uniqueRocketIds[..i])|
        invariant unchanged(itemPool)
      {
        var rocketId := uniqueRocketIds[i];
        PreloadStep(old(rocketCache), uniqueRocketIds, i, fetch);
        match fetch(rocketId)
        case Delivered(rocket) =>
          rocketCache := rocketCache[rocketId := rocket];
          loaded := loaded + 1;
        case Reported(_) =>
      }
      assert uniqueRocketIds[..|uniqueRocketIds|] == uniqueRocketIds;
      loading := false;
      rows := ApplyFilters(now, dropdown, search);
    }

    /**
     * LoadLaunches: shows the loading panel and clears the error; on success
     * stores the launches latest first and preloads their rockets; on
     * failure hides the panel and shows the error, leaving the list alone.
     */
    method LoadLaunches(outcome: Reply<seq<Launch>>, fetch: string -> Reply<Rocket>, now: Instant, dropdown: Option<int>, search: Option<string>)
      returns (loaded: nat, rows: seq<ListRow>)
      modifies this`allLaunches, this`rocketCache, this`loading, this`errorMessage, this`filteredLaunches
      modifies itemPool, itemPool.pool, itemPool.activeObjects
      ensures !loading
      ensures outcome.Reported? ==>
        && errorMessage == "Failed to load launches: " + outcome.message
        && allLaunches == old(allLaunches) && filteredLaunches == old(filteredLaunches)
        && rocketCache == old(rocketCache)
        && itemPool.pool == old(itemPool.pool) && itemPool.activeObjects == old(itemPool.activeObjects)
      ensures outcome.Delivered? ==>
        && errorMessage == ""
        && allLaunches == SortedLaunches(outcome.value, tryParse)
        && (forall i, j :: 0 <= i < j < |allLaunches| ==> GetLaunchDate(allLaunches[i], tryParse) >= GetLaunchDate(allLaunches[j], tryParse))
        && multiset(allLaunches) == multiset(outcome.value)
        && rocketCache == Preloaded(old(rocketCache), UniqueRocketIds(allLaunches), fetch)
        && loaded == |Filter(Fetched(fetch), UniqueRocketIds(allLaunches))|
        && filteredLaunches == Filtered(allLaunches, dropdown, search, now, tryParse)
        && Shows(rows)
    {
      hide Preloaded, UniqueRocketIds, Filter, Filtered, Shows, SortDesc;
      loading := true;
      errorMessage := "";
      match outcome
      case Delivered(launches) =>
        allLaunches := SortedLaunches(launches, tryParse);
        SortedLaunchesSpec(launches, tryParse, 0);
        loaded, rows := PreloadRockets(fetch, now, dropdown, search);
      case Reported(error) =>
        loading := false;
        errorMessage := "Failed to load launches: " + error;
        loaded, rows := 0, [];
    }

    /** OnDestroy: drops the loaded data and the rocket cache and returns every item to the pool. */
    method Destroy()
      modifies this`allLaunches, this`filteredLaunches, this`rocketCache
      modifies itemPool, itemPool.activeObjects
      ensures allLaunches == [] && filteredLaunches == [] && rocketCache == map[]
      ensures itemPool.activeObjects == []
      ensures itemPool.pool == old(itemPool.pool) + old(itemPool.activeObjects)
    {
      allLaunches := [];
      filteredLaunches := [];
      rocketCache := map[];
      itemPool.ReturnAll();
    }
  }
}
