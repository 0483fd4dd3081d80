/**
 * The records the SpaceX API returns and the small helpers on them: the
 * launch date with its fallback, the upcoming test, the mission count and
 * the expiry test of a cache entry. DateTime.UtcNow is the parameter `now`.
 */
module SpaceXModels {
  import opened Wrappers
  import opened Dates

  /** A launch; the fields JSON may leave null are options. */
  datatype Launch = Launch(
    id: string,
    name: string,
    upcoming: bool,
    dateUtc: Option<string>,
    rocket: Option<string>,
    ships: Option<seq<string>>,
    payloads: Option<seq<string>>,
    success: bool,
    details: Option<string>)

  datatype Rocket = Rocket(id: string, name: string, country: string, company: string, active: bool)

  datatype Ship = Ship(
    id: string,
    name: string,
    shipType: string,
    homePort: string,
    image: string,
    launches: Option<seq<string>>,
    active: bool)

  /** DateTime.TryParse: None where it returns false. */
  type DateParser = string -> Option<Instant>

  /** The parsed date_utc, or DateTime.MinValue when it is null or does not parse. */
  function GetLaunchDate(launch: Launch, tryParse: DateParser): (r: Instant)
    ensures launch.dateUtc.Some? && tryParse(launch.dateUtc.value).Some? ==> Some(r) == tryParse(launch.dateUtc.value)
    ensures launch.dateUtc.None? || tryParse(launch.dateUtc.value).None? ==> r == MinValue
  {
    if launch.dateUtc.Some? && tryParse(launch.dateUtc.value).Some? then tryParse(launch.dateUtc.value).value
    else MinValue
  }

  /** The upcoming flag, or a launch date strictly after now. */
  predicate IsUpcoming(launch: Launch, now: Instant, tryParse: DateParser)
  {
    launch.upcoming || GetLaunchDate(launch, tryParse) > now
  }

  /** A launch whose flag is set is upcoming at every instant. */
  lemma UpcomingFlagWins(launch: Launch, now: Instant, tryParse: DateParser)
    requires launch.upcoming
    ensures IsUpcoming(launch, now, tryParse)
  {
  }

  /** Without the flag, a launch is upcoming exactly while its parsed date lies ahead. */
  lemma UpcomingByDate(launch: Launch, now: Instant, tryParse: DateParser)
    requires !launch.upcoming
    ensures IsUpcoming(launch, now, tryParse) <==>
      launch.dateUtc.Some? && tryParse(launch.dateUtc.value).Some? && tryParse(launch.dateUtc.value).value > now
  {
  }

  /** A launch with a missing or unreadable date and no flag is never upcoming: MinValue is never ahead. */
  lemma UnparseableIsPast(launch: Launch, now: Instant, tryParse: DateParser)
    requires !launch.upcoming
    requires launch.dateUtc.None? || tryParse(launch.dateUtc.value).None?
    ensures !IsUpcoming(launch, now, tryParse)
  {
  }

  /** Time only moves launches into the past: upcoming later means upcoming earlier. */
  lemma UpcomingIsMonotone(launch: Launch, earlier: Instant, later: Instant, tryParse: DateParser)
    requires earlier <= later && IsUpcoming(launch, later, tryParse)
    ensures IsUpcoming(launch, earlier, tryParse)
  {
  }

  /** The number of launch ids, 0 when the list is null. */
  function GetMissionCount(ship: Ship): (r: nat)
    ensures ship.launches.None? ==> r == 0
    ensures ship.launches.Some? ==> r == |ship.launches.value|
  {
    if ship.launches.Some? then |ship.launches.value| else 0
  }

  /** A cached value with the instant it was stored and its lifetime in seconds. */
  datatype CacheEntry<T> = CacheEntry(data: T, timestamp: Instant, cacheLifetime: real)

  /** The field initializer of cacheLifetime: ten minutes. */
  const DefaultCacheLifetime: real := 600.0

  /**
   * IsValid: the seconds elapsed since the timestamp are strictly fewer than
   * the lifetime. Elapsed time may be negative when the clock is behind the
   * timestamp; such an entry is valid.
   */
  predicate IsValid<T>(entry: CacheEntry<T>, now: Instant)
  {
    (now - entry.timestamp) as real < entry.cacheLifetime
  }

  /** Once expired, an entry stays expired. */
  lemma ExpiryIsPermanent<T>(entry: CacheEntry<T>, t1: Instant, t2: Instant)
    requires t1 <= t2 && !IsValid(entry, t1)
    ensures !IsValid(entry, t2)
  {
  }

  /**
   * An entry stored at `stored` with an integral lifetime is valid exactly
   * before stored + lifetime: at the lifetime itself it has expired.
   */
  lemma ValidWindow<T>(data: T, stored: Instant, lifetime: nat, now: Instant)
    ensures IsValid(CacheEntry(data, stored, lifetime as real), now) <==> now < stored + lifetime
    ensures !IsValid(CacheEntry(data, stored, lifetime as real), stored + lifetime)
  {
  }

  /** With the default lifetime an entry is valid for the 600 seconds after it is stored. */
  lemma DefaultLifetimeWindow<T>(data: T, stored: Instant, now: Instant)
    ensures IsValid(CacheEntry(data, stored, DefaultCacheLifetime), now) <==> now < stored + 600
  {
    ValidWindow(data, stored, 600, now);
  }
}
