/**
 * SpaceXAPIManager: an in-memory cache of API replies keyed by request, with
 * lazy eviction of expired entries on lookup, and the fetch coroutines'
 * decisions around it (invalid id, cache hit, request outcome).
 *
 * The clock is the parameter `now` (lookup) and `receivedAt` (when the reply
 * arrived); the web request is its Response; JsonUtility is a parser
 * parameter whose Failure carries the exception message.
 */
module SpaceXAPI {
  import opened Wrappers
  import opened Dates
  import opened SpaceXModels

  const BaseUrl: string := "https://api.spacexdata.com/v4"
  /** CACHE_LIFETIME: ten minutes. */
  const CacheLifetime: real := 600.0

  /** What the object-typed cache holds. */
  datatype CachedValue =
    | LaunchesValue(launches: seq<Launch>)
    | RocketValue(rocket: Rocket)
    | ShipValue(ship: Ship)

  type Cache = map<string, CacheEntry<CachedValue>>

  // ----------------------------------------------------------------- keys

  const LaunchesKey: string := "launches"

  function RocketKey(rocketId: string): string
  {
    "rocket_" + rocketId
  }

  /** String interpolation writes a null id as the empty string. */
  function ShipKey(shipId: Option<string>): string
  {
    "ship_" + (if shipId.Some? then shipId.value else "")
  }

  /** Launches, rocket and ship entries never share a key. */
  lemma KeysDisjoint(rocketId: string, shipId: Option<string>)
    ensures RocketKey(rocketId) != LaunchesKey
    ensures ShipKey(shipId) != LaunchesKey
    ensures RocketKey(rocketId) != ShipKey(shipId)
  {
    assert RocketKey(rocketId)[0] == 'r';
    assert ShipKey(shipId)[0] == 's';
    assert LaunchesKey[0] == 'l';
  }

  /** Distinct ids get distinct keys; a null ship id shares the key of the empty id. */
  lemma KeysInjective(a: string, b: string)
    ensures RocketKey(a) == RocketKey(b) ==> a == b
    ensures ShipKey(Some(a)) == ShipKey(Some(b)) ==> a == b
    ensures ShipKey(None) == ShipKey(Some(""))
  {
    if RocketKey(a) == RocketKey(b) {
      assert a == RocketKey(a)[7..];
    }
    if ShipKey(Some(a)) == ShipKey(Some(b)) {
      assert a == ShipKey(Some(a))[5..];
    }
  }

  predicate IsRocketKey(key: string)
  {
    |key| >= 7 && key[..7] == "rocket_"
  }

  predicate IsShipKey(key: string)
  {
    |key| >= 5 && key[..5] == "ship_"
  }

  /** Every entry holds the type its key's request stores. */
  predicate WellTyped(cache: Cache)
  {
    forall key :: key in cache ==>
      && (key == LaunchesKey ==> cache[key].data.LaunchesValue?)
      && (IsRocketKey(key) ==> cache[key].data.RocketValue?)
      && (IsShipKey(key) ==> cache[key].data.ShipValue?)
  }

  lemma KeyKinds(rocketId: string, shipId: Option<string>)
    ensures IsRocketKey(RocketKey(rocketId)) && !IsShipKey(RocketKey(rocketId))
    ensures IsShipKey(ShipKey(shipId)) && !IsRocketKey(ShipKey(shipId))
    ensures !IsRocketKey(LaunchesKey) && !IsShipKey(LaunchesKey)
  {
    assert RocketKey(rocketId)[..7] == "rocket_";
    assert ShipKey(shipId)[..5] == "ship_";
    assert RocketKey(rocketId)[..5] != "ship_" by { assert RocketKey(rocketId)[0] == 'r'; }
    assert |ShipKey(shipId)| < 7 || ShipKey(shipId)[..7] != "rocket_" by { assert ShipKey(shipId)[0] == 's'; }
  }

  // ------------------------------------------------------ cache operations

  /** What GetFromCache hands back: the data of a present, valid entry. */
  function Lookup(cache: Cache, key: string, now: Instant): Option<CachedValue>
  {
    if key in cache && IsValid(cache[key], now) then Some(cache[key].data) else None
  }

  /** The cache after GetFromCache: an expired entry for key is removed. */
  function AfterLookup(cache: Cache, key: string, now: Instant): Cache
  {
    if key in cache && !IsValid(cache[key], now) then cache - {key} else cache
  }

  /** The cache after AddToCache: key holds a fresh entry with the ten-minute lifetime. */
  function Added(cache: Cache, key: string, data: CachedValue, now: Instant): Cache
  {
    cache[key := CacheEntry(data, now, CacheLifetime)]
  }

  /** A lookup never adds keys and leaves every other key's entry alone. */
  lemma LookupTouchesOnlyItsKey(cache: Cache, key: string, now: Instant)
    ensures AfterLookup(cache, key, now).Keys <= cache.Keys
    ensures forall k :: k in cache && k != key ==> k in AfterLookup(cache, key, now) && AfterLookup(cache, key, now)[k] == cache[k]
    ensures key in AfterLookup(cache, key, now) <==> Lookup(cache, key, now).Some?
  {
  }

  /** Repeating a lookup at the same instant finds the same thing and changes nothing more. */
  lemma LookupIdempotent(cache: Cache, key: string, now: Instant)
    ensures Lookup(AfterLookup(cache, key, now), key, now) == Lookup(cache, key, now)
    ensures AfterLookup(AfterLookup(cache, key, now), key, now) == AfterLookup(cache, key, now)
  {
  }

  /** What is added is found again for the next 600 seconds, and not from then on. */
  lemma AddThenLookup(cache: Cache, key: string, data: CachedValue, stored: Instant, now: Instant)
    ensures Lookup(Added(cache, key, data, stored), key, now) == if now < stored + 600 then Some(data) else None
  {
    DefaultLifetimeWindow(data, stored, now);
  }

  /** Adding under one key does not disturb what is found under another. */
  lemma AddKeepsOtherLookups(cache: Cache, key: string, other: string, data: CachedValue, stored: Instant, now: Instant)
    requires other != key
    ensures Lookup(Added(cache, key, data, stored), other, now) == Lookup(cache, other, now)
  {
  }

  // ---------------------------------------------------------- fetching

  /** The web request's result: the downloaded text, or the request's error. */
  datatype Response = Received(text: string) | RequestFailed(error: string)

  /** Which callback a fetch invokes: onSuccess with a value, or onError with a message. */
  datatype Reply<T> = Delivered(value: T) | Reported(message: string)

  /** JsonUtility.FromJson for the three reply shapes; Failure carries the exception message. */
  datatype JsonParsers = JsonParsers(
    launches: string -> Result<seq<Launch>, string>,
    rocket: string -> Result<Rocket, string>,
    ship: string -> Result<Ship, string>)

  /** The launches endpoint returns a bare array; it is wrapped as {"docs": ...} before parsing. */
  function WrapDocs(text: string): string
  {
    "{\"docs\":" + text + "}"
  }

  /** The reply a completed request produces, given how its text parses. */
  function Outcome<T>(response: Response, parse: string -> Result<T, string>): (r: Reply<T>)
    ensures response.RequestFailed? ==> r == Reported("Request error: " + response.error)
    ensures response.Received? && parse(response.text).Failure? ==> r == Reported("Parse error: " + parse(response.text).error)
    ensures response.Received? && parse(response.text).Success? ==> r == Delivered(parse(response.text).value)
  {
    match response
    case RequestFailed(e) => Reported("Request error: " + e)
    case Received(text) =>
      match parse(text)
      case Success(v) => Delivered(v)
      case Failure(m) => Reported("Parse error: " + m)
  }

  function LaunchesOf(response: Response): Response
  {
    match response
    case Received(text) => Received(WrapDocs(text))
    case RequestFailed(e) => RequestFailed(e)
  }

  class SpaceXAPIManager {
    var cache: Cache

    ghost predicate Valid()
      reads this
    {
      WellTyped(cache)
    }

    constructor ()
      ensures cache == map[] && Valid()
    {
      cache := map[];
    }

    /** GetFromCache: the data of a valid entry; an expired entry is evicted. */
    method GetFromCache(cacheKey: string, now: Instant) returns (r: Option<CachedValue>)
      modifies this`cache
      ensures r == Lookup(old(cache), cacheKey, now)
      ensures cache == AfterLookup(old(cache), cacheKey, now)
      ensures old(Valid()) ==> Valid()
    {
      r := None;
      if cacheKey in cache {
        if IsValid(cache[cacheKey], now) {
          r := Some(cache[cacheKey].data);
        } else {
          cache := cache - {cacheKey};
        }
      }
    }

    /** AddToCache: overwrites the key's entry, stamped now, with the ten-minute lifetime. */
    method AddToCache(cacheKey: string, data: CachedValue, now: Instant)
      modifies this`cache
      ensures cache == Added(old(cache), cacheKey, data, now)
      ensures cacheKey in cache && cache[cacheKey].data == data && cache[cacheKey].timestamp == now
      ensures forall k :: k != cacheKey ==> (k in cache <==> k in old(cache)) && (k in cache ==> cache[k] == old(cache)[k])
    {
      cache := cache[cacheKey := CacheEntry(data, now, CacheLifetime)];
    }

    method ClearCache()
      modifies this`cache
      ensures cache == map[] && Valid()
    {
      cache := map[];
    }

    /**
     * GetLaunches: a valid cached list is delivered without a request;
     * otherwise the launches URL is requested and a parsed list is cached
     * (stamped receivedAt) and delivered.
     */
    method GetLaunches(now: Instant, response: Response, receivedAt: Instant, parsers: JsonParsers)
      returns (reply: Reply<seq<Launch>>, request: Option<string>)
      requires Valid()
      modifies this`cache
      ensures Valid()
      ensures
        var hit := Lookup(old(cache), LaunchesKey, now);
        var evicted := AfterLookup(old(cache), LaunchesKey, now);
        if hit.Some? then
          && hit.value.LaunchesValue?
          && reply == Delivered(hit.value.launches) && request == None && cache == evicted
        else
          && request == Some(BaseUrl + "/launches")
          && reply == Outcome(LaunchesOf(response), parsers.launches)
          && cache == if reply.Delivered? then Added(evicted, LaunchesKey, LaunchesValue(reply.value), receivedAt) else evicted
    {
      KeyKinds("", None);
      var cachedData := GetFromCache(LaunchesKey, now);
      if cachedData.Some? && cachedData.value.LaunchesValue? {
        return Delivered(cachedData.value.launches), None;
      }
      request := Some(BaseUrl + "/launches");
      match response
      case RequestFailed(e) =>
        reply := Reported("Request error: " + e);
      case Received(text) =>
        match parsers.launches(WrapDocs(text))
        case Failure(m) =>
          reply := Reported("Parse error: " + m);
        case Success(docs) =>
          AddToCache(LaunchesKey, LaunchesValue(docs), receivedAt);
          reply := Delivered(docs);
    }

    /**
     * GetRocket: a null or empty id is reported as "Invalid rocket ID" with no
     * lookup and no request; otherwise as GetLaunches, under "rocket_" + id.
     */
    method GetRocket(rocketId: Option<string>, now: Instant, response: Response, receivedAt: Instant, parsers: JsonParsers)
      returns (reply: Reply<Rocket>, request: Option<string>)
      requires Valid()
      modifies this`cache
      ensures Valid()
      ensures rocketId.None? || rocketId.value == "" ==>
        reply == Reported("Invalid rocket ID") && request == None && cache == old(cache)
      ensures rocketId.Some? && rocketId.value != "" ==>
        var key := RocketKey(rocketId.value);
        var hit := Lookup(old(cache), key, now);
        var evicted := AfterLookup(old(cache), key, now);
        if hit.Some? then
          && hit.value.RocketValue?
          && reply == Delivered(hit.value.rocket) && request == None && cache == evicted
        else
          && request == Some(BaseUrl + "/rockets/" + rocketId.value)
          && reply == Outcome(response, parsers.rocket)
          && cache == if reply.Delivered? then Added(evicted, key, RocketValue(reply.value), receivedAt) else evicted
    {
      if rocketId.None? || rocketId.value == "" {
        return Reported("Invalid rocket ID"), None;
      }
      var id := rocketId.value;
      KeyKinds(id, None);
      KeysDisjoint(id, None);
      var cacheKey := RocketKey(id);
      var cachedData := GetFromCache(cacheKey, now);
      if cachedData.Some? && cachedData.value.RocketValue? {
        return Delivered(cachedData.value.rocket), None;
      }
      request := Some(BaseUrl + "/rockets/" + id);
      match response
      case RequestFailed(e) =>
        reply := Reported("Request error: " + e);
      case Received(text) =>
        match parsers.rocket(text)
        case Failure(m) =>
          reply := Reported("Parse error: " + m);
        case Success(rocket) =>
          AddToCache(cacheKey, RocketValue(rocket), receivedAt);
          reply := Delivered(rocket);
    }

    /** GetShip: as GetRocket under "ship_" + id, but with no test of the id. */
    method GetShip(shipId: Option<string>, now: Instant, response: Response, receivedAt: Instant, parsers: JsonParsers)
      returns (reply: Reply<Ship>, request: Option<string>)
      requires Valid()
      modifies this`cache
      ensures Valid()
      ensures
        var key := ShipKey(shipId);
        var hit := Lookup(old(cache), key, now);
        var evicted := AfterLookup(old(cache), key, now);
        if hit.Some? then
          && hit.value.ShipValue?
          && reply == Delivered(hit.value.ship) && request == None && cache == evicted
        else
          && request == Some(BaseUrl + "/ships/" + (if shipId.Some? then shipId.value else ""))
          && reply == Outcome(response, parsers.ship)
          && cache == if reply.Delivered? then Added(evicted, key, ShipValue(reply.value), receivedAt) else evicted
    {
      KeyKinds("", shipId);
      KeysDisjoint("", shipId);
      var cacheKey := ShipKey(shipId);
      var cachedData := GetFromCache(cacheKey, now);
      if cachedData.Some? && cachedData.value.ShipValue? {
        return Delivered(cachedData.value.ship), None;
      }
      request := Some(BaseUrl + "/ships/" + (if shipId.Some? then shipId.value else ""));
      match response
      case RequestFailed(e) =>
        reply := Reported("Request error: " + e);
      case Received(text) =>
        match parsers.ship(text)
        case Failure(m) =>
          reply := Reported("Parse error: " + m);
        case Success(ship) =>
          AddToCache(cacheKey, ShipValue(ship), receivedAt);
          reply := Delivered(ship);
    }
  }
}
