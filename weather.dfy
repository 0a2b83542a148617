/**
 * The weather object: its configuration, the cache files it writes and the
 * in-memory mirror `data`, with the operations that change them.
 */
module WeatherCache {
  import opened Wrappers
  import opened Settings
  import opened CacheStore
  import opened Groups

  class Weather {
    const config: Config
    var files: FileSystem
    var data: map<string, JsValue>

    /** The mirror never holds undefined: writing undefined throws instead. */
    ghost predicate Valid()
      reads this
    {
      forall k | k in data :: data[k] != Undefined
    }

    /** The cache files and the mirror as one value. */
    ghost function State(): Store
      reads this
    {
      Store(files, data)
    }

    /**
     * Builds the configuration from the options (`sep` is the platform's path
     * separator), starts with an empty mirror over the given file system, and
     * caches the zip code and the station.
     */
    constructor (options: Options, sep: string, fs: FileSystem, now: int)
      ensures Valid()
      ensures config == MakeConfig(options, sep)
      ensures State() == Put(config, Put(config, Store(fs, map[]), "zip", Str(config.zip), config.cacheLifetime, now),
                             "station", Str(config.station), config.cacheLifetime, now)
    {
      config := MakeConfig(options, sep);
      files := fs;
      data := map[];
      new;
      var cached := Cache("zip", Str(config.zip), None, now);
      cached := Cache("station", Str(config.station), None, now);
    }

    /**
     * setInCache: stores the value in the mirror and overwrites the key's
     * file with the header and the value, stamped now. An undefined value
     * throws before anything changes.
     */
    method SetInCache(key: string, value: JsValue, expiry: int, now: int) returns (thrown: bool)
      requires Valid()
      modifies this
      ensures Valid()
      ensures thrown <==> value == Undefined
      ensures thrown ==> files == old(files) && data == old(data)
      ensures !thrown ==> data == old(data)[key := value]
      ensures !thrown ==> files == old(files)[KeyCacheFile(config, key) := File(Entry(expiry, value), now)]
    {
      if value == Undefined {
        return true;
      }
      data := data[key := value];
      files := files[KeyCacheFile(config, key) := File("expires:" + JsText.IntToString(expiry) + "\n" + Render(value), now)];
      thrown := false;
    }

    /**
     * cache: with an undefined value, a read that gives null for an expired
     * entry and the stored value otherwise; with a value, a write with the
     * given expiry or the configured lifetime that returns the value.
     */
    method Cache(key: string, value: JsValue, expiry: Option<int>, now: int) returns (r: JsValue)
      requires Valid()
      modifies this
      ensures Valid()
      ensures value == Undefined ==> r == CacheRead(config, files, key, now)
      ensures value != Undefined ==> r == value
      ensures State() == Put(config, old(State()), key, value, expiry.GetOr(config.cacheLifetime), now)
    {
      if value == Undefined {
        if IsCacheExpired(config, files, key, now) {
          return Null;
        }
        return FromCache(config, files, key, false);
      }
      var lifetime := expiry.GetOr(config.cacheLifetime);
      var thrown := SetInCache(key, value, lifetime, now);
      r := value;
    }

    /**
     * cache(key, value) as the k-th of a sequence of writes from state `st0`:
     * the state moves from the first k writes applied to the first k + 1.
     */
    method CacheNext(key: string, value: JsValue, now: int,
                     ghost st0: Store, ghost entries: seq<(string, JsValue)>, ghost k: nat)
      requires Valid()
      requires k < |entries| && entries[k] == (key, value)
      requires State() == Apply(config, st0, entries[..k], config.cacheLifetime, now)
      modifies this
      ensures Valid()
      ensures State() == Apply(config, st0, entries[..k + 1], config.cacheLifetime, now)
    {
      ghost var before := State();
      var cached := Cache(key, value, None, now);
      ApplyPrefixStep(config, st0, entries, k, config.cacheLifetime, now, before, key, value);
    }

    /**
     * getValue: a fresh cached value, then the mirror's value, then the unknown
     * marker; since the mirror never holds undefined, always a text.
     */
    method GetValue(key: string, now: int) returns (r: JsValue)
      requires Valid()
      ensures r == CacheStore.GetValue(config, State(), key, now)
      ensures r.Str?
    {
      var cached := if IsCacheExpired(config, files, key, now) then Null else FromCache(config, files, key, false);
      var saved := if key in data then data[key] else Null;
      if cached != Null {
        return cached;
      }
      if saved != Null {
        return saved;
      }
      return Str(config.unknown);
    }

    /** isCacheExpiredMany: whether some key of the list is expired; false for none. */
    method IsCacheExpiredMany(keys: seq<string>, now: int) returns (expired: bool)
      ensures expired <==> AnyExpired(config, files, keys, now)
      ensures keys == [] ==> !expired
    {
      for i := 0 to |keys|
        invariant forall j | 0 <= j < i :: !IsCacheExpired(config, files, keys[j], now)
      {
        if IsCacheExpired(config, files, keys[i], now) {
          return true;
        }
      }
      return false;
    }

    /**
     * fetchCitySunriseSunsetForZip: when city, sunrise or sunset is expired,
     * caches the three captures of the answer (None: the answer does not
     * match, and the capture lookup throws before any write).
     */
    method FetchCitySunriseSunsetForZip(answer: Option<SunTimes>, now: int) returns (failed: bool)
      requires Valid()
      modifies this
      ensures Valid()
      ensures Refreshed(failed, State()) == Refresh(config, old(State()), SunKeys, SunFetch(answer), now)
    {
      var stale := IsCacheExpiredMany(SunKeys, now);
      if !stale {
        return false;
      }
      if answer == None {
        return true;
      }
      var times := answer.value;
      WriteSunTimes(times, now);
      failed := false;
    }

    /** The write pass of fetchCitySunriseSunsetForZip: city, sunrise, sunset. */
    method WriteSunTimes(times: SunTimes, now: int)
      requires Valid()
      modifies this
      ensures Valid()
      ensures State() == Apply(config, old(State()), SunEntries(times), config.cacheLifetime, now)
    {
      ghost var st0 := State();
      ghost var entries := SunEntries(times);
      assert entries[..0] == [];
      CacheNext("city", Str(times.city), now, st0, entries, 0);
      CacheNext("sunrise", Str(times.sunrise), now, st0, entries, 1);
      CacheNext("sunset", Str(times.sunset), now, st0, entries, 2);
      assert entries[..3] == entries;
    }

    /**
     * fetchWeatherForStation: when any station key is expired, caches every
     * field of the observation with its conversion (None: the request or the
     * parse throws before any write). A field whose value is undefined turns
     * its cache call into a read and is not rewritten.
     */
    method FetchWeatherForStation(response: Option<Observation>, format: real -> string, now: int) returns (failed: bool)
      requires Valid()
      modifies this
      ensures Valid()
      ensures Refreshed(failed, State()) == Refresh(config, old(State()), StationKeys, StationFetch(response, format), now)
    {
      var stale := IsCacheExpiredMany(StationKeys, now);
      if !stale {
        return false;
      }
      if response == None {
        return true;
      }
      WriteObservation(response.value, format, now);
      failed := false;
    }

    /**
     * The write pass of fetchWeatherForStation: one cache call per field, in
     * the source's order, each with the configured lifetime.
     */
    method WriteObservation(o: Observation, format: real -> string, now: int)
      requires Valid()
      modifies this
      ensures Valid()
      ensures State() == Apply(config, old(State()), StationEntries(o, format), config.cacheLifetime, now)
    {
      ghost var st0 := State();
      ghost var entries := StationEntries(o, format);
      StationEntriesInOrderFirst(o, format);
      StationEntriesInOrderLast(o, format);
      assert entries[..0] == [];
      CacheNext("timestamp", o.timestamp, now, st0, entries, 0);
      CacheNext("raw", o.rawMessage, now, st0, entries, 1);
      CacheNext("coordinates", o.coordinates, now, st0, entries, 2);
      CacheNext("elevation", Converted(o.elevation, ToFeet, format), now, st0, entries, 3);
      CacheNext("text", o.textDescription, now, st0, entries, 4);
      CacheNext("temperature", Converted(o.temperature, ToFahrenheit, format), now, st0, entries, 5);
      CacheNext("dewpoint", Converted(o.dewpoint, ToFahrenheit, format), now, st0, entries, 6);
      CacheNext("windDirection", o.windDirection, now, st0, entries, 7);
      CacheNext("windSpeed", Converted(o.windSpeed, ToMph, format), now, st0, entries, 8);
      CacheNext("pressure", Converted(o.barometricPressure, ToMmhg, format), now, st0, entries, 9);
      CacheNext("visibility", Converted(o.visibility, ToMiles, format), now, st0, entries, 10);
      CacheNext("precipitation", Converted(o.precipitationLastHour, ToInches, format), now, st0, entries, 11);
      CacheNext("humidity", o.relativeHumidity, now, st0, entries, 12);
      CacheNext("feelsLike", Converted(o.heatIndex, ToFahrenheit, format), now, st0, entries, 13);
      assert entries[..14] == entries;
    }

    /**
     * init: the sunrise/sunset fetch, then the station fetch; a failure of
     * the first throws out of init, so the second does not run.
     */
    method Init(answer: Option<SunTimes>, response: Option<Observation>, format: real -> string, now: int) returns (failed: bool)
      requires Valid()
      modifies this
      ensures Valid()
      ensures var sun := Refresh(config, old(State()), SunKeys, SunFetch(answer), now);
        if sun.failed then failed && State() == sun.store
        else Refreshed(failed, State()) == Refresh(config, sun.store, StationKeys, StationFetch(response, format), now)
    {
      failed := FetchCitySunriseSunsetForZip(answer, now);
      if failed {
        return;
      }
      failed := FetchWeatherForStation(response, format, now);
    }
  }
}
