/**
 * The two fetch groups: the keys whose freshness gates a fetch, the writes a
 * fetched response turns into, and the gate itself.
 */
module Groups {
  import opened Wrappers
  import opened Settings
  import opened CacheStore
  import opened Conversions

  /** The keys the sunrise/sunset fetch refreshes. */
  const SunKeys: seq<string> := ["city", "sunrise", "sunset"]

  /** The keys the station observation fetch refreshes. */
  const StationKeys: seq<string> := [
    "timestamp", "raw", "coordinates", "elevation", "text",
    "temperature", "dewpoint", "windDirection", "windSpeed",
    "pressure", "visibility", "precipitation", "humidity",
    "feelsLike"]

  /** The three captures of a matching sunrise answer. */
  datatype SunTimes = SunTimes(city: string, sunrise: string, sunset: string)

  /**
   * The fields of a parsed station observation that the fetch reads.
   * Pass-through fields are whatever JavaScript value the response holds
   * (undefined when it is missing). A numeric field is Some(x) for a number
   * (JSON null counts as 0, as JavaScript's arithmetic makes it) and None for a
   * value the arithmetic turns into NaN.
   */
  datatype Observation = Observation(
    timestamp: JsValue,
    rawMessage: JsValue,
    coordinates: JsValue,
    elevation: Option<real>,
    textDescription: JsValue,
    temperature: Option<real>,
    dewpoint: Option<real>,
    windDirection: JsValue,
    windSpeed: Option<real>,
    barometricPressure: Option<real>,
    visibility: Option<real>,
    precipitationLastHour: Option<real>,
    relativeHumidity: JsValue,
    heatIndex: Option<real>)

  /** The conversions the station fetch applies. */
  datatype Conversion = ToFeet | ToFahrenheit | ToMph | ToMmhg | ToMiles | ToInches

  /** Applies a conversion of module Conversions. */
  function Convert(c: Conversion, x: real): real {
    match c
    case ToFeet => MetersToFeet(x)
    case ToFahrenheit => DegCtoF(x)
    case ToMph => MetersPerSecondToMph(x)
    case ToMmhg => PascalsToMmhg(x)
    case ToMiles => MetersToMiles(x)
    case ToInches => MetersToInches(x)
  }

  /**
   * The value cached for a converted numeric field: the text `format` gives the
   * converted number, or NaN.
   */
  function Converted(x: Option<real>, c: Conversion, format: real -> string): (v: JsValue)
    ensures v.Str?
    ensures x.None? ==> v == Str("NaN")
  {
    match x
    case Some(n) => Str(format(Convert(c, n)))
    case None => Str("NaN")
  }

  /** The writes of the sunrise/sunset fetch, in order. */
  function SunEntries(times: SunTimes): (entries: seq<(string, JsValue)>)
    ensures |entries| == |SunKeys| && forall i | 0 <= i < |entries| :: entries[i].0 == SunKeys[i]
    ensures forall i | 0 <= i < |entries| :: entries[i].1.Str?
  {
    [("city", Str(times.city)), ("sunrise", Str(times.sunrise)), ("sunset", Str(times.sunset))]
  }

  /**
   * The writes of the station fetch, in order, each field with its
   * conversion: elevation to feet, temperatures to Fahrenheit, wind speed to
   * mph, pressure to mmHg, visibility to miles, precipitation to inches.
   */
  function StationEntries(o: Observation, format: real -> string): (entries: seq<(string, JsValue)>)
    ensures |entries| == |StationKeys| && forall i | 0 <= i < |entries| :: entries[i].0 == StationKeys[i]
  {
    [ ("timestamp", o.timestamp),
      ("raw", o.rawMessage),
      ("coordinates", o.coordinates),
      ("elevation", Converted(o.elevation, ToFeet, format)),
      ("text", o.textDescription),
      ("temperature", Converted(o.temperature, ToFahrenheit, format)),
      ("dewpoint", Converted(o.dewpoint, ToFahrenheit, format)),
      ("windDirection", o.windDirection),
      ("windSpeed", Converted(o.windSpeed, ToMph, format)),
      ("pressure", Converted(o.barometricPressure, ToMmhg, format)),
      ("visibility", Converted(o.visibility, ToMiles, format)),
      ("precipitation", Converted(o.precipitationLastHour, ToInches, format)),
      ("humidity", o.relativeHumidity),
      ("feelsLike", Converted(o.heatIndex, ToFahrenheit, format)) ]
  }

  /** The first seven station writes, in the order the fetch performs them. */
  lemma StationEntriesInOrderFirst(o: Observation, format: real -> string)
    ensures var entries := StationEntries(o, format);
      && |entries| == 14
      && entries[0] == ("timestamp", o.timestamp)
      && entries[1] == ("raw", o.rawMessage)
      && entries[2] == ("coordinates", o.coordinates)
      && entries[3] == ("elevation", Converted(o.elevation, ToFeet, format))
      && entries[4] == ("text", o.textDescription)
      && entries[5] == ("temperature", Converted(o.temperature, ToFahrenheit, format))
      && entries[6] == ("dewpoint", Converted(o.dewpoint, ToFahrenheit, format))
  {
  }

  /** The last seven station writes, in the order the fetch performs them. */
  lemma StationEntriesInOrderLast(o: Observation, format: real -> string)
    ensures var entries := StationEntries(o, format);
      && |entries| == 14
      && entries[7] == ("windDirection", o.windDirection)
      && entries[8] == ("windSpeed", Converted(o.windSpeed, ToMph, format))
      && entries[9] == ("pressure", Converted(o.barometricPressure, ToMmhg, format))
      && entries[10] == ("visibility", Converted(o.visibility, ToMiles, format))
      && entries[11] == ("precipitation", Converted(o.precipitationLastHour, ToInches, format))
      && entries[12] == ("humidity", o.relativeHumidity)
      && entries[13] == ("feelsLike", Converted(o.heatIndex, ToFahrenheit, format))
  {
  }

  /**
   * The station writes as the source has them: wind speed and pressure are
   * converted from the whole measurement object instead of its value, which
   * JavaScript's arithmetic turns into NaN whatever the reading.
   */
  function StationEntriesAsWritten(o: Observation, format: real -> string): (entries: seq<(string, JsValue)>)
    ensures |entries| == |StationKeys| && forall i | 0 <= i < |entries| :: entries[i].0 == StationKeys[i]
    ensures entries[8] == ("windSpeed", Str("NaN")) && entries[9] == ("pressure", Str("NaN"))
    ensures forall i | 0 <= i < |entries| && i != 8 && i != 9 :: entries[i] == StationEntries(o, format)[i]
  {
    StationEntries(o.(windSpeed := None, barometricPressure := None), format)
  }

  /** The as-written writes lose a wind reading that the corrected ones keep. */
  lemma AsWrittenLosesWindSpeed(o: Observation, format: real -> string, speed: real)
    requires o.windSpeed == Some(speed)
    requires format(MetersPerSecondToMph(speed)) != "NaN"
    ensures StationEntriesAsWritten(o, format) != StationEntries(o, format)
  {
    assert StationEntriesAsWritten(o, format)[8] != StationEntries(o, format)[8];
  }

  /** Corrected, the wind speed and pressure readings are converted and cached. */
  lemma StationEntriesConvertReadings(o: Observation, format: real -> string)
    ensures o.windSpeed.Some? ==>
      StationEntries(o, format)[8] == ("windSpeed", Str(format(MetersPerSecondToMph(o.windSpeed.value))))
    ensures o.barometricPressure.Some? ==>
      StationEntries(o, format)[9] == ("pressure", Str(format(PascalsToMmhg(o.barometricPressure.value))))
    ensures o.heatIndex.None? ==> StationEntries(o, format)[13] == ("feelsLike", Str("NaN"))
  {
  }

  /** The result of a group refresh: whether the fetch threw, and the new state. */
  datatype Refreshed = Refreshed(failed: bool, store: Store)

  /**
   * A group refresh: when no key of the group is expired nothing happens;
   * otherwise the fetch runs, and either fails before any write (None) or
   * writes its entries with the configured lifetime.
   */
  function Refresh(cfg: Config, st: Store, keys: seq<string>, fetched: Option<seq<(string, JsValue)>>, now: int): (r: Refreshed)
    ensures !AnyExpired(cfg, st.files, keys, now) ==> r == Refreshed(false, st)
    ensures fetched.None? ==> r.store == st
  {
    if !AnyExpired(cfg, st.files, keys, now) then Refreshed(false, st)
    else
      match fetched
      case None => Refreshed(true, st)
      case Some(entries) => Refreshed(false, Apply(cfg, st, entries, cfg.cacheLifetime, now))
  }

  /**
   * The sunrise/sunset fetch's outcome; None when any step before the writes
   * throws (the request, the body, the parse, a missing answer or no match).
   */
  function SunFetch(answer: Option<SunTimes>): Option<seq<(string, JsValue)>> {
    match answer
    case None => None
    case Some(times) => Some(SunEntries(times))
  }

  /** The station fetch's outcome; None when the request or the parse fails. */
  function StationFetch(response: Option<Observation>, format: real -> string): Option<seq<(string, JsValue)>> {
    match response
    case None => None
    case Some(o) => Some(StationEntries(o, format))
  }

  /** The group keys are distinct, so every listed key is written once. */
  lemma GroupKeysDistinct(times: SunTimes, o: Observation, format: real -> string)
    ensures DistinctKeys(SunEntries(times))
    ensures DistinctKeys(StationEntries(o, format))
  {
  }

  /**
   * When a stale group is refetched, every key given a value is rewritten
   * with the configured lifetime and stamped now, and so is its mirror entry;
   * with a positive lifetime none of those keys is expired right afterwards.
   */
  lemma RefreshRewritesGroup(cfg: Config, st: Store, keys: seq<string>, entries: seq<(string, JsValue)>, now: int, i: nat)
    requires AnyExpired(cfg, st.files, keys, now)
    requires DistinctKeys(entries) && i < |entries| && entries[i].1 != Undefined
    ensures var st' := Refresh(cfg, st, keys, Some(entries), now).store;
      var path := KeyCacheFile(cfg, entries[i].0);
      && path in st'.files
      && st'.files[path] == File(Entry(cfg.cacheLifetime, entries[i].1), now)
      && entries[i].0 in st'.data && st'.data[entries[i].0] == entries[i].1
      && (IsCacheExpired(cfg, st'.files, entries[i].0, now) <==> cfg.cacheLifetime <= 0)
  {
    var st' := Apply(cfg, st, entries, cfg.cacheLifetime, now);
    ApplyLastWriteWins(cfg, st, entries, cfg.cacheLifetime, now, i);
    EntryExpiry(cfg, st'.files, entries[i].0, now, cfg.cacheLifetime, entries[i].1);
  }

  /**
   * A successful refresh of a group whose every key is given a value closes
   * the gate: with a positive lifetime the group is not stale right afterwards.
   */
  lemma RefreshClosesGate(cfg: Config, st: Store, keys: seq<string>, entries: seq<(string, JsValue)>, now: int)
    requires cfg.cacheLifetime > 0
    requires DistinctKeys(entries)
    requires |entries| == |keys| && forall i | 0 <= i < |keys| :: entries[i].0 == keys[i]
    requires forall i | 0 <= i < |entries| :: entries[i].1 != Undefined
    ensures !AnyExpired(cfg, Refresh(cfg, st, keys, Some(entries), now).store.files, keys, now)
  {
    var st' := Refresh(cfg, st, keys, Some(entries), now).store;
    if AnyExpired(cfg, st.files, keys, now) {
      forall i | 0 <= i < |keys| ensures !IsCacheExpired(cfg, st'.files, keys[i], now) {
        RefreshRewritesGroup(cfg, st, keys, entries, now, i);
      }
    }
  }

  /** A stale group whose fetch fails keeps every file and mirror entry. */
  lemma RefreshFailureKeepsStore(cfg: Config, st: Store, keys: seq<string>, now: int)
    ensures Refresh(cfg, st, keys, None, now).store == st
    ensures Refresh(cfg, st, keys, None, now).failed <==> AnyExpired(cfg, st.files, keys, now)
  {
  }

  /** Nothing outside the group's keys changes in a refresh. */
  lemma RefreshFrame(cfg: Config, st: Store, keys: seq<string>, fetched: Option<seq<(string, JsValue)>>, now: int, key: string)
    requires fetched.Some? ==> key !in KeysOf(fetched.value)
    ensures var st' := Refresh(cfg, st, keys, fetched, now).store;
      && (KeyCacheFile(cfg, key) in st'.files <==> KeyCacheFile(cfg, key) in st.files)
      && (KeyCacheFile(cfg, key) in st.files ==>
            st'.files[KeyCacheFile(cfg, key)] == st.files[KeyCacheFile(cfg, key)])
      && (key in st'.data <==> key in st.data)
      && (key in st.data ==> st'.data[key] == st.data[key])
  {
    if fetched.Some? && AnyExpired(cfg, st.files, keys, now) {
      var entries := fetched.value;
      ApplyKeepsUnwritten(cfg, st, entries, cfg.cacheLifetime, now, key);
    }
  }
}
