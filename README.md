# withaspark weather: the per-key TTL cache

A model of the cache in `src/withaspark.weather.js` and of the logic built on it.
Each key has its own cache file. The file holds a header line `expires:<minutes>`,
a newline, and the value as text. The file's modification time says when it was written.
The weather object also keeps an in-memory mirror `data` with the values written during
the run. A reading goes to the fresh cache file first, then to the mirror, then to the
configured "unknown" marker. There are two remote fetches: the sunrise answer, which
gives city, sunrise and sunset, and the latest station observation. Each runs only when
some key of its group is expired. After a fetch, every key of the group that the response
gives a value is rewritten with the configured lifetime. A field whose value is undefined
turns its `cache` call into a read, and that key is not rewritten.

Modules, one file each:

- `Wrappers` (`wrappers.dfy`): `Option`.
- `JsText` (`jstext.dfy`): the JavaScript string semantics the cache relies on:
  - `split` with and without a limit;
  - `String(i)` for an integer;
  - `Number(text)` on integer texts.
- `Settings` (`settings.dfy`): the constructor's options and their defaults.
- `CacheStore` (`cachestore.dfy`): the read side, written as functions of the file
  system and the mirror. It also has the effect of a write, and of a sequence of writes,
  as functions on that state.
  - The file system is a map from path to (content, modification time in ms).
  - The clock `now` (ms) is a parameter of every operation that reads it.
- `Conversions` (`conversions.dfy`): the unit conversions, over exact reals.
- `Groups` (`groups.dfy`) has the two fetch groups:
  - their keys;
  - the writes a fetched response turns into;
  - the freshness gate, as a function `Refresh`.
- `WeatherCache` (`weather.dfy`): class `Weather`, with fields `files` and `data` and
  `modifies` frames on its methods. Each method is proved against the functions of
  `CacheStore` and `Groups`. The write passes of the fetches cache one key per step, as
  the source does. Each step is proved to move the state from the first k writes of the
  group to the first k + 1.

The remote responses come in as inputs that are already parsed:

- for the sunrise fetch, `Option<SunTimes>`: None when any step before the writes
  throws: the request, an error status, the parse, a missing `Answer`, or an answer
  that does not match;
- for the station fetch, `Option<Observation>`: None when the request or the parse
  throws.

A numeric field of the observation is `Some(x)` for a number. JSON `null` counts as 0,
as JavaScript's arithmetic treats it. The field is `None` where the arithmetic gives
NaN. The text a converted number is cached as, JavaScript's number-to-string, is the
parameter `format`. The platform path separator is the parameter `sep`.

The model keeps these behaviours of the code:

- sunrise, sunset and city come from the sunrise answer;
- the station group has 14 keys;
- coordinates are cached as the response gives them;
- a numeric field without a value is cached as the arithmetic leaves it.

## Model

| member | source | states |
|---|---|---|
| JsText.Split | src/withaspark.weather.js:102 | at least one piece; no piece contains the separator |
| JsText.SplitThenJoin | src/withaspark.weather.js:102 | joining the pieces of a split at the separator gives back the text |
| JsText.JoinThenSplit | src/withaspark.weather.js:102 | splitting the join of separator-free pieces gives back the pieces |
| JsText.SplitLimit | src/withaspark.weather.js:187 | `split(c, limit)` is a prefix of the full split, of length `limit` unless the full split is shorter |
| JsText.SplitLimitTwo | src/withaspark.weather.js:102-105 | a split with limit 2 has two pieces exactly when the separator occurs; the two pieces are the text before the first separator and the text from there to the next separator |
| JsText.IntToString | src/withaspark.weather.js:152 | the decimal text of an expiry is nonempty and holds neither ':' nor a newline |
| JsText.ToNumber | src/withaspark.weather.js:112 | `Number(text)` as the comparison `age >= expiry` applies it: the empty text is 0, a text of digits is its decimal value, `-d` and `+d` are minus and plus that value, and an accepted text is a digit or a sign followed by at least one more character, with only digits after the first |
| JsText.ToNumberOfIntToString | src/withaspark.weather.js:109-112 | `Number(String(i)) == i`: an integer expiry reads back as itself |
| Settings.MakeConfig | src/withaspark.weather.js:19-29 | the configuration keeps the path separator; every text setting is nonempty after defaulting |
| Settings.DefaultConfig | src/withaspark.weather.js:20-29 | without options: zip 32202, station KJAX, directory /tmp, prefix `withaspark.weather.`, lifetime 5, unknown `?` |
| Settings.ConfigDefaults | src/withaspark.weather.js:20-29 | an explicit lifetime, 0 included, is kept and 5 is used only when the option is absent; a missing or empty text option falls back on its default and any other is kept |
| CacheStore.KeyCacheFile | src/withaspark.weather.js:196-201 | the path starts with the cache directory, and its length is that of directory, separator, prefix and key together |
| CacheStore.KeyCacheFileInjective | src/withaspark.weather.js:196-201 | the path directory + separator + prefix + key determines the key |
| CacheStore.HeaderHasNoNewline | src/withaspark.weather.js:152 | the header line `expires:<n>` contains no newline |
| CacheStore.FromCache | src/withaspark.weather.js:168-188 | null exactly for a missing file; with headers, the whole file text; without headers, the text after the first newline up to the next one, or undefined exactly when the text has no newline |
| CacheStore.CacheAge | src/withaspark.weather.js:209-215 | for an existing file, the age in minutes is the elapsed time rounded to the nearest minute: `age*60000 - 30000 <= elapsed < age*60000 + 30000` |
| CacheStore.HeaderExpiry | src/withaspark.weather.js:109 | a header without a colon has no expiry; otherwise the expiry is `Number` of the text between the first colon and the next one |
| CacheStore.HeaderRoundTrip | src/withaspark.weather.js:109 | the header the cache writes for expiry e parses back to e |
| CacheStore.IsCacheExpired | src/withaspark.weather.js:101-107 | a missing file is expired, and so is a text without a newline, the empty text included |
| CacheStore.ExpiryRule | src/withaspark.weather.js:109-112 | with a header line, a readable expiry e makes the entry expired exactly when age >= e; an unreadable expiry (no colon, not a number) is never expired |
| CacheStore.EntryExpiry | src/withaspark.weather.js:101-113 | a file the cache wrote with expiry e is expired exactly when its age has reached e |
| CacheStore.CacheRead | src/withaspark.weather.js:77-84 | the read form of `cache` gives null exactly when the entry is expired, and never undefined |
| CacheStore.GetValue | src/withaspark.weather.js:41-56 | never null; a text whenever the mirror holds no undefined |
| CacheStore.GetValuePrecedence | src/withaspark.weather.js:41-56 | a fresh cached value wins; otherwise the mirror's non-null value for a present key; otherwise the unknown marker |
| CacheStore.AnyExpired | src/withaspark.weather.js:121-129 | the empty group is never stale; a group with a key whose file is missing is always stale |
| CacheStore.PutEffect | src/withaspark.weather.js:86-92 | the state after `cache(key, v, e)`: an undefined value changes nothing; otherwise the mirror gets `data[key] = v` and the key's file becomes `expires:<e>\n<v>`, stamped now; every other file and mirror entry is unchanged, and no other path appears |
| CacheStore.ApplyFrame | src/withaspark.weather.js:139-159 | for `Apply`, the state after a sequence of cache writes: the sequence changes only the files and mirror entries of its keys, and adds no others |
| CacheStore.ApplyLastWriteWins | src/withaspark.weather.js:139-159 | after a sequence of writes, a key given a value and not written again afterwards has exactly the file `expires:<e>\n<value>`, stamped now, and that mirror value |
| CacheStore.ApplyKeepsUnwritten | src/withaspark.weather.js:77-93 | a key that every write of the sequence leaves undefined keeps its file, or its absence, and its mirror entry |
| CacheStore.WriteThenRead | src/withaspark.weather.js:150-188 | after a write, the read with headers gives the written text; without headers it gives the value when that has no newline, and its text before the first newline otherwise |
| CacheStore.WriteThenExpiry | src/withaspark.weather.js:101-113 | a key written at t0 with expiry e is expired at t exactly when round((t - t0)/60000) >= e; an age equal to e is expired |
| CacheStore.ZeroLifetimeAlwaysExpired | tests/test.js:3 | with lifetime 0, every check at or after the write finds the entry expired |
| CacheStore.WriteThenGetValue | src/withaspark.weather.js:41-56 | after `cache(key, v)`, getValue gives the written text (its first line) while fresh; once expired it gives v from the mirror, or the unknown marker when v is null |
| CacheStore.WriteLeavesOtherKeys | src/withaspark.weather.js:139-159 | a write leaves every other key's file, read, expiry and getValue unchanged |
| Conversions.CelsiusFixedPoints | src/withaspark.weather.js:389-391 | 0 °C is 32 °F, 100 °C is 212 °F, and -40 is the same on both scales |
| Conversions.DegCtoFInverse | src/withaspark.weather.js:389-391 | degCtoF(t) == f exactly when t == (f - 32) * 5 / 9 |
| Conversions.DegCtoF | src/withaspark.weather.js:389-391 | (f - 32) * 5 / 9 gives back the Celsius temperature |
| Conversions.MetersPerSecondToMph | src/withaspark.weather.js:399-401 | dividing by 2.23694 gives back the speed in m/s |
| Conversions.MToIn | src/withaspark.weather.js:409-411 | the inches are twelve times the feet |
| Conversions.PascalsToMmhg | src/withaspark.weather.js:419-421 | dividing by 0.00750062 gives back the pressure in Pa |
| Conversions.MetersToMiles | src/withaspark.weather.js:429-431 | miles times 5280 is the length in feet |
| Conversions.MetersToFeet | src/withaspark.weather.js:439-441 | dividing by 3.28084 gives back the length in metres |
| Conversions.MetersToInches | src/withaspark.weather.js:449-451 | agrees with mToIn, so both are twelve times the feet |
| Conversions.ConversionFixtures | src/withaspark.weather.js:399-441 | 1 m/s is 2.23694 mph; 1000 Pa is 7.50062 mmHg; 1 m is 3.28084 ft; 1609.34 m is one mile to within 1e-5 |
| Conversions.ConversionsStrictlyIncreasing | src/withaspark.weather.js:389-451 | every conversion is strictly increasing |
| Groups.Converted | src/withaspark.weather.js:264-274 | a converted field is always cached as a text, and as "NaN" when the field is not a number |
| Groups.SunEntries | src/withaspark.weather.js:235-237 | the sunrise writes are city, sunrise, sunset in order, each a text |
| Groups.StationEntries | src/withaspark.weather.js:261-274 | the station writes are exactly the 14 gate keys, in the gate's order |
| Groups.StationEntriesAsWritten | src/withaspark.weather.js:261-274 | the 14 writes as the source performs them: the gate's keys in order, identical to the corrected writes except that wind speed and pressure are "NaN" |
| Groups.AsWrittenLosesWindSpeed | src/withaspark.weather.js:269 | as written, a real wind reading is lost, where the corrected writes keep it |
| Groups.StationEntriesConvertReadings | src/withaspark.weather.js:269-274 | corrected, wind speed is cached in mph and pressure in mmHg; a missing heat index is cached as "NaN" |
| Groups.Refresh | src/withaspark.weather.js:223-248 | when no key of the group is expired nothing changes; a failed fetch changes nothing |
| Groups.GroupKeysDistinct | src/withaspark.weather.js:224-246 | no key is written twice in either group |
| Groups.RefreshRewritesGroup | src/withaspark.weather.js:235-274 | after a stale group is refetched, every key given a value has its new file, stamped now, with the configured lifetime and its mirror value; it is expired right afterwards exactly when the lifetime is <= 0 |
| Groups.RefreshClosesGate | src/withaspark.weather.js:121-129 | with a positive lifetime, a successful refresh that gives every group key a value leaves no key of the group expired |
| Groups.RefreshFailureKeepsStore | src/withaspark.weather.js:228-233 | a fetch that throws changes nothing, and it is reported only when the group was stale |
| Groups.RefreshFrame | src/withaspark.weather.js:240-275 | a key outside the written ones keeps its file and mirror entry through a refresh |
| WeatherCache.Weather.constructor | src/withaspark.weather.js:19-33 | the configuration is the defaulted options; then zip and station are cached with the lifetime |
| WeatherCache.Weather.SetInCache | src/withaspark.weather.js:139-159 | throws exactly for an undefined value, and then nothing changes; otherwise only `data[key]` and the key's file change, the file becoming the header and the value, stamped now |
| WeatherCache.Weather.Cache | src/withaspark.weather.js:77-93 | without a value it is the read: null when expired, else the stored value; with one it writes with the given expiry or the configured lifetime and returns the value |
| WeatherCache.Weather.CacheNext | src/withaspark.weather.js:86-92 | one cache write as the next step of a sequence of writes |
| WeatherCache.Weather.GetValue | src/withaspark.weather.js:41-56 | the class's getValue is the precedence `CacheStore.GetValue` describes, and it always gives a text because the mirror never holds undefined |
| WeatherCache.Weather.IsCacheExpiredMany | src/withaspark.weather.js:121-129 | true exactly when some key of the list is expired; false for the empty list |
| WeatherCache.Weather.FetchCitySunriseSunsetForZip | src/withaspark.weather.js:223-238 | the new state and the failure flag are those of the group refresh over city, sunrise and sunset |
| WeatherCache.Weather.WriteSunTimes | src/withaspark.weather.js:235-237 | the three writes give the state `Apply` describes |
| WeatherCache.Weather.FetchWeatherForStation | src/withaspark.weather.js:240-275 | the new state and the failure flag are those of the group refresh over the 14 station keys, with the writes of lines 269-270 in their corrected form (`StationEntries`; the as-written list is `StationEntriesAsWritten`) |
| WeatherCache.Weather.WriteObservation | src/withaspark.weather.js:261-274 | the 14 writes give the state `Apply` describes for the corrected `StationEntries`, which convert the `.value` of wind speed and pressure where lines 269-270 as written do not |
| WeatherCache.Weather.Init | src/withaspark.weather.js:63-66 | the sunrise refresh, then the station refresh, which is skipped when the first one throws |

## Left out

- The HTTP requests, `JSON.parse` and the regular expression over the answer text
  (src/withaspark.weather.js:228-233, 250-259) are external collaborators. The model takes
  the parsed response as an input.
- The file system calls and the clock become a map value and a parameter `now`.
  Write errors in `fs.writeFileSync` are not modelled.
- Floating-point rounding in the conversions: they are over exact reals.
  JavaScript's number-to-text formatting is the parameter `format`.
- A response that lacks an intermediate object (for example `properties.elevation`)
  throws in the middle of the station write pass, after the earlier keys are written.
  The model has only a fetch that fails before any write.
- `Number()` is modelled on the texts the cache itself can produce: the empty text,
  optionally signed decimal digits, and everything else as NaN. Whitespace, fractions,
  exponents, hexadecimal and `Infinity` are left out.
- The configuration's values are texts and an integer lifetime. The source accepts any
  type, for example a numeric zip or a fractional lifetime.
- The `cache_dir` replace at line 24 is left out. It has no replacement argument, and
  for the separator "/" its pattern cannot match. For other separators it could replace a
  match with "undefined". The model takes the directory as given.
- The `that.cache_lifetime` fallback at lines 144-146 has no effect in the model. It runs
  only when `cache_lifetime` is explicitly undefined, and then it assigns a property that
  is itself undefined. The model's lifetime is always an integer.
- The non-string-key check at lines 140 and 169 is left out, because every key the core
  uses is a literal text.
- Values are the JavaScript values that reach the cache: undefined, null and texts.
  A number or an array is represented by its `String` form.
- The per-key getters and `get()` (src/withaspark.weather.js:287-475) only call
  `getValue`.
- The day/night flags, `setNow` and the icon table have no selection logic in the core.
  The command line wrapper is argv and console plumbing.
- `init` runs at the end of the JavaScript constructor. Here it is the separate method
  `Init`, so that its inputs can be given.

- FetchWeatherForStation, WriteObservation: these perform the corrected writes of lines
  269-270 (`Groups.StationEntries`, which convert `.value`). The writes as the source has
  them, with wind speed and pressure always "NaN", are `Groups.StationEntriesAsWritten`.
  See Findings.

## Findings

| source | as written | input that shows it | evidently intended | confidence | as-written member | corrected member |
|---|---|---|---|---|---|---|
| src/withaspark.weather.js:269-270 | `metersPerSecondToMph(response.properties.windSpeed)` and `pascalsToMmhg(response.properties.barometricPressure)` multiply the whole measurement object, which gives NaN | any observation, e.g. `windSpeed: {value: 3}`, caches windSpeed "NaN" instead of 6.71082 | convert `.value`, as every other numeric field does | high (not executed) | Groups.StationEntriesAsWritten | Groups.StationEntriesConvertReadings |
