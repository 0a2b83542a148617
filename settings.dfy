/**
 * The options a weather object is built from and the configuration it keeps,
 * with the defaults the constructor fills in.
 */
module Settings {
  import opened Wrappers

  /** The options object; None stands for a property that is not there. */
  datatype Options = Options(
    zip: Option<string>,
    station: Option<string>,
    cacheDir: Option<string>,
    cachePrefix: Option<string>,
    cacheLifetime: Option<int>,
    unknown: Option<string>)

  /**
   * The configuration: `sep` is the platform's path separator; the lifetime is
   * in minutes.
   */
  datatype Config = Config(
    zip: string,
    station: string,
    cacheDir: string,
    sep: string,
    cachePrefix: string,
    cacheLifetime: int,
    unknown: string)

  /** `option || fallback` on a text option: a missing or empty text is falsy. */
  function OrElse(option: Option<string>, fallback: string): string {
    if option.Some? && option.value != "" then option.value else fallback
  }

  /** Options with every property missing. */
  const NoOptions := Options(None, None, None, None, None, None)

  /** The configuration the constructor derives from its options. */
  function MakeConfig(options: Options, sep: string): (cfg: Config)
    ensures cfg.sep == sep
    ensures cfg.zip != "" && cfg.station != "" && cfg.cacheDir != ""
    ensures cfg.cachePrefix != "" && cfg.unknown != ""
  {
    Config(
      OrElse(options.zip, "32202"),
      OrElse(options.station, "KJAX"),
      OrElse(options.cacheDir, "/tmp"),
      sep,
      OrElse(options.cachePrefix, "withaspark.weather."),
      if options.cacheLifetime.Some? then options.cacheLifetime.value else 5,
      OrElse(options.unknown, "?"))
  }

  /** Without options every setting takes its default. */
  lemma DefaultConfig(sep: string)
    ensures MakeConfig(NoOptions, sep)
         == Config("32202", "KJAX", "/tmp", sep, "withaspark.weather.", 5, "?")
  {
  }

  /**
   * The lifetime is tested for presence, not truthiness: an explicit 0 is kept
   * and 5 is used only when the option is absent. Text options fall back on
   * their default when missing or empty, and are kept otherwise.
   */
  lemma ConfigDefaults(options: Options, sep: string)
    ensures options.cacheLifetime == Some(0) ==> MakeConfig(options, sep).cacheLifetime == 0
    ensures options.cacheLifetime == None ==> MakeConfig(options, sep).cacheLifetime == 5
    ensures options.cacheLifetime.Some? ==> MakeConfig(options, sep).cacheLifetime == options.cacheLifetime.value
    ensures options.zip in {None, Some("")} ==> MakeConfig(options, sep).zip == "32202"
    ensures options.zip.Some? && options.zip.value != "" ==> MakeConfig(options, sep).zip == options.zip.value
    ensures options.station in {None, Some("")} ==> MakeConfig(options, sep).station == "KJAX"
    ensures options.station.Some? && options.station.value != "" ==> MakeConfig(options, sep).station == options.station.value
    ensures options.cacheDir in {None, Some("")} ==> MakeConfig(options, sep).cacheDir == "/tmp"
    ensures options.cacheDir.Some? && options.cacheDir.value != "" ==> MakeConfig(options, sep).cacheDir == options.cacheDir.value
    ensures options.cachePrefix in {None, Some("")} ==> MakeConfig(options, sep).cachePrefix == "withaspark.weather."
    ensures options.cachePrefix.Some? && options.cachePrefix.value != "" ==>
      MakeConfig(options, sep).cachePrefix == options.cachePrefix.value
    ensures options.unknown in {None, Some("")} ==> MakeConfig(options, sep).unknown == "?"
    ensures options.unknown.Some? && options.unknown.value != "" ==> MakeConfig(options, sep).unknown == options.unknown.value
  {
  }
}
