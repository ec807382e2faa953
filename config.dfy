/** The user configuration file and the freshness test of its in-memory
    cache. The file's JSON is modelled by its already-parsed fields; an
    absent or non-truthy field is "" or false. */
module Config {
  import opened Wrappers
  import opened JsString

  /** Five minutes, in milliseconds. */
  const ConfigCacheTtl: nat := 5 * 60 * 1000

  /** The fields of `config.json` the core reads. */
  datatype Config = Config(language: string, useEmoji: bool, conventionalCommit: bool, verbose: bool)

  /** What reading the configuration file gives: no file, a file that cannot
      be read or parsed, or its parsed contents. */
  datatype ConfigFile = Missing | Unreadable | Parsed(config: Config)

  /** The cache is used when it holds a configuration loaded less than the
      time-to-live before `now`. Times are milliseconds since the epoch; a
      clock that moved back counts as fresh, as the subtraction does. */
  predicate CacheFresh(cache: Option<Config>, cacheTime: nat, now: nat)
  {
    cache.Some? && (now as int) - (cacheTime as int) < ConfigCacheTtl as int
  }

  /** A cached configuration is fresh exactly until the time-to-live has
      elapsed since it was loaded. */
  lemma FreshUntilTtl(c: Config, cacheTime: nat, now: nat)
    ensures CacheFresh(Some(c), cacheTime, now) <==> now < cacheTime + 300000
    ensures !CacheFresh(None, cacheTime, now)
  {
  }

  /** A configuration cached at `t` is used at `t` and at every later time
      before `t` + 5 minutes, and at none from then on. */
  lemma FreshnessMonotone(c: Config, cacheTime: nat, now: nat, later: nat)
    requires now <= later
    ensures CacheFresh(Some(c), cacheTime, later) ==> CacheFresh(Some(c), cacheTime, now)
    ensures CacheFresh(Some(c), cacheTime, cacheTime)
  {
  }

  const DefaultLanguage: string := "en"

  /** `this.language || config.language || 'en'`: the language already set
      wins, then the file's, then English. */
  function MergeLanguage(current: string, fromFile: string): (l: string)
    ensures l != ""
    ensures current != "" ==> l == current
    ensures current == "" && fromFile != "" ==> l == fromFile
    ensures current == "" && fromFile == "" ==> l == DefaultLanguage
  {
    OrElse(OrElse(current, fromFile), DefaultLanguage)
  }

  /** The `||` merge of `loadConfig`: each option already set is kept,
      and an unset one takes the file's value. */
  function Merge(current: Config, fromFile: Config): Config
  {
    Config(MergeLanguage(current.language, fromFile.language), current.useEmoji || fromFile.useEmoji,
           current.conventionalCommit || fromFile.conventionalCommit, current.verbose || fromFile.verbose)
  }

  /** Merging the same file again, as a reload after the cache expires
      does, changes nothing more. */
  lemma MergeIdempotent(current: Config, fromFile: Config)
    ensures Merge(Merge(current, fromFile), fromFile) == Merge(current, fromFile)
  {
  }

  /** The constructor has already defaulted the language to "en", so the
      language of the configuration file never takes effect: the merge gives
      the command-line language, or English. */
  lemma FileLanguageNeverApplies(optionLanguage: string, fromFile: string)
    ensures MergeLanguage(OrElse(optionLanguage, DefaultLanguage), fromFile) == OrElse(optionLanguage, DefaultLanguage)
    ensures optionLanguage == "" ==> MergeLanguage(OrElse(optionLanguage, DefaultLanguage), fromFile) == DefaultLanguage
  {
  }

  /** The language the help text's `config.json` example promises: the
      command-line language, else the configuration file's (when there is a
      file and it names one), else English. */
  function IntendedLanguage(optionLanguage: string, fileLanguage: Option<string>): (l: string)
    ensures l != ""
    ensures optionLanguage != "" ==> l == optionLanguage
    ensures optionLanguage == "" && fileLanguage.Some? && fileLanguage.value != "" ==> l == fileLanguage.value
    ensures optionLanguage == "" && (fileLanguage.None? || fileLanguage.value == "") ==> l == DefaultLanguage
  {
    match fileLanguage
    case Some(f) => OrElse(OrElse(optionLanguage, f), DefaultLanguage)
    case None => OrElse(optionLanguage, DefaultLanguage)
  }

  /** Without `-l`, a file naming "ja" gives Japanese as intended, where the
      source keeps English. */
  lemma FileJapaneseIgnored()
    ensures IntendedLanguage("", Some("ja")) == "ja"
    ensures MergeLanguage(OrElse("", DefaultLanguage), "ja") == DefaultLanguage
  {
    FileLanguageNeverApplies("", "ja");
  }
}
