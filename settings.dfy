/** The application settings of the backend (src-tauri/src/settings.rs): a versioned
    record stored as a configuration file, the bundled defaults, and the migration that
    brings a version-0 file up to the current version. Files are inputs: a file is
    missing, unreadable, or present with what parsing it gave. */
module Settings {
  import opened Types

  const CurrentConfigVersion: nat := 1

  datatype LocalizationSource = LocalizationSource(name: string, url: string)

  datatype AppSettings = AppSettings(
    configVersion: nat,
    sources: map<string, LocalizationSource>,
    selectedSource: Option<string>,
    gameDirectory: Option<string>,
    language: Option<string>)

  /** A settings record as stored: the version may be absent. */
  datatype StoredSettings = StoredSettings(
    configVersion: Option<nat>,
    sources: map<string, LocalizationSource>,
    selectedSource: Option<string>,
    gameDirectory: Option<string>,
    language: Option<string>)

  /** Reading a stored record: an absent version reads as 0, everything else as stored. */
  function Deserialize(s: StoredSettings): (r: AppSettings)
    ensures s.configVersion.None? ==> r.configVersion == 0
    ensures s.configVersion.Some? ==> r.configVersion == s.configVersion.value
    ensures r.sources == s.sources && r.selectedSource == s.selectedSource
    ensures r.gameDirectory == s.gameDirectory && r.language == s.language
  {
    AppSettings(if s.configVersion.None? then 0 else s.configVersion.value,
                s.sources, s.selectedSource, s.gameDirectory, s.language)
  }

  /** `AppSettings::default`: the current version, no source, nothing selected. */
  function Default(): (r: AppSettings)
    ensures r.configVersion == CurrentConfigVersion && r.sources == map[]
    ensures r.selectedSource.None? && r.gameDirectory.None? && r.language.None?
  {
    AppSettings(CurrentConfigVersion, map[], None, None, None)
  }

  /** The user's sources with every default source they lack added. */
  function MergeSources(user: map<string, LocalizationSource>, defaults: map<string, LocalizationSource>): map<string, LocalizationSource>
  {
    map k | k in user.Keys + defaults.Keys :: if k in user then user[k] else defaults[k]
  }

  /** `migrate_settings`: whether it changed something, and the settings after it. */
  function MigrateRule(settings: AppSettings, defaults: AppSettings): (bool, AppSettings)
  {
    if settings.configVersion >= CurrentConfigVersion then (false, settings)
    else
      var s := if settings.configVersion < 1
               then settings.(sources := MergeSources(settings.sources, defaults.sources), configVersion := 1)
               else settings;
      (true, s)
  }

  /** A record at the current version or later is left alone and reported unchanged. A
      version-0 record is reported changed: it ends at version 1 with every default
      source key it lacked, keeps the user's value for every key it had, loses no key,
      and nothing else of it changes. */
  lemma MigrateOutcome(settings: AppSettings, defaults: AppSettings)
    ensures var (changed, r) := MigrateRule(settings, defaults);
      (settings.configVersion >= 1 ==> !changed && r == settings)
      && (settings.configVersion == 0 ==>
            changed && r.configVersion == 1
            && r.sources.Keys == settings.sources.Keys + defaults.sources.Keys
            && (forall k :: k in settings.sources ==> r.sources[k] == settings.sources[k])
            && (forall k :: k in defaults.sources && k !in settings.sources ==> r.sources[k] == defaults.sources[k])
            && r.selectedSource == settings.selectedSource && r.gameDirectory == settings.gameDirectory
            && r.language == settings.language)
  {
  }

  /** Migrating a migrated record is a no-op. */
  lemma MigrateIdempotent(settings: AppSettings, defaults: AppSettings)
    ensures var r := MigrateRule(settings, defaults).1;
      MigrateRule(r, defaults) == (false, r)
  {
  }

  /** Migration reports a change exactly when the record changes, so the file is
      rewritten only when there is something new to write. */
  lemma MigrateReportsChange(settings: AppSettings, defaults: AppSettings)
    ensures MigrateRule(settings, defaults).0 <==> MigrateRule(settings, defaults).1 != settings
  {
    if settings.configVersion < CurrentConfigVersion {
      assert MigrateRule(settings, defaults).1.configVersion != settings.configVersion;
    }
  }

  /** `migrate_settings` on a record it updates in place: the missing default sources
      are inserted one key at a time, in whatever order the default map yields them. */
  method MigrateSettings(settings: AppSettings, defaults: AppSettings) returns (changed: bool, r: AppSettings)
    ensures (changed, r) == MigrateRule(settings, defaults)
  {
    if settings.configVersion >= CurrentConfigVersion {
      return false, settings;
    }
    r := settings;
    if r.configVersion < 1 {
      var sources := AddMissingSources(r.sources, defaults.sources);
      r := r.(sources := sources, configVersion := 1);
    }
    return true, r;
  }

  /** The insertion loop of `migrate_settings`: every default key the user lacks is
      added with its default source, in whatever order the default map yields them. */
  method AddMissingSources(user: map<string, LocalizationSource>, defaults: map<string, LocalizationSource>) returns (r: map<string, LocalizationSource>)
    ensures r == MergeSources(user, defaults)
  {
    r := user;
    var todo := defaults.Keys;
    assert r == MergeSources(user, defaults - todo);
    while todo != {}
      invariant todo <= defaults.Keys
      invariant r == MergeSources(user, defaults - todo)
      decreases |todo|
    {
      var key :| key in todo;
      MergeStep(user, defaults, todo, key);
      if key !in r {
        r := r[key := defaults[key]];
      }
      todo := todo - {key};
    }
    assert defaults - todo == defaults;
  }

  /** Taking one more default key into account adds its source when the user lacks it. */
  lemma MergeStep(user: map<string, LocalizationSource>, defaults: map<string, LocalizationSource>, todo: set<string>, key: string)
    requires key in todo && todo <= defaults.Keys
    ensures var m := MergeSources(user, defaults - todo);
      (key in m <==> key in user)
      && MergeSources(user, defaults - (todo - {key})) == if key in m then m else m[key := defaults[key]]
  {
    var m := MergeSources(user, defaults - todo);
    var n := MergeSources(user, defaults - (todo - {key}));
    var e := if key in m then m else m[key := defaults[key]];
    assert n.Keys == e.Keys;
    forall k | k in n.Keys
      ensures n[k] == e[k]
    {
    }
  }

  /** What was found where a file was looked for. */
  datatype ConfigFile = Missing | Unreadable | Present(parsed: Option<StoredSettings>)

  datatype LoadResult = LoadResult(settings: AppSettings, written: Option<AppSettings>)

  datatype Loaded<T> = Loaded(value: T) | Failed

  /** `load_bundled_defaults`: the hard-coded default when the bundled file is missing;
      a file that cannot be read or parsed is an error. */
  function BundledDefaults(resource: ConfigFile): (r: Loaded<AppSettings>)
    ensures resource.Missing? ==> r == Loaded(Default())
    ensures resource.Present? && resource.parsed.Some? ==> r == Loaded(Deserialize(resource.parsed.value))
    ensures resource.Unreadable? || (resource.Present? && resource.parsed.None?) ==> r.Failed?
  {
    match resource
    case Missing => Loaded(Default())
    case Unreadable => Failed
    case Present(parsed) => if parsed.Some? then Loaded(Deserialize(parsed.value)) else Failed
  }

  /** `load_settings` given the bundled defaults and the user's file: a missing file is
      replaced by the defaults, which are written; a file that does not parse is read as
      the defaults; a parsed record is read with `Deserialize`; the settings are then migrated and written back only when the
      migration changed them. */
  function Load(config: ConfigFile, defaults: AppSettings): Loaded<LoadResult>
  {
    match config
    case Missing => Loaded(LoadResult(defaults, Some(defaults)))
    case Unreadable => Failed
    case Present(parsed) =>
      var base := if parsed.Some? then Deserialize(parsed.value) else defaults;
      var (changed, s) := MigrateRule(base, defaults);
      Loaded(LoadResult(s, if changed then Some(s) else None))
  }

  /** What loading yields: a missing file gives the defaults and writes them; otherwise
      the result is the parsed record (the defaults when it does not parse) migrated,
      and it is written exactly when it differs from what was read. Whatever is written
      is what is returned. A file stored without a version is always written back, at
      version 1. */
  lemma LoadOutcome(config: ConfigFile, defaults: AppSettings)
    ensures var r := Load(config, defaults);
      (config.Missing? ==> r == Loaded(LoadResult(defaults, Some(defaults))))
      && (config.Unreadable? ==> r.Failed?)
      && (config.Present? ==>
            var base := if config.parsed.Some? then Deserialize(config.parsed.value) else defaults;
            r.Loaded? && r.value.settings == MigrateRule(base, defaults).1
            && (r.value.written.Some? <==> r.value.settings != base)
            && (r.value.written.Some? ==> r.value.written.value == r.value.settings))
      && (config.Present? && config.parsed.Some? && config.parsed.value.configVersion.None? ==>
            r.Loaded? && r.value.written.Some? && r.value.settings.configVersion == 1)
  {
    if config.Present? {
      var base := if config.parsed.Some? then Deserialize(config.parsed.value) else defaults;
      MigrateReportsChange(base, defaults);
    }
  }
}
