/** The save-format dispatcher (src/stores/glupo/config/format.ts): a save is tagged
    with the version it was written in, and `Migrate` brings every supported version
    up to the current one through a table of one-step migrations. */
module ConfigFormat {
  import opened Types
  import ConfigV1
  import ConfigV2

  const SupportedVersions: seq<int> := [1, 2]
  const FormatVersion: int := 2

  /** The saved record as read back; `configVersion` may be missing, and its payload is
      only meaningful for a supported version. */
  datatype Payload = V1(v1: ConfigV1.GameData) | V2(v2: ConfigV2.GameData) | Unreadable
  datatype SupportedGameData = SupportedGameData(configVersion: Option<int>, gameData: Payload)

  /** A supported version tag carries data of that version (the union type of the
      source); other tags may carry anything. */
  predicate WellTagged(d: SupportedGameData)
  {
    (d.configVersion == Some(1) ==> d.gameData.V1?)
    && (d.configVersion == Some(2) ==> d.gameData.V2?)
  }

  predicate IsSupported(version: Option<int>)
  {
    version.Some? && version.value in SupportedVersions
  }

  /** `migrate`: an unsupported or missing version gives the default; the current version
      is returned as it is; an older version is migrated one step (the table of one-step
      migrations has the single entry 1, `ConfigV2.Migrate`) and dispatched again. */
  function Migrate(d: SupportedGameData): (r: ConfigV2.GameData)
    requires WellTagged(d)
    decreases if d.configVersion == Some(1) then 1 else 0
  {
    if !IsSupported(d.configVersion) then ConfigV2.Default
    else if d.configVersion.value == FormatVersion then d.gameData.v2
    else Migrate(SupportedGameData(Some(FormatVersion), V2(ConfigV2.Migrate(d.gameData.v1))))
  }

  /** The current default is the version-2 default, and the current version is one of
      the supported ones, the newest. */
  lemma FormatIsCurrent()
    ensures FormatVersion in SupportedVersions
    ensures forall i :: 0 <= i < |SupportedVersions| ==> SupportedVersions[i] <= FormatVersion
  {
  }

  /** Any version tag outside {1, 2}, or none at all, yields the default. */
  lemma UnknownVersionGivesDefault(d: SupportedGameData)
    requires d.configVersion.None? || (d.configVersion.value != 1 && d.configVersion.value != 2)
    ensures Migrate(d) == ConfigV2.Default
  {
  }

  /** Version-2 data is returned unchanged. */
  lemma CurrentVersionUnchanged(g: ConfigV2.GameData)
    ensures Migrate(SupportedGameData(Some(2), V2(g))) == g
  {
  }

  /** Version-1 data passes through the one-step migration exactly once. */
  lemma V1MigratesOnce(g: ConfigV1.GameData)
    ensures Migrate(SupportedGameData(Some(1), V1(g))) == ConfigV2.Migrate(g)
  {
  }

  /** Saving the result tagged with the current version and migrating again changes
      nothing. */
  lemma MigrateIdempotent(d: SupportedGameData)
    requires WellTagged(d)
    ensures Migrate(SupportedGameData(Some(FormatVersion), V2(Migrate(d)))) == Migrate(d)
  {
  }

  /** A consistent save stays consistent through migration; the default is consistent. */
  lemma MigratePreservesConsistency(d: SupportedGameData)
    requires WellTagged(d)
    requires d.configVersion == Some(1) ==> ConfigV1.Consistent(d.gameData.v1)
    requires d.configVersion == Some(2) ==> ConfigV2.Consistent(d.gameData.v2)
    ensures ConfigV2.Consistent(Migrate(d))
  {
    ConfigV2.DefaultIsMigratedDefault();
  }
}
