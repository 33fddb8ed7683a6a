/** The current save format (src/stores/glupo/config/v2.ts): version 1 plus the loop,
    trinket and sound fields, and the migration from version 1. */
module ConfigV2 {
  import opened Types
  import Weapons
  import Armors
  import Trinkets
  import ConfigV1

  datatype GameData = GameData(
    selectedWeapon: Weapons.WeaponId,
    selectedArmor: Armors.ArmorId,
    boughtWeapons: seq<Weapons.WeaponId>,
    boughtArmor: seq<Armors.ArmorId>,
    riskLevel: RiskLevel,
    balance: int,
    baseStats: Stats,
    loopCount: int,
    lightShards: int,
    selectedTrinket: Option<Trinkets.TrinketId>,
    boughtTrinkets: seq<Trinkets.TrinketId>,
    isSoundEnabled: bool)

  const Default: GameData := GameData(
    Weapons.Penitence, Armors.Penitence, [Weapons.Penitence], [Armors.Penitence],
    Zayin, 0, Stats(1, 1, 1, 1),
    0, 0, None, [], true)

  /** The version-1 part of a save. */
  function V1Part(d: GameData): ConfigV1.GameData
  {
    ConfigV1.GameData(d.selectedWeapon, d.selectedArmor, d.boughtWeapons, d.boughtArmor,
                      d.riskLevel, d.balance, d.baseStats)
  }

  /** The store's save invariant: selected items are owned (the trinket may also be
      none), and no bought list holds an item twice. */
  predicate Consistent(d: GameData)
  {
    ConfigV1.Consistent(V1Part(d))
    && (d.selectedTrinket.None? || d.selectedTrinket.value in d.boughtTrinkets)
    && Trinkets.NoDuplicates(d.boughtTrinkets)
  }

  /** Version 1 to version 2: every version-1 field is kept, and the new fields start
      empty, with the sound on. */
  function Migrate(d: ConfigV1.GameData): (r: GameData)
    ensures V1Part(r) == d
    ensures r.lightShards == 0 && r.loopCount == 0
    ensures r.selectedTrinket.None? && r.boughtTrinkets == [] && r.isSoundEnabled
    ensures ConfigV1.Consistent(d) <==> Consistent(r)
  {
    GameData(d.selectedWeapon, d.selectedArmor, d.boughtWeapons, d.boughtArmor,
             d.riskLevel, d.balance, d.baseStats, 0, 0, None, [], true)
  }

  /** The version-2 default is the migrated version-1 default: Penitence weapon and
      armor selected and solely owned, risk Zayin, no balance, base stats 1, no shards,
      no loops, no trinkets and the sound on. It is consistent. */
  lemma DefaultIsMigratedDefault()
    ensures Default == Migrate(ConfigV1.Default)
    ensures Default.boughtWeapons == [Weapons.Penitence] && Default.selectedWeapon == Weapons.Penitence
    ensures Default.boughtArmor == [Armors.Penitence] && Default.selectedArmor == Armors.Penitence
    ensures Default.riskLevel == Zayin && Default.balance == 0 && Default.baseStats == Stats(1, 1, 1, 1)
    ensures Default.lightShards == 0 && Default.loopCount == 0 && Default.selectedTrinket.None?
    ensures Default.boughtTrinkets == [] && Default.isSoundEnabled
    ensures Consistent(Default)
  {
    ConfigV1.DefaultIsFresh();
  }
}
