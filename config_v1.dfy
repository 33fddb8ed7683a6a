/** The first save format of the reward game (src/stores/glupo/config/v1.ts). */
module ConfigV1 {
  import opened Types
  import Weapons
  import Armors
  import Trinkets

  /** The seven fields of a version-1 save. */
  datatype GameData = GameData(
    selectedWeapon: Weapons.WeaponId,
    selectedArmor: Armors.ArmorId,
    boughtWeapons: seq<Weapons.WeaponId>,
    boughtArmor: seq<Armors.ArmorId>,
    riskLevel: RiskLevel,
    balance: int,
    baseStats: Stats)

  const Default: GameData := GameData(
    Weapons.Penitence, Armors.Penitence, [Weapons.Penitence], [Armors.Penitence],
    Zayin, 0, Stats(1, 1, 1, 1))

  /** What the store keeps true of its saves: the selected items are owned and no item
      is owned twice. */
  predicate Consistent(d: GameData)
  {
    d.selectedWeapon in d.boughtWeapons && d.selectedArmor in d.boughtArmor
    && Trinkets.NoDuplicates(d.boughtWeapons) && Trinkets.NoDuplicates(d.boughtArmor)
  }

  /** The version-1 default: Penitence weapon and armor selected, each the only item
      owned; risk Zayin; no balance; every base stat 1. It is consistent. */
  lemma DefaultIsFresh()
    ensures Default.boughtWeapons == [Default.selectedWeapon] && Default.selectedWeapon == Weapons.Penitence
    ensures Default.boughtArmor == [Default.selectedArmor] && Default.selectedArmor == Armors.Penitence
    ensures Default.riskLevel == Zayin && Default.balance == 0
    ensures forall k :: Default.baseStats.Get(k) == 1
    ensures Consistent(Default)
  {
  }
}
