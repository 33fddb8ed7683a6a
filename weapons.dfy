/** The weapon registry (src/stores/glupo/weapon/index.ts): eight weapons, keyed by id,
    plus the per-weapon counters of the single shared instance of each weapon. */
module Weapons {
  import opened Types
  import opened Hooks
  import Utils
  import PenitenceWeapon
  import RedEyesWeapon
  import HarvestWeapon
  import HeavenWeapon
  import GoldRushWeapon
  import SmileWeapon
  import TwilightWeapon
  import MagicBulletWeapon

  datatype WeaponId = Penitence | RedEyes | Harvest | Heaven | GoldRush | Smile | Twilight | MagicBullet

  /** The registry in declaration order, which is also ascending cost order. */
  const AllWeapons: seq<WeaponId> := [Penitence, RedEyes, Harvest, Heaven, GoldRush, Smile, Twilight, MagicBullet]

  function Key(id: WeaponId): string
  {
    match id
    case Penitence => "weapon.penitence"
    case RedEyes => "weapon.red-eyes"
    case Harvest => "weapon.harvest"
    case Heaven => "weapon.heaven"
    case GoldRush => "weapon.gold-rush"
    case Smile => "weapon.smile"
    case Twilight => "weapon.twilight"
    case MagicBullet => "weapon.magic-bullet"
  }

  function Cost(id: WeaponId): nat
  {
    match id
    case Penitence => PenitenceWeapon.Cost
    case RedEyes => RedEyesWeapon.Cost
    case Harvest => HarvestWeapon.Cost
    case Heaven => HeavenWeapon.Cost
    case GoldRush => GoldRushWeapon.Cost
    case Smile => SmileWeapon.Cost
    case Twilight => TwilightWeapon.Cost
    case MagicBullet => MagicBulletWeapon.Cost
  }

  function Modifier(id: WeaponId): Stats
  {
    match id
    case Penitence => PenitenceWeapon.Modifier
    case RedEyes => RedEyesWeapon.Modifier
    case Harvest => HarvestWeapon.Modifier
    case Heaven => HeavenWeapon.Modifier
    case GoldRush => GoldRushWeapon.Modifier
    case Smile => SmileWeapon.Modifier
    case Twilight => TwilightWeapon.Modifier
    case MagicBullet => MagicBulletWeapon.Modifier
  }

  /** The registry entry of a weapon: its record carries the id it is registered under,
      its image is its id, and every weapon has a hit hook and no panic hooks. */
  function Get(id: WeaponId): (w: Weapon)
    ensures w.id == Key(id) && w.image == Key(id)
    ensures w.cost == Cost(id) && w.stats == Modifier(id)
    ensures w.onHit.Some? && w.onPanic.None? && w.onPanicEnd.None?
  {
    match id
    case Penitence => Weapon(Key(id), Key(id), Modifier(id), PenitenceWeapon.Cooldown, PenitenceWeapon.CritMultiplier,
                             PenitenceWeapon.BoxPrice, Cost(id), PenitenceWeapon.ChainPosition, Some(PenitenceWeapon.OnHit), None, None)
    case RedEyes => Weapon(Key(id), Key(id), Modifier(id), RedEyesWeapon.Cooldown, RedEyesWeapon.CritMultiplier,
                           RedEyesWeapon.BoxPrice, Cost(id), RedEyesWeapon.ChainPosition, Some(RedEyesWeapon.OnHit), None, None)
    case Harvest => Weapon(Key(id), Key(id), Modifier(id), HarvestWeapon.Cooldown, HarvestWeapon.CritMultiplier,
                           HarvestWeapon.BoxPrice, Cost(id), HarvestWeapon.ChainPosition, Some(HarvestWeapon.OnHit), None, None)
    case Heaven => Weapon(Key(id), Key(id), Modifier(id), HeavenWeapon.Cooldown, HeavenWeapon.CritMultiplier,
                          HeavenWeapon.BoxPrice, Cost(id), HeavenWeapon.ChainPosition, Some(HeavenWeapon.OnHit), None, None)
    case GoldRush => Weapon(Key(id), Key(id), Modifier(id), GoldRushWeapon.Cooldown, GoldRushWeapon.CritMultiplier,
                            GoldRushWeapon.BoxPrice, Cost(id), GoldRushWeapon.ChainPosition, Some(GoldRushWeapon.OnHit), None, None)
    case Smile => Weapon(Key(id), Key(id), Modifier(id), SmileWeapon.Cooldown, SmileWeapon.CritMultiplier,
                         SmileWeapon.BoxPrice, Cost(id), SmileWeapon.ChainPosition, Some(SmileWeapon.OnHit), None, None)
    case Twilight => Weapon(Key(id), Key(id), Modifier(id), TwilightWeapon.Cooldown, TwilightWeapon.CritMultiplier,
                            TwilightWeapon.BoxPrice, Cost(id), TwilightWeapon.ChainPosition, Some(TwilightWeapon.OnHit), None, None)
    case MagicBullet => Weapon(Key(id), Key(id), Modifier(id), MagicBulletWeapon.Cooldown, MagicBulletWeapon.CritMultiplier,
                               MagicBulletWeapon.BoxPrice, Cost(id), MagicBulletWeapon.ChainPosition, Some(MagicBulletWeapon.OnHit), None, None)
  }

  /** Eight weapons, each registered once, under pairwise distinct ids. */
  lemma RegistryIsComplete(a: WeaponId, b: WeaponId)
    ensures |AllWeapons| == 8 && a in AllWeapons
    ensures Key(a) == Key(b) ==> a == b
  {
    if Key(a) == Key(b) {
      assert Key(a)[7] == Key(b)[7];
      assert Key(a)[8] == Key(b)[8];
    }
  }

  /** The weapons by ascending cost: Magic Bullet (40000) comes before Smile (200000),
      unlike in the registry. */
  const ShopOrder: seq<WeaponId> := [Penitence, RedEyes, Harvest, Heaven, GoldRush, MagicBullet, Smile, Twilight]

  /** Sorting the registry by cost gives exactly `ShopOrder`, along which costs strictly
      increase, so no two weapons tie. */
  lemma ShopIsByCost()
    ensures Utils.SortByKey(Cost, AllWeapons) == ShopOrder
    ensures forall i, j :: 0 <= i < j < |ShopOrder| ==> Cost(ShopOrder[i]) < Cost(ShopOrder[j])
  {
    var tail := [MagicBullet, Smile, Twilight];
    TailSorts();
    Utils.SortCons(Cost, GoldRush, [Smile, Twilight, MagicBullet], tail);
    Utils.SortCons(Cost, Heaven, [GoldRush, Smile, Twilight, MagicBullet], [GoldRush] + tail);
    Utils.SortCons(Cost, Harvest, [Heaven, GoldRush, Smile, Twilight, MagicBullet], [Heaven, GoldRush] + tail);
    Utils.SortCons(Cost, RedEyes, [Harvest, Heaven, GoldRush, Smile, Twilight, MagicBullet], [Harvest, Heaven, GoldRush] + tail);
    Utils.SortCons(Cost, Penitence, [RedEyes, Harvest, Heaven, GoldRush, Smile, Twilight, MagicBullet], [RedEyes, Harvest, Heaven, GoldRush] + tail);
  }

  /** The last three registry entries sort to Magic Bullet, Smile, Twilight. */
  lemma TailSorts()
    ensures Utils.SortByKey(Cost, [Smile, Twilight, MagicBullet]) == [MagicBullet, Smile, Twilight]
  {
    assert [Smile, Twilight, MagicBullet][1..] == [Twilight, MagicBullet];
    assert [Twilight, MagicBullet][1..] == [MagicBullet];
    assert [MagicBullet][1..] == [];
    assert Utils.SortByKey(Cost, [MagicBullet]) == [MagicBullet];
    assert Utils.InsertByKey(Cost, Twilight, [MagicBullet]) == [MagicBullet, Twilight];
    assert Utils.SortByKey(Cost, [Twilight, MagicBullet]) == [MagicBullet, Twilight];
    assert [MagicBullet, Twilight][1..] == [Twilight];
    assert Utils.InsertByKey(Cost, Smile, [Twilight]) == [Smile, Twilight];
  }

  /** Gold Rush is the only weapon with a negative modifier: temperance -2. */
  lemma OnlyGoldRushLowersStats(id: WeaponId, k: StatKey)
    ensures Modifier(id).Get(k) < 0 <==> id == GoldRush && k == Temperance
    ensures Modifier(GoldRush).temperance == -2
  {
  }

  /** The single instance of each weapon holds its counters for the whole process: the
      number of live Red Eyes spiders and the number of Magic Bullet shots fired. */
  class Instances {
    var spiderCount: int
    var bulletsFired: nat

    constructor ()
      ensures spiderCount == 0 && bulletsFired == 0
    {
      spiderCount := 0;
      bulletsFired := 0;
    }
  }
}
