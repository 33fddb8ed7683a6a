/** The getters of the reward game's store (src/stores/glupo/store.ts): balance caps and
    upgrade prices per risk tier, stat upgrade prices, the effective player stats and
    the stats derived from them, the shop order, and the trinket gacha's sampling. */
module Economy {
  import opened Types
  import Utils
  import Weapons
  import Armors
  import Trinkets
  import ConfigV2
  import HarvestArmor

  // ---- Risk tiers ----------------------------------------------------------------

  /** The balance cap of each tier; Aleph has none (Infinity in the source). */
  function RiskBalanceLimit(r: RiskLevel): (cap: Option<int>)
    ensures cap.None? <==> r == Aleph
  {
    match r
    case Zayin => Some(500)
    case Teth => Some(7500)
    case He => Some(75000)
    case Waw => Some(750000)
    case Aleph => None
  }

  /** The price of leaving a tier for the next; none at Aleph. */
  function RiskUpgradeCost(r: RiskLevel): (cost: Option<int>)
    ensures cost.None? <==> r == Aleph
    ensures cost.Some? ==> cost.value > 0
  {
    match r
    case Zayin => Some(500)
    case Teth => Some(7500)
    case He => Some(75000)
    case Waw => Some(750000)
    case Aleph => None
  }

  /** The tier above; none above Aleph. */
  function NextRiskLevel(r: RiskLevel): (next: Option<RiskLevel>)
    ensures next.None? <==> r == Aleph
    ensures next.Some? ==> RiskIndex(next.value) == RiskIndex(r) + 1
  {
    match r
    case Zayin => Some(Teth)
    case Teth => Some(He)
    case He => Some(Waw)
    case Waw => Some(Aleph)
    case Aleph => None
  }

  /** Leaving a tier costs exactly its cap, and caps grow strictly from tier to tier. */
  lemma RiskTable(a: RiskLevel, b: RiskLevel)
    ensures RiskUpgradeCost(a) == RiskBalanceLimit(a)
    ensures RiskIndex(a) < RiskIndex(b) && b != Aleph ==> RiskBalanceLimit(a).value < RiskBalanceLimit(b).value
    ensures RiskBalanceLimit(Zayin) == Some(500) && RiskBalanceLimit(Teth) == Some(7500)
    ensures RiskBalanceLimit(He) == Some(75000) && RiskBalanceLimit(Waw) == Some(750000)
  {
  }

  /** `addBalance`'s arithmetic: the sum, cut down to the cap when there is one. */
  function CappedAdd(balance: int, amount: int, cap: Option<int>): (r: int)
    ensures cap.None? ==> r == balance + amount
    ensures cap.Some? ==> r <= cap.value && r <= balance + amount
    ensures cap.Some? ==> r == cap.value || r == balance + amount
  {
    if cap.Some? && cap.value < balance + amount then cap.value else balance + amount
  }

  /** Whether a balance respects the cap of a tier. */
  predicate WithinCap(balance: int, r: RiskLevel)
  {
    RiskBalanceLimit(r).None? || balance <= RiskBalanceLimit(r).value
  }

  /** `isFullBalance`: the balance sits exactly at a finite cap. */
  predicate IsFullBalance(d: ConfigV2.GameData)
  {
    RiskBalanceLimit(d.riskLevel) == Some(d.balance)
  }

  // ---- Stat upgrades -------------------------------------------------------------

  /** The price of raising a stat from each level. */
  const StatsLevelsCost: seq<int> := [0, 100, 300, 1500, 10000, 30000, 100000, 250000, 1000000, 2500000]

  /** The highest level of every stat: the length of the price table. */
  const MaxStat: int := |StatsLevelsCost|

  /** The price of raising a stat from `level`; none outside the table (the source's
      `?? null` on an out-of-range index). */
  function StatUpgradeCost(level: int): (cost: Option<int>)
    ensures cost.Some? <==> 0 <= level < MaxStat
    ensures cost.Some? ==> cost.value >= 0
  {
    if 0 <= level < |StatsLevelsCost| then Some(StatsLevelsCost[level]) else None
  }

  /** Prices strictly rise with the level, and the table stops at level 10. */
  lemma StatPricesRise(i: int, j: int)
    requires 0 <= i < j < MaxStat
    ensures StatUpgradeCost(i).value < StatUpgradeCost(j).value
    ensures MaxStat == 10 && StatUpgradeCost(0) == Some(0) && StatUpgradeCost(9) == Some(2500000)
  {
  }

  /** `canUpgradeStats[k]`: a price exists for the current level and the balance covers it. */
  predicate CanUpgradeStat(d: ConfigV2.GameData, k: StatKey)
  {
    var cost := StatUpgradeCost(d.baseStats.Get(k));
    cost.Some? && d.balance >= cost.value
  }

  // ---- Effective and derived stats -----------------------------------------------

  /** `playerStats`: base stats plus the weapon's, the armor's and the bonus, each axis
      clamped below at zero. */
  function PlayerStats(d: ConfigV2.GameData, bonus: Stats): (s: Stats)
    ensures forall k :: s.Get(k) == Max0(d.baseStats.Get(k) + Weapons.Modifier(d.selectedWeapon).Get(k)
                                         + Armors.Modifier(d.selectedArmor).Get(k) + bonus.Get(k))
    ensures forall k :: s.Get(k) >= 0
  {
    var w := Weapons.Modifier(d.selectedWeapon);
    var a := Armors.Modifier(d.selectedArmor);
    PlusIsAxisWise(d.baseStats, w);
    PlusIsAxisWise(d.baseStats.Plus(w), a);
    PlusIsAxisWise(d.baseStats.Plus(w).Plus(a), bonus);
    d.baseStats.Plus(w).Plus(a).Plus(bonus).ClampNonNeg()
  }

  /** With the Harvest armor equipped, whatever the base, weapon and bonus prudence add up
      to below 999, the effective prudence is 0 and the maximum sanity is 60. */
  lemma HarvestArmorZeroesPrudence(d: ConfigV2.GameData, bonus: Stats)
    requires d.selectedArmor == Armors.Harvest
    requires d.baseStats.prudence + Weapons.Modifier(d.selectedWeapon).prudence + bonus.prudence < 999
    ensures PlayerStats(d, bonus).prudence == 0
    ensures Derive(d, bonus).maxSanity == 60
  {
    assert PlayerStats(d, bonus).Get(Prudence) == 0;
  }

  /** The critical chance after `t` points of temperance, in units of 1/8 percent: 5%
      (40 units) per point up to 50%, 2.5% up to 75%, 1.25% up to 90%, 0.625% up to the
      95% cap (760 units). */
  function CritUnits(t: int): (c: int)
    ensures 0 <= c <= 760
  {
    if t <= 0 then 0
    else if t <= 10 then 40 * t
    else if t <= 20 then 400 + 20 * (t - 10)
    else if t <= 32 then 600 + 10 * (t - 20)
    else if t <= 40 then 720 + 5 * (t - 32)
    else 760
  }

  /** Temperance 0 gives no chance, 1 gives 5%, 20 gives 75%; the chance never falls as
      temperance rises. */
  lemma CritChanceFacts(t: int, t2: int)
    ensures CritUnits(0) == 0 && CritUnits(1) == 40 && CritUnits(20) == 600
    ensures t <= t2 ==> CritUnits(t) <= CritUnits(t2)
  {
  }

  /** The loop of the `stats` getter, with its early exit at the cap, computes `CritUnits`:
      the chance as a fraction is the result divided by 800. */
  method CriticalChanceUnits(temperance: int) returns (c: int)
    ensures c == CritUnits(temperance)
  {
    c := 0;
    var current := temperance;
    while current > 0
      invariant temperance > 0 ==> 0 <= current <= temperance
      invariant c == CritUnits(if temperance <= 0 then 0 else temperance - current)
      decreases current
    {
      var step := 40;
      if c + step > 400 {
        step := step / 2;
      }
      if c + step > 600 {
        step := step / 2;
      }
      if c + step > 720 {
        step := step / 2;
      }
      if c + step > 760 {
        c := 760;
        CritChanceFacts(temperance - current, temperance);
        return;
      }
      c := c + step;
      current := current - 1;
    }
  }

  /** Box range: at least one box, and the minimum never exceeds the maximum. */
  lemma BoxRange(f: int)
    requires f >= 0
    ensures 1 <= Floor(f as real / 3.0) + 1 <= Floor(f as real * 1.5) + 1
  {
  }

  /** Prudence shortens the regeneration delay from 2500 ms. */
  function RegenerationDelay(p: int): (r: real)
    requires p >= 0
    ensures 0.0 < r <= 2500.0
  {
    var den := 1.0 + 0.3 * p as real;
    assert 2500.0 / den <= 2500.0 by {
      assert 2500.0 <= 2500.0 * den;
    }
    2500.0 / den
  }

  /** Prudence shortens the step of panic recovery from 300 ms. */
  function PanicRestoreDelay(p: int): (r: real)
    requires p >= 0
    ensures 0.0 < r <= 300.0
  {
    var den := p as real + 1.0;
    assert 300.0 / den <= 300.0 by {
      assert 300.0 <= 300.0 * den;
    }
    300.0 / den
  }

  /** Justice divides the weapon's cooldown by 1 + 0.1 per point. */
  function RealCooldown(cooldown: real, j: int): (r: real)
    requires j >= 0 && cooldown > 0.0
    ensures 0.0 < r <= cooldown
  {
    var modifier := 1.0 + j as real * 0.1;
    assert cooldown / modifier <= cooldown by {
      assert cooldown <= cooldown * modifier;
    }
    cooldown / modifier
  }

  /** The stats derived from the effective stats and the selected weapon. */
  datatype Derived = Derived(
    minBoxes: int, maxBoxes: int,
    maxSanity: int, regenerationDelay: real, panicRestoreDelay: real,
    criticalChance: real, criticalMultiplier: real,
    cooldownModifier: real, cooldown: real, realCooldown: real,
    boxPrice: real)

  /** The `stats` getter. Fortitude sets the box range, prudence the sanity and the
      recovery delays, temperance the critical chance, justice the cooldown. */
  function Derive(d: ConfigV2.GameData, bonus: Stats): (r: Derived)
    ensures 1 <= r.minBoxes <= r.maxBoxes
    ensures r.maxSanity >= 60 && (r.maxSanity - 60) % 20 == 0
    ensures 0.0 < r.panicRestoreDelay <= 300.0 && 0.0 < r.regenerationDelay <= 2500.0
    ensures 0.0 <= r.criticalChance <= 0.95
    ensures r.cooldownModifier >= 1.0 && 0.0 < r.realCooldown <= r.cooldown
    ensures r.criticalMultiplier == Weapons.Get(d.selectedWeapon).critMultiplier
    ensures r.boxPrice == Weapons.Get(d.selectedWeapon).boxPrice
  {
    var s := PlayerStats(d, bonus);
    var w := Weapons.Get(d.selectedWeapon);
    var f := s.fortitude as real;
    assert s.Get(Fortitude) >= 0 && s.Get(Prudence) >= 0 && s.Get(Justice) >= 0;
    BoxRange(s.fortitude);
    CooldownsPositive(d.selectedWeapon);
    Derived(
      Floor(f / 3.0) + 1, Floor(f * 1.5) + 1,
      60 + s.prudence * 20, RegenerationDelay(s.prudence), PanicRestoreDelay(s.prudence),
      CritUnits(s.temperance) as real / 800.0, w.critMultiplier,
      1.0 + s.justice as real * 0.1, w.cooldown, RealCooldown(w.cooldown, s.justice),
      w.boxPrice)
  }

  /** Every weapon's cooldown is positive. */
  lemma CooldownsPositive(id: Weapons.WeaponId)
    ensures Weapons.Get(id).cooldown > 0.0
  {
  }

  /** What each derived stat is made of: fortitude gives the box range, prudence the
      maximum sanity, justice the cooldown modifier; the box price is the weapon's. */
  lemma DeriveReadsAxes(d: ConfigV2.GameData, bonus: Stats, s: Stats)
    requires PlayerStats(d, bonus) == s
    ensures Derive(d, bonus).minBoxes == Floor(s.fortitude as real / 3.0) + 1
    ensures Derive(d, bonus).maxBoxes == Floor(s.fortitude as real * 1.5) + 1
    ensures Derive(d, bonus).maxSanity == 60 + 20 * s.prudence
    ensures Derive(d, bonus).cooldownModifier == 1.0 + s.justice as real * 0.1
    ensures Derive(d, bonus).criticalChance == CritUnits(s.temperance) as real / 800.0
  {
  }

  /** The default save with no bonus: one or two boxes per hit, 140 sanity (the armor's
      +3 prudence on top of base 1), a cooldown divided by 1.2, and a box price of 1. */
  lemma DefaultDerived()
    ensures var r := Derive(ConfigV2.Default, Zero);
      r.minBoxes == 1 && r.maxBoxes == 2 && r.maxSanity == 140
      && r.cooldownModifier == 1.2 && r.boxPrice == 1.0
  {
    var d := ConfigV2.Default;
    var s := PlayerStats(d, Zero);
    assert s.Get(Fortitude) == 1 && s.Get(Prudence) == 4 && s.Get(Temperance) == 1 && s.Get(Justice) == 2;
    StatsHaveFourAxes(s, Stats(1, 4, 1, 2));
    DeriveReadsAxes(d, Zero, Stats(1, 4, 1, 2));
    assert Floor(1.0 / 3.0) == 0 && Floor(1.0 * 1.5) == 1;
  }

  // ---- Shops ---------------------------------------------------------------------

  datatype WeaponEntry = WeaponEntry(id: Weapons.WeaponId, isBought: bool, isSelected: bool)
  datatype ArmorEntry = ArmorEntry(id: Armors.ArmorId, isBought: bool, isSelected: bool)

  /** `weaponsShop`: every weapon, cheapest first, flagged as bought and selected. */
  function WeaponsShop(d: ConfigV2.GameData): (shop: seq<WeaponEntry>)
    ensures |shop| == |Weapons.ShopOrder|
    ensures forall i :: 0 <= i < |shop| ==>
      shop[i].id == Weapons.ShopOrder[i]
      && (shop[i].isBought <==> shop[i].id in d.boughtWeapons)
      && (shop[i].isSelected <==> shop[i].id == d.selectedWeapon)
  {
    var order := Utils.SortByKey(Weapons.Cost, Weapons.AllWeapons);
    Weapons.ShopIsByCost();
    seq(|order|, i requires 0 <= i < |order| =>
      WeaponEntry(order[i], order[i] in d.boughtWeapons, order[i] == d.selectedWeapon))
  }

  /** `armorShop`: every armor, cheapest first, flagged as bought and selected. */
  function ArmorShop(d: ConfigV2.GameData): (shop: seq<ArmorEntry>)
    ensures |shop| == |Armors.AllArmors|
    ensures forall i :: 0 <= i < |shop| ==>
      shop[i].id == Armors.AllArmors[i]
      && (shop[i].isBought <==> shop[i].id in d.boughtArmor)
      && (shop[i].isSelected <==> shop[i].id == d.selectedArmor)
  {
    var order := Utils.SortByKey(Armors.Cost, Armors.AllArmors);
    Armors.ShopIsByCost();
    seq(|order|, i requires 0 <= i < |order| =>
      ArmorEntry(order[i], order[i] in d.boughtArmor, order[i] == d.selectedArmor))
  }

  /** In a consistent save exactly one shop entry is selected, and it is bought. */
  lemma ShopSelectsOneOwned(d: ConfigV2.GameData, i: nat, j: nat)
    requires ConfigV2.Consistent(d)
    ensures i < |WeaponsShop(d)| && WeaponsShop(d)[i].isSelected ==> WeaponsShop(d)[i].isBought
    ensures i < j < |WeaponsShop(d)| ==> !(WeaponsShop(d)[i].isSelected && WeaponsShop(d)[j].isSelected)
    ensures exists k :: 0 <= k < |WeaponsShop(d)| && WeaponsShop(d)[k].isSelected
    ensures i < |ArmorShop(d)| && ArmorShop(d)[i].isSelected ==> ArmorShop(d)[i].isBought
    ensures i < j < |ArmorShop(d)| ==> !(ArmorShop(d)[i].isSelected && ArmorShop(d)[j].isSelected)
    ensures exists k :: 0 <= k < |ArmorShop(d)| && ArmorShop(d)[k].isSelected
  {
    Weapons.ShopIsByCost();
    Armors.ShopIsByCost();
    var k := WeaponShopIndex(d.selectedWeapon);
    assert WeaponsShop(d)[k].isSelected;
    Armors.RegistryIsComplete(d.selectedArmor, d.selectedArmor);
    var m :| 0 <= m < |Armors.AllArmors| && Armors.AllArmors[m] == d.selectedArmor;
    assert ArmorShop(d)[m].isSelected;
  }

  /** Where a weapon stands in the shop. */
  function WeaponShopIndex(id: Weapons.WeaponId): (k: nat)
    ensures k < |Weapons.ShopOrder| && Weapons.ShopOrder[k] == id
  {
    match id
    case Penitence => 0
    case RedEyes => 1
    case Harvest => 2
    case Heaven => 3
    case GoldRush => 4
    case MagicBullet => 5
    case Smile => 6
    case Twilight => 7
  }

  // ---- Trinket gacha -------------------------------------------------------------

  /** Light shards per roll. */
  const TrinketRollCost: int := 3

  /** The weight of each rarity; the draw walks them in `Trinkets.AllRarities` order. */
  function RarityWeight(r: Trinkets.Rarity): real
  {
    match r
    case Common => 0.5
    case Rare => 0.3
    case Special => 0.2
  }

  /** One rarity draw: common for u <= 0.5, rare for 0.5 < u <= 0.8, special above. */
  function SampleRarity(u: Unit): (r: Trinkets.Rarity)
    ensures r == Trinkets.Common <==> u <= 0.5
    ensures r == Trinkets.Rare <==> 0.5 < u <= 0.8
    ensures r == Trinkets.Special <==> 0.8 < u
  {
    var ws := Utils.Weights(Trinkets.AllRarities, RarityWeight);
    Utils.WeightedPickReaches(Trinkets.AllRarities, RarityWeight, u);
    assert ws == [0.5, 0.3, 0.2];
    assert ws[..0] == [] && ws[..1] == [0.5] && ws[..2] == [0.5, 0.3];
    assert Utils.Sum(ws) == 1.0 by {
      assert ws[1..] == [0.3, 0.2] && ws[1..][1..] == [0.2] && ws[1..][1..][1..] == [];
      assert Utils.Sum([0.2]) == 0.2;
      assert Utils.Sum([0.3, 0.2]) == 0.5;
    }
    assert Utils.Sum(ws[..2]) == 0.8 by {
      assert ws[..2][1..] == [0.3] && ws[..2][1..][1..] == [];
      assert Utils.Sum([0.3]) == 0.3;
    }
    match Utils.WeightedPick(Trinkets.AllRarities, RarityWeight, u)
    case Some(r) => r
  }

  /** A trinket of rarity `r`, picked uniformly from its group. */
  function PickOfRarity(r: Trinkets.Rarity, u: Unit): (t: Trinkets.TrinketId)
    ensures Trinkets.RarityOf(t) == r
    ensures t in Trinkets.ByRarity(r)
  {
    var group := Trinkets.ByRarity(r);
    Trinkets.ByRarityPartitions(r, Trinkets.Dante);
    var pick := Utils.Choose(group, u);
    Trinkets.ByRarityPartitions(r, pick.value);
    pick.value
  }

  /** One reel sample: a rarity, then a trinket of that rarity picked uniformly. */
  function SampleTrinket(u1: Unit, u2: Unit): (t: Trinkets.TrinketId)
    ensures Trinkets.RarityOf(t) == SampleRarity(u1)
  {
    PickOfRarity(SampleRarity(u1), u2)
  }
}
