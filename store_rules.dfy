/** The mutators of the reward game's store (src/stores/glupo/store.ts) as functions from
    the old save record to the new one: each mutator rebuilds the record field by field,
    and a guard that fails leaves it exactly as it was. The store class (store.dfy)
    holds the record and applies them. */
module StoreRules {
  import opened Types
  import opened Hooks
  import Utils
  import Weapons
  import Armors
  import Trinkets
  import ConfigV2
  import Economy

  type GameData = ConfigV2.GameData

  // ---- Balance -------------------------------------------------------------------

  /** `addBalance`: the balance rises by `amount`, cut down to the cap of the current
      tier; nothing else changes. */
  function AddBalance(d: GameData, amount: int): (r: GameData)
    ensures r == d.(balance := r.balance)
    ensures Economy.WithinCap(r.balance, d.riskLevel)
    ensures r.balance <= d.balance + amount
    ensures Economy.RiskBalanceLimit(d.riskLevel).None? ==> r.balance == d.balance + amount
    ensures r.balance == d.balance + amount || Some(r.balance) == Economy.RiskBalanceLimit(d.riskLevel)
  {
    d.(balance := Economy.CappedAdd(d.balance, amount, Economy.RiskBalanceLimit(d.riskLevel)))
  }

  /** The credit for `count` boxes: floor(count * multiplier * boxPrice). */
  function BoxCredit(count: int, multiplier: real, boxPrice: real): (c: int)
    ensures c as real <= count as real * multiplier * boxPrice < c as real + 1.0
  {
    Floor(count as real * multiplier * boxPrice)
  }

  /** `addBoxes`: credits the boxes at the selected weapon's box price, through
      `addBalance`. */
  function AddBoxes(d: GameData, bonus: Stats, count: int, multiplier: real): (r: GameData)
    ensures r == AddBalance(d, BoxCredit(count, multiplier, Weapons.Get(d.selectedWeapon).boxPrice))
  {
    AddBalance(d, BoxCredit(count, multiplier, Economy.Derive(d, bonus).boxPrice))
  }

  /** With Magic Bullet selected (box price 0) boxes credit nothing: within the cap the
      record is unchanged. */
  lemma MagicBulletBoxesPayNothing(d: GameData, bonus: Stats, count: int, multiplier: real)
    requires d.selectedWeapon == Weapons.MagicBullet
    requires Economy.WithinCap(d.balance, d.riskLevel)
    ensures AddBoxes(d, bonus, count, multiplier) == d
  {
    assert BoxCredit(count, multiplier, 0.0) == 0;
  }

  // ---- Stat and risk upgrades ----------------------------------------------------

  /** `upgradeStats`: without a price for the current level, or without the balance to
      pay it, nothing changes; otherwise the price is paid and the stat rises by one. */
  function UpgradeStats(d: GameData, k: StatKey): (r: GameData)
    ensures !Economy.CanUpgradeStat(d, k) ==> r == d
    ensures Economy.CanUpgradeStat(d, k) ==>
      var cost := Economy.StatUpgradeCost(d.baseStats.Get(k)).value;
      r.balance == d.balance - cost && r.baseStats.Get(k) == d.baseStats.Get(k) + 1
      && (forall j :: j != k ==> r.baseStats.Get(j) == d.baseStats.Get(j))
      && r == d.(balance := r.balance, baseStats := r.baseStats)
  {
    var cost := Economy.StatUpgradeCost(d.baseStats.Get(k));
    if cost.None? then d
    else if d.balance < cost.value then d
    else d.(balance := d.balance - cost.value, baseStats := d.baseStats.With(k, d.baseStats.Get(k) + 1))
  }

  /** `canUpgradeStats[k]` holds exactly when the upgrade would change something, and an
      upgrade keeps the balance within its cap and the record consistent. */
  lemma UpgradeStatsGuard(d: GameData, k: StatKey)
    ensures Economy.CanUpgradeStat(d, k) <==> UpgradeStats(d, k) != d
    ensures Economy.WithinCap(d.balance, d.riskLevel) ==> Economy.WithinCap(UpgradeStats(d, k).balance, d.riskLevel)
    ensures ConfigV2.Consistent(d) ==> ConfigV2.Consistent(UpgradeStats(d, k))
    ensures d.baseStats.Get(k) >= Economy.MaxStat ==> UpgradeStats(d, k) == d
  {
    if Economy.CanUpgradeStat(d, k) {
      assert UpgradeStats(d, k).baseStats.Get(k) != d.baseStats.Get(k);
    }
    assert ConfigV2.V1Part(UpgradeStats(d, k)).selectedWeapon == d.selectedWeapon;
  }

  predicate CanUpgradeRisk(d: GameData)
  {
    Economy.RiskUpgradeCost(d.riskLevel).Some? && d.balance >= Economy.RiskUpgradeCost(d.riskLevel).value
  }

  /** `upgradeRisk`: at Aleph, or short of the price, nothing changes; otherwise the price
      is paid and the tier moves one step up. */
  function UpgradeRisk(d: GameData): (r: GameData)
    ensures !CanUpgradeRisk(d) ==> r == d
    ensures CanUpgradeRisk(d) ==>
      r == d.(balance := d.balance - Economy.RiskUpgradeCost(d.riskLevel).value, riskLevel := r.riskLevel)
      && RiskIndex(r.riskLevel) == RiskIndex(d.riskLevel) + 1
  {
    var cost := Economy.RiskUpgradeCost(d.riskLevel);
    if cost.None? then d
    else if d.balance < cost.value then d
    else d.(balance := d.balance - cost.value, riskLevel := Economy.NextRiskLevel(d.riskLevel).value)
  }

  /** Since the price of a tier is its cap, a balance within the cap can only pay it when
      it is full, and the upgrade leaves it at exactly zero, within the new cap. */
  lemma RiskUpgradeNeedsFullBalance(d: GameData)
    requires Economy.WithinCap(d.balance, d.riskLevel)
    ensures UpgradeRisk(d) != d <==> Economy.IsFullBalance(d)
    ensures UpgradeRisk(d) != d ==> UpgradeRisk(d).balance == 0
    ensures Economy.WithinCap(UpgradeRisk(d).balance, UpgradeRisk(d).riskLevel)
    ensures ConfigV2.Consistent(d) ==> ConfigV2.Consistent(UpgradeRisk(d))
  {
    Economy.RiskTable(d.riskLevel, d.riskLevel);
    if CanUpgradeRisk(d) {
      Economy.RiskTable(d.riskLevel, UpgradeRisk(d).riskLevel);
      assert UpgradeRisk(d).riskLevel != d.riskLevel;
    }
    assert ConfigV2.V1Part(UpgradeRisk(d)).boughtWeapons == d.boughtWeapons;
  }

  // ---- Weapons and armor ---------------------------------------------------------

  /** `selectWeapon`: only an owned weapon can be selected. */
  function SelectWeapon(d: GameData, id: Weapons.WeaponId): (r: GameData)
    ensures id in d.boughtWeapons ==> r == d.(selectedWeapon := id)
    ensures id !in d.boughtWeapons ==> r == d
    ensures ConfigV2.Consistent(d) ==> ConfigV2.Consistent(r)
  {
    if id in d.boughtWeapons then d.(selectedWeapon := id) else d
  }

  /** `buyWeapon`: an owned or unaffordable weapon changes nothing; otherwise its cost is
      paid, it is appended to the bought list and selected. */
  function BuyWeapon(d: GameData, id: Weapons.WeaponId): (r: GameData)
    ensures id in d.boughtWeapons || d.balance < Weapons.Cost(id) ==> r == d
    ensures id !in d.boughtWeapons && d.balance >= Weapons.Cost(id) ==>
      r == d.(balance := d.balance - Weapons.Cost(id), boughtWeapons := d.boughtWeapons + [id], selectedWeapon := id)
    ensures ConfigV2.Consistent(d) ==> ConfigV2.Consistent(r)
    ensures Economy.WithinCap(d.balance, d.riskLevel) ==> Economy.WithinCap(r.balance, r.riskLevel)
  {
    if id in d.boughtWeapons then d
    else if d.balance < Weapons.Get(id).cost then d
    else
      var r := d.(balance := d.balance - Weapons.Get(id).cost, boughtWeapons := d.boughtWeapons + [id], selectedWeapon := id);
      AppendFresh(d.boughtWeapons, id);
      r
  }

  /** `selectArmor`: only an owned armor can be selected. */
  function SelectArmor(d: GameData, id: Armors.ArmorId): (r: GameData)
    ensures id in d.boughtArmor ==> r == d.(selectedArmor := id)
    ensures id !in d.boughtArmor ==> r == d
    ensures ConfigV2.Consistent(d) ==> ConfigV2.Consistent(r)
  {
    if id in d.boughtArmor then d.(selectedArmor := id) else d
  }

  /** `buyArmor`: an owned or unaffordable armor changes nothing; otherwise its cost is
      paid, it is appended to the bought list and selected. */
  function BuyArmor(d: GameData, id: Armors.ArmorId): (r: GameData)
    ensures id in d.boughtArmor || d.balance < Armors.Cost(id) ==> r == d
    ensures id !in d.boughtArmor && d.balance >= Armors.Cost(id) ==>
      r == d.(balance := d.balance - Armors.Cost(id), boughtArmor := d.boughtArmor + [id], selectedArmor := id)
    ensures ConfigV2.Consistent(d) ==> ConfigV2.Consistent(r)
    ensures Economy.WithinCap(d.balance, d.riskLevel) ==> Economy.WithinCap(r.balance, r.riskLevel)
  {
    if id in d.boughtArmor then d
    else if d.balance < Armors.Get(id).cost then d
    else
      var r := d.(balance := d.balance - Armors.Get(id).cost, boughtArmor := d.boughtArmor + [id], selectedArmor := id);
      AppendFresh(d.boughtArmor, id);
      r
  }

  /** Appending an absent element keeps a list free of duplicates. */
  lemma AppendFresh<T(!new)>(s: seq<T>, x: T)
    requires x !in s
    ensures Trinkets.NoDuplicates(s) ==> Trinkets.NoDuplicates(s + [x])
    ensures x in s + [x]
  {
  }

  // ---- Reset ---------------------------------------------------------------------

  const ResetCost: int := 25000000

  /** `buyReset`: below 25,000,000 nothing changes. Otherwise the record starts over from
      the default, except that 3k light shards are added for k in 1..5, the trinkets and
      the trinket selection are kept, the loop count rises by one, and the sound setting
      is kept. */
  function BuyReset(d: GameData, u: Unit): (r: GameData)
    ensures d.balance < ResetCost ==> r == d
    ensures d.balance >= ResetCost ==>
      ConfigV2.V1Part(r) == ConfigV2.V1Part(ConfigV2.Default)
      && r.boughtTrinkets == d.boughtTrinkets && r.selectedTrinket == d.selectedTrinket
      && r.loopCount == d.loopCount + 1 && r.isSoundEnabled == d.isSoundEnabled
      && (r.lightShards - d.lightShards) % 3 == 0 && d.lightShards + 3 <= r.lightShards <= d.lightShards + 15
    ensures ConfigV2.Consistent(d) ==> ConfigV2.Consistent(r)
    ensures Economy.WithinCap(r.balance, r.riskLevel) || r == d
  {
    if d.balance < ResetCost then d
    else
      ConfigV2.DefaultIsMigratedDefault();
      ConfigV2.Default.(
        lightShards := d.lightShards + Utils.RandomRangeInt(u, 1, 5) * 3,
        boughtTrinkets := d.boughtTrinkets,
        selectedTrinket := d.selectedTrinket,
        loopCount := d.loopCount + 1,
        isSoundEnabled := d.isSoundEnabled)
  }

  /** Every shard bonus k = 1..5 is possible. */
  lemma ResetShardsReachAll(d: GameData, k: int)
    requires d.balance >= ResetCost && 1 <= k <= 5
    ensures exists u: Unit :: BuyReset(d, u).lightShards == d.lightShards + 3 * k
  {
    Utils.RandomRangeIntReachesAll(1, 5, k);
    var u: Unit :| Utils.RandomRangeInt(u, 1, 5) == k;
    assert BuyReset(d, u).lightShards == d.lightShards + 3 * k;
  }

  /** A balance within its cap reaches the reset price only at Aleph. */
  lemma ResetOnlyAtAleph(d: GameData, u: Unit)
    requires Economy.WithinCap(d.balance, d.riskLevel)
    requires BuyReset(d, u) != d
    ensures d.riskLevel == Aleph
  {
  }

  // ---- Trinkets ------------------------------------------------------------------

  predicate CanBuyTrinketRoll(d: GameData)
  {
    d.lightShards >= Economy.TrinketRollCost
  }

  /** What a roll does to the record once the winner is known: three shards are spent
      and the winner joins the bought trinkets unless it is there already. */
  function AfterRoll(d: GameData, winner: Trinkets.TrinketId): (r: GameData)
    ensures r.lightShards == d.lightShards - 3
    ensures winner in r.boughtTrinkets
    ensures winner in d.boughtTrinkets ==> r.boughtTrinkets == d.boughtTrinkets
    ensures winner !in d.boughtTrinkets ==> r.boughtTrinkets == d.boughtTrinkets + [winner]
    ensures r == d.(lightShards := r.lightShards, boughtTrinkets := r.boughtTrinkets)
    ensures ConfigV2.Consistent(d) ==> ConfigV2.Consistent(r)
  {
    if winner in d.boughtTrinkets then d.(lightShards := d.lightShards - Economy.TrinketRollCost)
    else
      AppendFresh(d.boughtTrinkets, winner);
      d.(lightShards := d.lightShards - Economy.TrinketRollCost, boughtTrinkets := d.boughtTrinkets + [winner])
  }

  /** `selectTrinket`: an unowned trinket changes nothing; selecting the selected one
      clears the selection; any other owned one becomes the selection. */
  function SelectTrinket(d: GameData, t: Trinkets.TrinketId): (r: GameData)
    ensures t !in d.boughtTrinkets ==> r == d
    ensures t in d.boughtTrinkets && d.selectedTrinket == Some(t) ==> r == d.(selectedTrinket := None)
    ensures t in d.boughtTrinkets && d.selectedTrinket != Some(t) ==> r == d.(selectedTrinket := Some(t))
    ensures ConfigV2.Consistent(d) ==> ConfigV2.Consistent(r)
  {
    if t !in d.boughtTrinkets then d
    else if d.selectedTrinket == Some(t) then d.(selectedTrinket := None)
    else d.(selectedTrinket := Some(t))
  }

  /** Selecting the same owned trinket twice gives back the original selection. */
  lemma SelectTrinketToggles(d: GameData, t: Trinkets.TrinketId)
    requires t in d.boughtTrinkets
    requires d.selectedTrinket.None? || d.selectedTrinket == Some(t)
    ensures SelectTrinket(SelectTrinket(d, t), t) == d
  {
  }

  /** The two draws of one reel sample: the rarity, then the pick within it. */
  datatype SampleDraw = SampleDraw(rarity: Unit, pick: Unit)

  /** `samples.length` copies of `samples`, one after the other. */
  function Repeat<T>(samples: seq<T>, n: nat): seq<T>
  {
    if n == 0 then [] else Repeat(samples, n - 1) + samples
  }

  /** The reel of three repeats is the samples three times over: its 300 cells each show
      the sample at their index modulo 100. */
  lemma {:induction false} ThreeRepeats<T>(samples: seq<T>, i: int)
    requires |samples| == 100 && 0 <= i < 300
    ensures |Repeat(samples, 3)| == 300
    ensures Repeat(samples, 3)[i] == samples[i % 100]
  {
    assert Repeat(samples, 1) == samples by {
      assert Repeat(samples, 0) == [];
    }
    assert Repeat(samples, 3) == samples + samples + samples;
  }

  /** The reel's result. */
  datatype RollResult = RollResult(reel: seq<Trinkets.TrinketId>, winner: Trinkets.TrinketId, winnerIndex: int)

  /** An optional hook: `hook?.(...)` does nothing when the item has none. */
  function RunHitHook(hook: Option<HitHook>, view: HookView, hit: HitParams, draws: HookDraws): seq<Effect>
  {
    match hook
    case Some(f) => f(view, hit, draws)
    case None => []
  }

  function RunPanicHook(hook: Option<PanicHook>, view: HookView, draws: HookDraws): seq<Effect>
  {
    match hook
    case Some(f) => f(view, draws)
    case None => []
  }

  /** The effects of the selected armor's hook and then the selected weapon's, as
      `processHit` runs them. Armor never hooks hits, so these are the weapon's. */
  function ProcessHit(w: Weapons.WeaponId, a: Armors.ArmorId, view: HookView, hit: HitParams, draws: HookDraws): (effects: seq<Effect>)
    ensures effects == Weapons.Get(w).onHit.value(view, hit, draws)
  {
    RunHitHook(Armors.Get(a).onHit, view, hit, draws) + RunHitHook(Weapons.Get(w).onHit, view, hit, draws)
  }

  /** `processPanic`: the armor's hook, then the weapon's. Only Penitence and Twilight
      armor react, and only by writing sanity. */
  function ProcessPanic(w: Weapons.WeaponId, a: Armors.ArmorId, view: HookView, draws: HookDraws): (effects: seq<Effect>)
    ensures Quiet(effects)
    ensures effects != [] ==> a == Armors.Penitence || a == Armors.Twilight
    ensures forall i :: 0 <= i < |effects| ==> effects[i].SetSanity?
  {
    RunPanicHook(Armors.Get(a).onPanic, view, draws) + RunPanicHook(Weapons.Get(w).onPanic, view, draws)
  }

  /** `processPanicEnd`: the armor's hook, then the weapon's. Only Smile armor reacts, by
      its temporary bonus. */
  function ProcessPanicEnd(w: Weapons.WeaponId, a: Armors.ArmorId, view: HookView, draws: HookDraws): (effects: seq<Effect>)
    ensures Quiet(effects)
    ensures effects != [] ==> a == Armors.Smile
    ensures forall i :: 0 <= i < |effects| ==> effects[i].TemporaryBonus?
  {
    RunPanicHook(Armors.Get(a).onPanicEnd, view, draws) + RunPanicHook(Weapons.Get(w).onPanicEnd, view, draws)
  }

  /** The reel samples, one per draw pair. */
  function Samples(draws: seq<SampleDraw>): (samples: seq<Trinkets.TrinketId>)
    ensures |samples| == |draws|
    ensures forall i :: 0 <= i < |draws| ==> Trinkets.RarityOf(samples[i]) == Economy.SampleRarity(draws[i].rarity)
  {
    seq(|draws|, i requires 0 <= i < |draws| => Economy.SampleTrinket(draws[i].rarity, draws[i].pick))
  }
}
