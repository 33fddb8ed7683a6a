/** The reward game's store (src/stores/glupo/store.ts): the loaded save record and the
    temporary stat bonus, changed only through the rules of store_rules.dfy. */
module Store {
  import opened Types
  import Utils
  import Weapons
  import Armors
  import Trinkets
  import ConfigV2
  import Economy
  import StoreRules

  /** The store: the save record and the temporary stat bonus. */
  class GlupoStore {
    var gameData: ConfigV2.GameData
    var bonusStats: Stats

    /** The invariant the mutators keep: the balance within the cap of its tier, the
        selected items owned, and no item owned twice. */
    predicate Valid()
      reads this
    {
      ConfigV2.Consistent(gameData) && Economy.WithinCap(gameData.balance, gameData.riskLevel)
    }

    /** A store over loaded save data, with no bonus. */
    constructor (data: ConfigV2.GameData)
      requires ConfigV2.Consistent(data) && Economy.WithinCap(data.balance, data.riskLevel)
      ensures gameData == data && bonusStats == Zero && Valid()
    {
      gameData := data;
      bonusStats := Zero;
    }

    /** `stats`, for the current record and bonus. */
    function Derived(): Economy.Derived
      reads this
    {
      Economy.Derive(gameData, bonusStats)
    }

    method AddBalance(amount: int)
      requires Valid()
      modifies this
      ensures gameData == StoreRules.AddBalance(old(gameData), amount) && bonusStats == old(bonusStats)
      ensures Valid()
    {
      gameData := StoreRules.AddBalance(gameData, amount);
    }

    method AddBoxes(count: int, multiplier: real)
      requires Valid()
      modifies this
      ensures gameData == StoreRules.AddBoxes(old(gameData), old(bonusStats), count, multiplier) && bonusStats == old(bonusStats)
      ensures Valid()
    {
      gameData := StoreRules.AddBoxes(gameData, bonusStats, count, multiplier);
    }

    /** `addBonusStats`: adds `delta` to the bonus, axis by axis (an axis the source's
        partial record leaves out is a zero here). */
    method AddBonusStats(delta: Types.Stats)
      modifies this
      ensures bonusStats == old(bonusStats).Plus(delta) && gameData == old(gameData)
    {
      var i := 0;
      while i < |AllStatKeys|
        invariant 0 <= i <= |AllStatKeys|
        invariant forall j :: 0 <= j < i ==> bonusStats.Get(AllStatKeys[j]) == old(bonusStats).Get(AllStatKeys[j]) + delta.Get(AllStatKeys[j])
        invariant forall j :: i <= j < |AllStatKeys| ==> bonusStats.Get(AllStatKeys[j]) == old(bonusStats).Get(AllStatKeys[j])
        invariant gameData == old(gameData)
      {
        var k := AllStatKeys[i];
        bonusStats := bonusStats.With(k, bonusStats.Get(k) + delta.Get(k));
        i := i + 1;
      }
      assert forall k :: bonusStats.Get(k) == old(bonusStats).Plus(delta).Get(k) by {
        assert AllStatKeys[0] == Fortitude && AllStatKeys[1] == Prudence;
        assert AllStatKeys[2] == Temperance && AllStatKeys[3] == Justice;
      }
      StatsHaveFourAxes(bonusStats, old(bonusStats).Plus(delta));
    }

    method UpgradeStats(k: StatKey)
      requires Valid()
      modifies this
      ensures gameData == StoreRules.UpgradeStats(old(gameData), k) && bonusStats == old(bonusStats)
      ensures Valid()
    {
      StoreRules.UpgradeStatsGuard(gameData, k);
      gameData := StoreRules.UpgradeStats(gameData, k);
    }

    method UpgradeRisk()
      requires Valid()
      modifies this
      ensures gameData == StoreRules.UpgradeRisk(old(gameData)) && bonusStats == old(bonusStats)
      ensures Valid()
    {
      StoreRules.RiskUpgradeNeedsFullBalance(gameData);
      gameData := StoreRules.UpgradeRisk(gameData);
    }

    method SelectWeapon(id: Weapons.WeaponId)
      requires Valid()
      modifies this
      ensures gameData == StoreRules.SelectWeapon(old(gameData), id) && bonusStats == old(bonusStats)
      ensures Valid()
    {
      gameData := StoreRules.SelectWeapon(gameData, id);
    }

    method BuyWeapon(id: Weapons.WeaponId)
      requires Valid()
      modifies this
      ensures gameData == StoreRules.BuyWeapon(old(gameData), id) && bonusStats == old(bonusStats)
      ensures Valid()
    {
      gameData := StoreRules.BuyWeapon(gameData, id);
    }

    method SelectArmor(id: Armors.ArmorId)
      requires Valid()
      modifies this
      ensures gameData == StoreRules.SelectArmor(old(gameData), id) && bonusStats == old(bonusStats)
      ensures Valid()
    {
      gameData := StoreRules.SelectArmor(gameData, id);
    }

    method BuyArmor(id: Armors.ArmorId)
      requires Valid()
      modifies this
      ensures gameData == StoreRules.BuyArmor(old(gameData), id) && bonusStats == old(bonusStats)
      ensures Valid()
    {
      gameData := StoreRules.BuyArmor(gameData, id);
    }

    /** `buyReset`; the bonus is left as it is. */
    method BuyReset(u: Unit)
      requires Valid()
      modifies this
      ensures gameData == StoreRules.BuyReset(old(gameData), u) && bonusStats == old(bonusStats)
      ensures Valid()
    {
      gameData := StoreRules.BuyReset(gameData, u);
    }

    method SelectTrinket(t: Trinkets.TrinketId)
      requires Valid()
      modifies this
      ensures gameData == StoreRules.SelectTrinket(old(gameData), t) && bonusStats == old(bonusStats)
      ensures Valid()
    {
      gameData := StoreRules.SelectTrinket(gameData, t);
    }

    /** `createTrinketReel`: one sample per draw pair, then the samples pushed `repeats`
        times. */
    static method CreateTrinketReel(draws: seq<StoreRules.SampleDraw>, repeats: nat) returns (reel: seq<Trinkets.TrinketId>)
      ensures reel == StoreRules.Repeat(StoreRules.Samples(draws), repeats)
    {
      var samples := StoreRules.Samples(draws);
      reel := [];
      var i := 0;
      while i < repeats
        invariant i <= repeats
        invariant reel == StoreRules.Repeat(samples, i)
      {
        reel := reel + samples;
        i := i + 1;
      }
    }

    /** `buyTrinketRoll` with its defaults of 100 samples and 3 repeats: without three
        shards nothing happens and nothing is returned; otherwise the winner is read at the
        index the draw `u` picks from [75, 225] of the 300-cell reel and the record is
        updated by `AfterRoll`. */
    method BuyTrinketRoll(draws: seq<StoreRules.SampleDraw>, u: Unit) returns (result: Option<StoreRules.RollResult>)
      requires Valid()
      requires |draws| == 100
      modifies this
      ensures !StoreRules.CanBuyTrinketRoll(old(gameData)) ==> result.None? && gameData == old(gameData)
      ensures StoreRules.CanBuyTrinketRoll(old(gameData)) ==>
        result.Some? && result.value.reel == StoreRules.Repeat(StoreRules.Samples(draws), 3)
        && result.value.winnerIndex == Utils.RandomRangeInt(u, 75, 225)
        && 75 <= result.value.winnerIndex <= 225
        && result.value.winner == StoreRules.Samples(draws)[result.value.winnerIndex % 100]
        && gameData == StoreRules.AfterRoll(old(gameData), result.value.winner)
      ensures bonusStats == old(bonusStats)
      ensures Valid()
    {
      if !StoreRules.CanBuyTrinketRoll(gameData) {
        return None;
      }
      var reel := CreateTrinketReel(draws, 3);
      StoreRules.ThreeRepeats(StoreRules.Samples(draws), 0);
      var start := |reel| / 4;
      var end := |reel| * 3 / 4;
      assert start == 75 && end == 225;
      var winnerIndex := Utils.RandomRangeInt(u, start, end);
      StoreRules.ThreeRepeats(StoreRules.Samples(draws), winnerIndex);
      var winner := reel[winnerIndex];
      gameData := StoreRules.AfterRoll(gameData, winner);
      result := Some(StoreRules.RollResult(reel, winner, winnerIndex));
    }
  }

}
