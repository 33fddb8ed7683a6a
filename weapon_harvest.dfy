/** Harvest (src/stores/glupo/weapon/harvest.ts): a slow weapon that pays a direct bonus
    while the player's prudence is low. */
module HarvestWeapon {
  import opened Types
  import opened Particles
  import opened Hooks
  import opened Utils

  const Cooldown: real := 600.0
  const CritMultiplier: real := 6.0
  const BoxPrice: real := 3.0
  const Cost: nat := 3000
  const ChainPosition: Vec := Vec(235.0, 32.0)
  const Modifier: Stats := Stats(0, 2, 0, 0)

  /** The base bonus for a player prudence. The branch for prudence 0 comes after the
      test for prudence below 5 and is therefore never taken. */
  function BaseBonus(prudence: int): (b: int)
    ensures b == (if prudence < 5 then 64 else 0)
    ensures b != 128
  {
    if prudence < 5 then 64 else if prudence == 0 then 128 else 0
  }

  /** The bonus paid: the base bonus, times the critical multiplier on a critical hit,
      then a uniform amount between half of it and all of it, rounded down. */
  function Payout(prudence: int, isCritical: bool, u: Unit): (paid: int)
    ensures prudence >= 5 ==> paid == 0
    ensures prudence < 5 && !isCritical ==> 32 <= paid <= 63
    ensures prudence < 5 && isCritical ==> 192 <= paid <= 383
  {
    var base := BaseBonus(prudence) as real;
    var bonus := if isCritical then base * CritMultiplier else base;
    Floor(bonus / 2.0 + Scaled(u, bonus) / 2.0)
  }

  /** Boxes shown for a payout: one per started 64. */
  function BoxesFor(paid: int): (n: int)
    ensures 0 <= paid <= 63 ==> n == (if paid == 0 then 0 else 1)
    ensures 192 <= paid <= 383 ==> 3 <= n <= 6
  {
    Ceil(paid as real / 64.0)
  }

  /** Every hit costs 15 sanity. Below 5 prudence it pays 32 to 63 (192 to 383 on a
      critical hit) and shows one box per started 64 of it; from 5 prudence on it pays
      nothing and shows no box. */
  function OnHit(view: HookView, hit: HitParams, draws: HookDraws): (effects: seq<Effect>)
    ensures SanityChanges(effects) == [-15]
    ensures BoxesBought(effects) == []
    ensures view.player.prudence >= 5 ==> Credited(effects) == 0 && Spawned(effects) == 0
    ensures view.player.prudence < 5 && !hit.isCritical ==>
      32 <= Credited(effects) <= 63 && Spawned(effects) == 1
    ensures view.player.prudence < 5 && hit.isCritical ==>
      192 <= Credited(effects) <= 383 && 3 <= Spawned(effects) <= 6
  {
    var paid := Payout(view.player.prudence, hit.isCritical, draws.u1);
    var boxes := SpawnBoxes(hit.position, BoxesFor(paid), BoxStyle(48.0, BoxHarvest, 0.4));
    Summary3(ChangeSanity(-15), AddBalance(paid), boxes);
    [ChangeSanity(-15), AddBalance(paid), boxes]
  }
}
