/** Gold Rush (src/stores/glupo/weapon/gold-rush.ts): the fastest weapon, paid for in sanity. */
module GoldRushWeapon {
  import opened Types
  import opened Hooks

  const Cooldown: real := 100.0
  const CritMultiplier: real := 3.0
  const BoxPrice: real := 10.0
  const Cost: nat := 12000
  const ChainPosition: Vec := Vec(128.0, 60.0)
  const Modifier: Stats := Stats(4, 0, -2, 0)

  /** Every hit costs 1 sanity, and a critical hit costs 2 more, as a second call. */
  function OnHit(view: HookView, hit: HitParams, draws: HookDraws): (effects: seq<Effect>)
    ensures SanityChanges(effects) == if hit.isCritical then [-1, -2] else [-1]
    ensures Credited(effects) == 0 && Spawned(effects) == 0 && BoxesBought(effects) == []
  {
    Summary1(ChangeSanity(-1));
    Summary2(ChangeSanity(-1), ChangeSanity(-2));
    if hit.isCritical then [ChangeSanity(-1), ChangeSanity(-2)] else [ChangeSanity(-1)]
  }
}
