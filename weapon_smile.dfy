/** Smile (src/stores/glupo/weapon/smile.ts): punishing at high sanity, showy at low
    sanity. */
module SmileWeapon {
  import opened Types
  import opened Hooks
  import opened Utils

  const Cooldown: real := 500.0
  const CritMultiplier: real := 6.0
  const BoxPrice: real := 100.0
  const Cost: nat := 200000
  const ChainPosition: Vec := Vec(500.0, 140.0)
  const Modifier: Stats := Stats(5, 0, 0, 0)

  /** The drawn bonus: uniform between 2500 and 5000, rounded down. */
  function DrawnBonus(u: Unit): (bonus: int)
    ensures 2500 <= bonus <= 4999
  {
    Floor(5000.0 / 2.0 + Scaled(u, 5000.0) / 2.0)
  }

  /** At half the maximum sanity or more a hit costs 25 sanity and nothing else. Below it
      a hit costs 5 and shows one box per started thousand of the drawn bonus (3 to 5
      boxes); the bonus itself is never credited. */
  function OnHit(view: HookView, hit: HitParams, draws: HookDraws): (effects: seq<Effect>)
    ensures SanityChanges(effects) == if 2 * view.current >= view.maxSanity then [-25] else [-5]
    ensures Credited(effects) == 0 && BoxesBought(effects) == []
    ensures 2 * view.current >= view.maxSanity ==> Spawned(effects) == 0
    ensures 2 * view.current < view.maxSanity ==> 3 <= Spawned(effects) <= 5
  {
    var show := SpawnBoxes(hit.position, Ceil(DrawnBonus(draws.u1) as real / 1000.0), BoxStyle(64.0, Particles.Box, 0.4));
    Summary1(ChangeSanity(-25));
    Summary2(ChangeSanity(-5), show);
    if view.current as real >= view.maxSanity as real / 2.0 then [ChangeSanity(-25)]
    else [ChangeSanity(-5), show]
  }
}
