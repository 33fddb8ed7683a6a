/** Twilight (src/stores/glupo/weapon/twilight.ts): critical hits grant a short
    temperance and justice bonus. */
module TwilightWeapon {
  import opened Types
  import opened Hooks

  const Cooldown: real := 250.0
  const CritMultiplier: real := 4.0
  const BoxPrice: real := 60.0
  const Cost: nat := 1250000
  const ChainPosition: Vec := Vec(495.0, 48.0)
  const Modifier: Stats := Stats(5, 5, 5, 5)

  const CritBonus: Stats := Stats(0, 0, 1, 1)
  const CritBonusReversal: Stats := Stats(0, 0, -1, -1)
  const CritBonusDuration: real := 2500.0

  /** The reversal the timer applies, written out as the source writes it, is the
      negation of the bonus: it takes back exactly what was granted. */
  lemma CritBonusReversed()
    ensures CritBonusReversal == CritBonus.Neg() && CritBonus.Plus(CritBonusReversal) == Zero
  {
  }

  /** Every hit costs 6 sanity; a critical hit also grants +1 temperance and +1 justice
      for 2.5 seconds, taken back exactly when the time is up. */
  function OnHit(view: HookView, hit: HitParams, draws: HookDraws): (effects: seq<Effect>)
    ensures SanityChanges(effects) == [-6]
    ensures Credited(effects) == 0 && Spawned(effects) == 0 && BoxesBought(effects) == []
    ensures Bonuses(effects) == if hit.isCritical then [CritBonus] else []
  {
    var bonus := TemporaryBonus(CritBonus, CritBonusDuration);
    Summary1(ChangeSanity(-6));
    Summary2(ChangeSanity(-6), bonus);
    if hit.isCritical then [ChangeSanity(-6), bonus] else [ChangeSanity(-6)]
  }
}
