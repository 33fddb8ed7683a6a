/** The starting weapon, Penitence (src/stores/glupo/weapon/penitence.ts). */
module PenitenceWeapon {
  import opened Types
  import opened Hooks

  const Cooldown: real := 250.0
  const CritMultiplier: real := 1.5
  const BoxPrice: real := 1.0
  const Cost: nat := 0
  const ChainPosition: Vec := Vec(345.0, 78.0)
  const Modifier: Stats := Stats(0, 0, 0, 0)

  /** A critical hit restores 5 sanity; any other hit costs 4. Nothing else happens. */
  function OnHit(view: HookView, hit: HitParams, draws: HookDraws): (effects: seq<Effect>)
    ensures hit.isCritical ==> SanityChanges(effects) == [5]
    ensures !hit.isCritical ==> SanityChanges(effects) == [-4]
    ensures Credited(effects) == 0 && Spawned(effects) == 0 && BoxesBought(effects) == []
  {
    var e := ChangeSanity(if hit.isCritical then 5 else -4);
    Summary1(e);
    [e]
  }
}
