/** Heaven (src/stores/glupo/weapon/heaven.ts): hits with the weapon held close to
    vertical buy extra boxes. */
module HeavenWeapon {
  import opened Types
  import opened Particles
  import opened Hooks

  const Cooldown: real := 500.0
  const CritMultiplier: real := 2.0
  const BoxPrice: real := 6.0
  const Cost: nat := 6000
  const ChainPosition: Vec := Vec(265.0, 26.0)
  const Modifier: Stats := Stats(0, 0, 0, 0)

  function Abs(r: real): real { if r < 0.0 then -r else r }

  /** Extra boxes for a weapon angle: 4 below 0.01 rad, 2 below 0.02, 1 up to 0.05,
      none beyond. */
  function Bonus(angle: real): (b: nat)
    ensures b == 0 || b == 1 || b == 2 || b == 4
    ensures b > 0 <==> Abs(angle) <= 0.05
  {
    var a := Abs(angle);
    if a > 0.05 then 0 else if a < 0.01 then 4 else if a < 0.02 then 2 else 1
  }

  /** The closer to vertical, the larger the bonus, whichever side the weapon leans. */
  lemma BonusMonotone(a1: real, a2: real)
    requires Abs(a1) <= Abs(a2)
    ensures Bonus(a1) >= Bonus(a2)
    ensures Bonus(-a1) == Bonus(a1)
  {
  }

  /** Every hit costs 2 sanity. A near-vertical hit buys `Bonus(angle)` boxes at twice
      their value on a critical hit, and shows as many boxes, floating down slowly. */
  function OnHit(view: HookView, hit: HitParams, draws: HookDraws): (effects: seq<Effect>)
    ensures SanityChanges(effects) == [-2] && Credited(effects) == 0
    ensures BoxesBought(effects) == (if Bonus(view.weaponAngle) > 0 then [Bonus(view.weaponAngle)] else [])
    ensures Spawned(effects) == Bonus(view.weaponAngle)
    ensures forall i :: 0 <= i < |effects| && effects[i].AddBoxes? ==>
      effects[i].multiplier == if hit.isCritical then 2.0 else 1.0
  {
    var b := Bonus(view.weaponAngle);
    var buy := AddBoxes(b, if hit.isCritical then 2.0 else 1.0);
    var show := SpawnBoxes(hit.position, b, BoxStyle(if hit.isCritical then 48.0 else 32.0, HeavenBonus, 0.1));
    Summary1(ChangeSanity(-2));
    Summary3(ChangeSanity(-2), buy, show);
    if b == 0 then [ChangeSanity(-2)] else [ChangeSanity(-2), buy, show]
  }
}
