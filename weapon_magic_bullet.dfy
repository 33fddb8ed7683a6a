/** Magic Bullet (src/stores/glupo/weapon/magic-bullet.ts): a critical hit opens a magic
    circle; when the circle goes, it fires a bullet at Glupo that pays 777 per box, and
    every seventh bullet is fired at the player instead and empties their sanity. */
module MagicBulletWeapon {
  import opened Types
  import opened Particles
  import opened Hooks
  import opened Utils

  const Cooldown: real := 1000.0
  const CritMultiplier: real := 1.0
  const BoxPrice: real := 0.0
  const Cost: nat := 40000
  const ChainPosition: Vec := Vec(370.0, 32.0)
  const Modifier: Stats := Stats(3, 3, 3, 3)

  const BonusPerBox: int := 777
  const CircleSpeed: real := 0.001
  /** A bullet covers its distance in 250 / 16.67 frames: it moves 16.67 / 250 of it a frame. */
  const FrameShare: real := 16.67 / 250.0
  const TravelMs: real := 250.0
  const SeventhLifetime: real := 5000.0

  /** Whether the next bullet, after `bulletsFired` bullets, is a seventh one. */
  predicate IsSeventh(bulletsFired: nat)
  {
    (bulletsFired + 1) % 7 == 0
  }

  /** Exactly one bullet in every run of seven consecutive bullets is a seventh one:
      after `n` bullets, the `i`-th next one is, for `i` below 7, exactly when `i` is
      6 - n mod 7. */
  lemma OneInSeven(n: nat, i: nat)
    requires i < 7
    ensures IsSeventh(n + i) <==> i == 6 - n % 7
  {
  }

  /** The circle: nearly still, never fading, with a lifetime of 750 ms, or 500 to 750 ms
      when it announces a seventh bullet; its removal fires a bullet from where it appeared. */
  function Circle(at: Vec, heading: Vec, seventh: bool, u: Unit): (p: Particle)
    ensures p.onDestroy == FireBullet(at) && p.destroyCondition == None && p.opacityDecay == 0.0
    ensures p.timeLeft.Finite?
    ensures !seventh ==> p.timeLeft.ms == 750.0
    ensures seventh ==> 500.0 <= p.timeLeft.ms < 750.0
    ensures p.x == at.x && p.y == at.y
  {
    Particle(at.x, at.y, heading.x * CircleSpeed, heading.y * CircleSpeed, 96.0, 1.0, 0.0,
             if seventh then MagicCircleSeventh else MagicCircle,
             Finite(if seventh then 500.0 + Scaled(u, 250.0) else 750.0),
             0.0, None, FireBullet(at))
  }

  /** Only a critical hit does anything: it adds one circle 200 pixels from Glupo's centre. */
  function OnHit(view: HookView, hit: HitParams, draws: HookDraws): (effects: seq<Effect>)
    ensures SanityChanges(effects) == [] && Credited(effects) == 0 && BoxesBought(effects) == []
    ensures Spawned(effects) == if hit.isCritical then 1 else 0
    ensures forall i :: 0 <= i < |effects| ==> effects[i].AddParticle? && effects[i].particle.onDestroy.FireBullet?
  {
    var at := Vec(view.glupoCenter.x + draws.circleOffset.x, view.glupoCenter.y + draws.circleOffset.y);
    var circle := AddParticle(Circle(at, draws.heading, IsSeventh(view.bulletsFired), draws.u1));
    Summary1(circle);
    if hit.isCritical then [circle] else []
  }

  /** Where the next bullet flies: at the mouse when it is a seventh one, else at Glupo. */
  function Target(view: HookView): Vec
  {
    if IsSeventh(view.bulletsFired) then view.mouse else view.glupoCenter
  }

  /** The bullet fired from `from` at `target`: it reaches the target after 250 / 16.67
      frames. A seventh bullet lives 5 s and is destroyed by touching the player; any
      other lives 250 ms and is destroyed by touching Glupo. */
  function Bullet(from: Vec, target: Vec, seventh: bool): (p: Particle)
    ensures p.x + p.vx * (TravelMs / 16.67) == target.x && p.y + p.vy * (TravelMs / 16.67) == target.y
    ensures p.destroyCondition == Some(if seventh then Player else Glupo)
    ensures p.timeLeft == Finite(if seventh then SeventhLifetime else TravelMs)
    ensures p.onDestroy == BulletLands(seventh) && p.opacityDecay == 0.0 && p.gravity == 0.0
  {
    Particle(from.x, from.y, (target.x - from.x) * FrameShare, (target.y - from.y) * FrameShare,
             48.0, 1.0, 0.0, if seventh then MagicShotSeventh else MagicShot,
             Finite(if seventh then SeventhLifetime else TravelMs), 0.0,
             Some(if seventh then Player else Glupo), BulletLands(seventh))
  }

  /** What a bullet's removal does. A seventh bullet that touched the player takes all the
      sanity the player has left, if any; otherwise it does nothing. Any other bullet that
      touched Glupo or ran out of time pays 777 for each of `minBoxes..maxBoxes` drawn
      boxes and spills 1 to 7 white boxes where it ended; one that left the screen pays
      nothing. */
  function OnBulletDestroyed(seventh: bool, reason: Option<Reason>, at: Vec, view: HookView, draws: HookDraws): (effects: seq<Effect>)
    ensures seventh ==> Credited(effects) == 0 && Spawned(effects) == 0
    ensures seventh ==> SanityChanges(effects) ==
                        (if reason == Some(HitOn(Player)) && view.current > 0 then [-view.current] else [])
    ensures !seventh ==> SanityChanges(effects) == [] && Spawned(effects) <= 7
    ensures !seventh && (reason == Some(HitOn(Glupo)) || reason == Some(Default)) && view.minBoxes <= view.maxBoxes ==>
      BonusPerBox * view.minBoxes <= Credited(effects) <= BonusPerBox * view.maxBoxes
      && Credited(effects) % BonusPerBox == 0 && 1 <= Spawned(effects)
    ensures !seventh && !(reason == Some(HitOn(Glupo)) || reason == Some(Default)) ==> Credited(effects) == 0 && Spawned(effects) == 0
    ensures BoxesBought(effects) == []
  {
    if seventh then
      Summary1(ChangeSanity(-view.current));
      if reason == Some(HitOn(Player)) && view.current > 0 then [ChangeSanity(-view.current)] else []
    else if reason == Some(HitOn(Glupo)) || reason == Some(Default) then
      var boxes := RandomRangeInt(draws.u1, view.minBoxes, view.maxBoxes);
      var pay := AddBalance(boxes * BonusPerBox);
      var spill := SpawnBoxes(at, RandomRangeInt(draws.u2, 1, 7), BoxStyle(48.0, BoxWhite, 0.4));
      Summary2(pay, spill);
      [pay, spill]
    else []
  }

  /** A circle outweighs the bullet it fires, and a bullet outweighs the boxes it spills,
      so the frame loop that runs these callbacks comes to an end. */
  lemma WeightsDecrease(at: Vec, heading: Vec, seventh: bool, u: Unit, from: Vec, target: Vec, s: bool)
    ensures Weight(Circle(at, heading, seventh, u)) > Weight(Bullet(from, target, s)) > 7
  {
  }
}
