/** Red Eyes (src/stores/glupo/weapon/red-eyes.ts): hits may leave a spider behind that
    grants +1 temperance while it lives, at most three at a time. */
module RedEyesWeapon {
  import opened Types
  import opened Particles
  import opened Hooks
  import opened Utils

  const Cooldown: real := 200.0
  const CritMultiplier: real := 1.5
  const BoxPrice: real := 1.5
  const Cost: nat := 1200
  const ChainPosition: Vec := Vec(355.0, 58.0)
  const Modifier: Stats := Stats(4, 0, 0, 0)

  const MaxSpiders: int := 3

  /** The temperance bonus one living spider grants. */
  const SpiderBonus: Stats := Stats(0, 0, 1, 0)

  /** The spider particle: still, never timing out, fading by 0.01 a frame, with no
      collision; its removal takes its bonus back. */
  function Spider(at: Vec): (p: Particle)
    ensures p.onDestroy == SpiderGone && p.timeLeft == Infinite && p.destroyCondition == None
    ensures p.x == at.x && p.y == at.y && p.opacityDecay > 0.0
  {
    Particle(at.x, at.y, 0.0, 0.0, 40.0, 1.0, 0.01, RedEyesSpider, Infinite, 0.0, None, SpiderGone)
  }

  /** Every hit costs 6 sanity. When the first draw is at most 0.5 and fewer than three
      spiders live, a spider appears within [-5, 15) pixels of the hit on each axis. */
  function OnHit(view: HookView, hit: HitParams, draws: HookDraws): (effects: seq<Effect>)
    ensures SanityChanges(effects) == [-6]
    ensures Credited(effects) == 0 && BoxesBought(effects) == []
    ensures Spawned(effects) == (if draws.u1 <= 0.5 && view.spiderCount < MaxSpiders then 1 else 0)
    ensures forall i :: 0 <= i < |effects| && effects[i].SpawnSpider? ==>
      hit.position.x - 5.0 <= effects[i].at.x < hit.position.x + 15.0
      && hit.position.y - 5.0 <= effects[i].at.y < hit.position.y + 15.0
  {
    var spider := SpawnSpider(Vec(hit.position.x + Scaled(draws.u2, 20.0) - 5.0,
                                  hit.position.y + Scaled(draws.u3, 20.0) - 5.0));
    Summary1(ChangeSanity(-6));
    Summary2(ChangeSanity(-6), spider);
    if draws.u1 > 0.5 || view.spiderCount >= MaxSpiders then [ChangeSanity(-6)]
    else [ChangeSanity(-6), spider]
  }

  /** A spider is never removed by a collision or a time-out: its callback always runs
      without a reason, and the loop moves on to the next index. */
  lemma SpiderLeavesQuietly(p: Particle, f: FrameView)
    requires p.onDestroy == SpiderGone && p.timeLeft == Infinite && p.destroyCondition == None
    requires Step(p, f).Removed?
    ensures Step(p, f).reason.None? && !Step(p, f).revisit
  {
  }
}
