/** Particles of the reward game (src/stores/glupo/game/particles.ts): the per-visit update
    of one particle, its removal rules and reason tags, and the particle list with
    `addParticle`. The frame loop that walks the list and runs the destroy callbacks lives
    in the game (game.dfy), because the callbacks change the game's state. */
module Particles {
  import opened Types

  /** The sprites particles are drawn with. */
  datatype Sprite =
    | Box | BoxBlue | BoxRed | BoxWhite | BoxHarvest | HeavenBonus
    | HitBasic | HitCritical | RedEyesSpider
    | MagicCircle | MagicCircleSeventh | MagicShot | MagicShotSeventh

  /** Remaining lifetime in milliseconds; `Infinite` never runs out. */
  datatype Time = Finite(ms: real) | Infinite

  /** What a collision-destroyed particle collides with. */
  datatype Target = Glupo | Player

  /** The reason passed to a destroy callback: "default" on time-out, "glupo-hit" or
      "player-hit" on a collision. Bottom-edge and fade-out removals pass no reason. */
  datatype Reason = Default | HitOn(target: Target)

  /** The destroy callback a particle carries, named by what it does. */
  datatype DestroyAction =
    | NoAction                       // the hit flash
    | BoxPickup                      // a reward box: plays the pick-up cue
    | SpiderGone                     // a Red Eyes spider: takes its bonus back
    | FireBullet(from: Vec)          // a Magic Bullet circle: fires a bullet from where it appeared
    | BulletLands(isSeventh: bool)   // a Magic Bullet shot: pays out or strikes the player

  datatype Particle = Particle(
    x: real, y: real, vx: real, vy: real,
    size: real, opacity: real, opacityDecay: real,
    sprite: Sprite, timeLeft: Time, gravity: real,
    destroyCondition: Option<Target>,
    onDestroy: DestroyAction)

  /** What one frame shows a particle: the canvas size, the elapsed time, whether the
      weapon is on screen, and the two collision tests as predicates on a position. */
  datatype FrameView = FrameView(
    width: real, height: real, deltaTime: real,
    weaponVisible: bool,
    touchesGlupo: Vec -> bool,
    touchesPlayer: Vec -> bool)

  /** The outcome of visiting a particle: it stays (updated), or it is removed, with the
      reason its callback receives and whether the loop visits the same index again. */
  datatype Outcome =
    | Kept(p: Particle)
    | Removed(p: Particle, reason: Option<Reason>, revisit: bool)

  /** First step of a visit: move by the velocity, then let gravity act on vy. */
  function Move(p: Particle): (q: Particle)
    ensures q.x == p.x + p.vx && q.y == p.y + p.vy
    ensures q.vy - p.vy == p.gravity && q.vx == p.vx
    ensures q.(x := p.x, y := p.y, vy := p.vy) == p
  {
    p.(x := p.x + p.vx, y := p.y + p.vy, vy := p.vy + p.gravity)
  }

  /** The collision that removes the particle this frame, if any. The player test only
      applies while the weapon is visible. */
  function Collision(p: Particle, f: FrameView): (hit: Option<Target>)
    ensures hit.Some? ==> p.destroyCondition == hit
    ensures hit == Some(Player) ==> f.weaponVisible
  {
    if p.destroyCondition == Some(Glupo) && f.touchesGlupo(Vec(p.x, p.y)) then Some(Glupo)
    else if p.destroyCondition == Some(Player) && f.weaponVisible && f.touchesPlayer(Vec(p.x, p.y)) then Some(Player)
    else None
  }

  /** Side walls reflect vx with 70% of its speed and put x back on the wall;
      the top edge sends the particle down with 70% of its vertical speed. */
  function Bounce(p: Particle, width: real): Particle
  {
    var p1 :=
      if p.x <= 0.0 || p.x >= width - p.size then
        p.(vx := -p.vx * 0.7, x := if p.x <= 0.0 then 0.0 else width - p.size)
      else p;
    if p1.y <= 0.0 then p1.(vy := Abs(p1.vy) * 0.7, y := 0.0) else p1
  }

  function Abs(r: real): real { if r < 0.0 then -r else r }

  function Tick(t: Time, dt: real): Time
  {
    match t
    case Finite(ms) => Finite(ms - dt)
    case Infinite => Infinite
  }

  predicate Expired(t: Time)
  {
    t.Finite? && t.ms <= 0.0
  }

  /** One visit, in the order of the source: move, collision tests, bounce, bottom edge,
      fading, time-out. */
  function Step(p: Particle, f: FrameView): (o: Outcome)
  {
    var moved := Move(p);
    var hit := Collision(moved, f);
    if hit.Some? then Removed(moved, Some(HitOn(hit.value)), true)
    else
      var bounced := Bounce(moved, f.width);
      if bounced.y >= f.height then Removed(bounced, None, false)
      else
        var faded := bounced.(opacity := bounced.opacity - bounced.opacityDecay);
        if faded.opacity <= 0.0 then Removed(faded, None, false)
        else
          var aged := faded.(timeLeft := Tick(faded.timeLeft, f.deltaTime));
          if Expired(aged.timeLeft) then Removed(aged, Some(Default), false)
          else Kept(aged)
  }

  /** The reason tag tells the removal rule apart: a collision gives the collision's
      target and is the only removal after which the same index is visited again; the
      bottom edge and fading give no reason; "default" means the time ran out. */
  lemma StepReasons(p: Particle, f: FrameView)
    ensures Step(p, f).Removed? && Step(p, f).revisit <==> Collision(Move(p), f).Some?
    ensures Step(p, f).Removed? && Step(p, f).reason.Some? && Step(p, f).reason.value.HitOn? <==> Collision(Move(p), f).Some?
    ensures Step(p, f).Removed? && Step(p, f).reason == Some(Default) ==>
      Expired(Step(p, f).p.timeLeft) && Step(p, f).p.opacity > 0.0 && Step(p, f).p.y < f.height
    ensures Step(p, f).Removed? && Step(p, f).reason.None? ==>
      Step(p, f).p.y >= f.height || Step(p, f).p.opacity <= 0.0
    ensures Step(p, f).Removed? && Step(p, f).reason == Some(HitOn(Player)) ==> f.weaponVisible
  {
  }

  /** The collision tests see the particle after it has moved, and a removed or kept
      particle always carries the move (bounce aside): its vy already includes gravity. */
  lemma StepMovesFirst(p: Particle, f: FrameView)
    requires Collision(Move(p), f).Some?
    ensures Step(p, f) == Removed(p.(x := p.x + p.vx, y := p.y + p.vy, vy := p.vy + p.gravity), Some(HitOn(p.destroyCondition.value)), true)
  {
  }

  /** Bouncing never removes a particle: after the walls the particle lies within the
      side walls' clamp, its horizontal speed is 70% reversed when a wall was touched,
      and after the top edge its vertical velocity points down (or is zero). */
  lemma BounceBounds(p: Particle, width: real)
    ensures var q := Bounce(p, width);
      (p.x <= 0.0 ==> q.x == 0.0 && q.vx == -p.vx * 0.7)
      && (0.0 < p.x && p.x >= width - p.size ==> q.x == width - p.size && q.vx == -p.vx * 0.7)
      && (0.0 < p.x < width - p.size ==> q.x == p.x && q.vx == p.vx)
      && (p.y <= 0.0 ==> q.y == 0.0 && q.vy >= 0.0 && q.vy == Abs(p.vy) * 0.7)
      && (p.y > 0.0 ==> q.y == p.y && q.vy == p.vy)
      && q.opacity == p.opacity && q.timeLeft == p.timeLeft && q.onDestroy == p.onDestroy
  {
  }

  /** A kept particle has faded by its decay and aged by the frame time. */
  lemma KeptFadesAndAges(p: Particle, f: FrameView)
    requires Step(p, f).Kept?
    ensures Step(p, f).p.opacity == p.opacity - p.opacityDecay > 0.0
    ensures Step(p, f).p.timeLeft == Tick(p.timeLeft, f.deltaTime)
    ensures Step(p, f).p.onDestroy == p.onDestroy
  {
  }

  /** A particle that never fades and never times out leaves only through the bottom
      edge or a collision. */
  lemma EverlastingLeavesByEdgeOrCollision(p: Particle, f: FrameView)
    requires p.opacityDecay == 0.0 && p.opacity > 0.0 && p.timeLeft == Infinite
    requires Step(p, f).Removed?
    ensures Step(p, f).reason.None? ==> Step(p, f).p.y >= f.height
    ensures Step(p, f).reason != Some(Default)
  {
  }

  /** Every outcome keeps the particle's callback: whatever is removed is removed with
      the callback it was created with. */
  lemma StepKeepsCallback(p: Particle, f: FrameView)
    ensures Step(p, f).p.onDestroy == p.onDestroy
    ensures Step(p, f).p.destroyCondition == p.destroyCondition
  {
  }

  /** A measure for the frame loop: a circle outweighs the bullet it fires, and a bullet
      outweighs the at most seven boxes it spills. */
  function Weight(p: Particle): (w: nat)
    ensures w >= 1
  {
    match p.onDestroy
    case FireBullet(_) => 9
    case BulletLands(_) => 8
    case _ => 1
  }

  function TotalWeight(s: seq<Particle>): nat
  {
    if |s| == 0 then 0 else Weight(s[0]) + TotalWeight(s[1..])
  }

  lemma {:induction false} TotalWeightAppend(a: seq<Particle>, b: seq<Particle>)
    ensures TotalWeight(a + b) == TotalWeight(a) + TotalWeight(b)
  {
    if |a| == 0 {
      assert a + b == b;
    } else {
      assert (a + b)[1..] == a[1..] + b;
      TotalWeightAppend(a[1..], b);
    }
  }

  /** The particle list. */
  class Particles {
    var items: seq<Particle>

    constructor ()
      ensures items == []
    {
      items := [];
    }

    /** `addParticle`: appends at the end and changes nothing else. */
    method AddParticle(p: Particle)
      modifies this
      ensures items == old(items) + [p]
    {
      items := items + [p];
    }

    /** Writes back the updated particle at index `i`. */
    method Update(i: nat, p: Particle)
      requires i < |items|
      modifies this
      ensures items == old(items)[i := p]
    {
      items := items[i := p];
    }

    /** `splice(i, 1)`: removes the particle at index `i`, shifting the later ones down. */
    method RemoveAt(i: nat)
      requires i < |items|
      modifies this
      ensures items == old(items)[..i] + old(items)[i + 1..]
    {
      items := items[..i] + items[i + 1..];
    }
  }
}
