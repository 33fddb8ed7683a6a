/** The pure rules behind the reward game's Game object (src/stores/glupo/game/game.ts):
    its pending timers, the box tier chosen from the box throughput, the particles a hit
    creates, the hurt and idle cues, and the sanity a panic hook leaves behind. The object
    that changes state by these rules is `Game.Game` in game.dfy. */
module GameRules {
  import opened Types
  import opened Particles
  import opened Hooks
  import Utils
  import Economy

  // ---------------------------------------------------------------------------
  // Timers

  /** What a pending `setTimeout` callback does when it fires: one step of panic
      recovery, the regeneration that writes the sanity captured when it was scheduled,
      or the reversal of a temporary bonus (the stats it adds). */
  datatype TimerAction =
    | PanicStep
    | Regenerate(target: int)
    | BonusReversal(reversal: Stats)

  /** A pending timer: its id (what `setTimeout` returns), when it is due, and its action. */
  datatype Timer = Timer(id: nat, deadline: real, action: TimerAction)

  /** The timers other than the one with id `id` (`clearTimeout`). */
  function Cancel(timers: seq<Timer>, id: nat): (r: seq<Timer>)
    ensures |r| <= |timers|
    ensures forall t :: t in r <==> t in timers && t.id != id
  {
    if |timers| == 0 then []
    else if timers[0].id == id then Cancel(timers[1..], id)
    else [timers[0]] + Cancel(timers[1..], id)
  }

  /** The timers without the one at index `i` (the one that just fired). */
  function Fired(timers: seq<Timer>, i: nat): (r: seq<Timer>)
    requires i < |timers|
    ensures |r| == |timers| - 1
    ensures forall t :: t in r ==> t in timers
  {
    timers[..i] + timers[i + 1..]
  }

  /** The bonus a pending timer holds back: the stats it will take away when it fires. */
  function Held(t: Timer): Stats
  {
    if t.action.BonusReversal? then t.action.reversal.Neg() else Zero
  }

  /** The temporary bonus still in force: what the pending reversals will take away. */
  function PendingBonus(timers: seq<Timer>): Stats
  {
    if |timers| == 0 then Zero else Held(timers[0]).Plus(PendingBonus(timers[1..]))
  }

  lemma {:induction false} PendingBonusAppend(a: seq<Timer>, b: seq<Timer>)
    ensures PendingBonus(a + b) == PendingBonus(a).Plus(PendingBonus(b))
  {
    if |a| == 0 {
      assert a + b == b;
      PlusZero(PendingBonus(b));
    } else {
      assert (a + b)[1..] == a[1..] + b;
      assert (a + b)[0] == a[0];
      PendingBonusAppend(a[1..], b);
      PlusAssoc(Held(a[0]), PendingBonus(a[1..]), PendingBonus(b));
    }
  }

  /** Scheduling a reversal of `r` adds `-r` to the bonus held back. */
  lemma ScheduleReversal(timers: seq<Timer>, t: Timer)
    requires t.action.BonusReversal?
    ensures PendingBonus(timers + [t]) == PendingBonus(timers).Plus(t.action.reversal.Neg())
  {
    SingleHeld(t);
    PendingBonusAppend(timers, [t]);
  }

  /** Scheduling any other timer holds back nothing more. */
  lemma ScheduleOther(timers: seq<Timer>, t: Timer)
    requires !t.action.BonusReversal?
    ensures PendingBonus(timers + [t]) == PendingBonus(timers)
  {
    SingleHeld(t);
    PendingBonusAppend(timers, [t]);
    PlusZero(PendingBonus(timers));
  }

  lemma SingleHeld(t: Timer)
    ensures PendingBonus([t]) == Held(t)
  {
    assert [t][1..] == [];
    PlusZero(Held(t));
  }

  /** Firing the timer at `i` releases exactly what it held back. */
  lemma FiredReleases(timers: seq<Timer>, i: nat)
    requires i < |timers|
    ensures PendingBonus(timers) == PendingBonus(Fired(timers, i)).Plus(Held(timers[i]))
  {
    SplitAt(timers, i);
    PendingSplit(timers[..i], timers[i], timers[i + 1..]);
  }

  lemma SplitAt<T>(s: seq<T>, i: nat)
    requires i < |s|
    ensures s == s[..i] + ([s[i]] + s[i + 1..])
  {
    assert s == s[..i] + s[i..];
    assert s[i..] == [s[i]] + s[i + 1..];
  }

  lemma PendingSplit(pre: seq<Timer>, t: Timer, post: seq<Timer>)
    ensures PendingBonus(pre + ([t] + post)) == PendingBonus(pre + post).Plus(Held(t))
  {
    var pp, h, pq := PendingBonus(pre), Held(t), PendingBonus(post);
    PendingBonusAppend(pre, [t] + post);
    PendingBonusAppend([t], post);
    PendingBonusAppend(pre, post);
    SingleHeld(t);
    PlusIsAxisWise(h, pq);
    PlusAssoc(pp, pq, h);
  }

  /** Cancelling a timer that holds back nothing leaves the pending bonus as it was. */
  lemma {:induction false} CancelKeepsBonus(timers: seq<Timer>, id: nat)
    requires forall i :: 0 <= i < |timers| && timers[i].id == id ==> !timers[i].action.BonusReversal?
    ensures PendingBonus(Cancel(timers, id)) == PendingBonus(timers)
  {
    if |timers| > 0 {
      CancelKeepsBonus(timers[1..], id);
      if timers[0].id != id {
        assert [timers[0]] + Cancel(timers[1..], id) == Cancel(timers, id);
        PendingBonusAppend([timers[0]], Cancel(timers[1..], id));
        assert [timers[0]][1..] == [];
        PlusZero(Held(timers[0]));
      } else {
        PlusZero(PendingBonus(timers[1..]));
      }
    }
  }

  predicate IsRegenerate(a: TimerAction) { a.Regenerate? }

  predicate IsPanicStep(a: TimerAction) { a.PanicStep? }

  /** How many pending timers have an action of kind `kind`. */
  function CountOf(timers: seq<Timer>, kind: TimerAction -> bool): nat
  {
    if |timers| == 0 then 0 else (if kind(timers[0].action) then 1 else 0) + CountOf(timers[1..], kind)
  }

  lemma {:induction false} CountAppend(a: seq<Timer>, b: seq<Timer>, kind: TimerAction -> bool)
    ensures CountOf(a + b, kind) == CountOf(a, kind) + CountOf(b, kind)
  {
    if |a| == 0 {
      assert a + b == b;
    } else {
      assert (a + b)[1..] == a[1..] + b;
      assert (a + b)[0] == a[0];
      CountAppend(a[1..], b, kind);
    }
  }

  /** Scheduling one timer counts it once. */
  lemma CountSchedule(timers: seq<Timer>, t: Timer, kind: TimerAction -> bool)
    ensures CountOf(timers + [t], kind) == CountOf(timers, kind) + (if kind(t.action) then 1 else 0)
  {
    CountAppend(timers, [t], kind);
    assert [t][1..] == [];
  }

  /** Firing a timer uncounts it. */
  lemma CountFired(timers: seq<Timer>, i: nat, kind: TimerAction -> bool)
    requires i < |timers|
    ensures CountOf(timers, kind) == CountOf(Fired(timers, i), kind) + (if kind(timers[i].action) then 1 else 0)
  {
    SplitAt(timers, i);
    CountSplit(timers[..i], timers[i], timers[i + 1..], kind);
  }

  lemma CountSplit(pre: seq<Timer>, t: Timer, post: seq<Timer>, kind: TimerAction -> bool)
    ensures CountOf(pre + ([t] + post), kind) == CountOf(pre + post, kind) + (if kind(t.action) then 1 else 0)
  {
    CountAppend(pre, [t] + post, kind);
    CountAppend([t], post, kind);
    CountAppend(pre, post, kind);
    assert [t][1..] == [];
  }

  /** Cancelling never adds to a count, and cancelling the id that every timer of the
      kind carries leaves none of them. */
  lemma {:induction false} CountCancel(timers: seq<Timer>, id: nat, kind: TimerAction -> bool)
    ensures CountOf(Cancel(timers, id), kind) <= CountOf(timers, kind)
    ensures (forall t :: t in timers && kind(t.action) ==> t.id == id) ==> CountOf(Cancel(timers, id), kind) == 0
  {
    if |timers| > 0 {
      CountCancel(timers[1..], id, kind);
      if timers[0].id != id {
        assert [timers[0]] + Cancel(timers[1..], id) == Cancel(timers, id);
        CountAppend([timers[0]], Cancel(timers[1..], id), kind);
        assert [timers[0]][1..] == [];
      }
      if forall t :: t in timers && kind(t.action) ==> t.id == id {
        assert forall t :: t in timers[1..] ==> t in timers;
      }
    }
  }

  // ---------------------------------------------------------------------------
  // Box tier

  /** Boxes per second at the current stats: the mean hit's boxes times the hits a
      second the cooldown allows. */
  function BoxesPerSecond(d: Economy.Derived): int
    requires d.realCooldown > 0.0
  {
    Floor(1000.0 / d.realCooldown * (d.minBoxes + d.maxBoxes) as real / 2.0)
  }

  /** How many boxes one reward particle stands for at a throughput of `bps`. */
  function TierDivisor(bps: int): (k: int)
    ensures 1 <= k <= 4
  {
    if bps > 128 then 4 else if bps > 64 then 3 else if bps > 32 then 2 else 1
  }

  /** The sprite of a tier: white, red, blue, or the plain box. */
  function TierSprite(bps: int): Sprite
  {
    if bps > 128 then BoxWhite else if bps > 64 then BoxRed else if bps > 32 then BoxBlue else Box
  }

  /** The reward particles shown for `count` boxes: `count` divided by the tier's
      divisor, rounded up. */
  function TierCount(bps: int, count: int): (n: int)
    ensures (n - 1) * TierDivisor(bps) < count <= n * TierDivisor(bps)
  {
    if bps > 128 then Ceil(count as real / 4.0)
    else if bps > 64 then Ceil(count as real / 3.0)
    else if bps > 32 then Ceil(count as real / 2.0)
    else count
  }

  /** Higher throughput never shows more particles for the same boxes; a hit with at
      least one box shows at least one and at most `count` particles; and each tier has
      its own sprite. */
  lemma TierShrinks(bps: int, bps2: int, count: int)
    requires bps <= bps2
    ensures TierDivisor(bps) <= TierDivisor(bps2)
    ensures count >= 1 ==> 1 <= TierCount(bps, count) <= count
    ensures count >= 1 ==> TierCount(bps2, count) <= TierCount(bps, count)
    ensures TierDivisor(bps) == 1 <==> TierSprite(bps) == Box
    ensures TierDivisor(bps) == 4 <==> TierSprite(bps) == BoxWhite
    ensures TierDivisor(bps) == 3 <==> TierSprite(bps) == BoxRed
    ensures TierDivisor(bps) == 2 <==> TierSprite(bps) == BoxBlue
  {
    if count >= 1 {
      CeilDivBounds(count, TierDivisor(bps), TierCount(bps, count));
      CeilDivShrinks(count, TierDivisor(bps), TierCount(bps, count), TierDivisor(bps2), TierCount(bps2, count));
    }
  }

  /** `n`, the quotient of `count` by `k` rounded up, lies in [1, count]. */
  lemma CeilDivBounds(count: int, k: int, n: int)
    requires 1 <= k <= 4 && count >= 1
    requires (n - 1) * k < count <= n * k
    ensures 1 <= n <= count
  {
    if k == 1 {
    } else if k == 2 {
    } else if k == 3 {
    } else {
    }
  }

  /** Rounding up the quotient by a larger divisor gives no more. */
  lemma CeilDivShrinks(count: int, k: int, n: int, k2: int, n2: int)
    requires 1 <= k <= k2 <= 4 && count >= 1
    requires (n - 1) * k < count <= n * k
    requires (n2 - 1) * k2 < count <= n2 * k2
    ensures n2 <= n
  {
    if k == 1 {
      if k2 == 1 {} else if k2 == 2 {} else if k2 == 3 {} else {}
    } else if k == 2 {
      if k2 == 2 {} else if k2 == 3 {} else {}
    } else if k == 3 {
      if k2 == 3 {} else {}
    } else {
    }
  }

  // ---------------------------------------------------------------------------
  // Particles of a hit

  /** Size, sprite and gravity of the boxes a spawn produces. */
  function HitBoxStyle(isCritical: bool, sizeBonus: real, bps: int): BoxStyle
  {
    BoxStyle((if isCritical then 48.0 else 32.0) + sizeBonus * 4.0, TierSprite(bps), 0.4)
  }

  /** One spawned box: at `at` with the launch velocity `v`, fully opaque, fading by
      0.005 a frame, never timing out, without collision; its removal plays the
      pick-up cue. */
  function BoxParticle(at: Vec, v: Vec, style: BoxStyle): (p: Particle)
    ensures p.onDestroy == BoxPickup && Weight(p) == 1
    ensures p.timeLeft == Infinite && p.destroyCondition == None && p.opacity == 1.0
    ensures p.x == at.x && p.y == at.y && p.size == style.size && p.sprite == style.sprite
  {
    Particle(at.x, at.y, v.x, v.y, style.size, 1.0, 0.005, style.sprite, Infinite, style.gravity, None, BoxPickup)
  }

  /** The boxes of one spawn, the `i`-th launched with `launch(i)`. */
  function Boxes(at: Vec, count: nat, style: BoxStyle, launch: nat -> Vec): (s: seq<Particle>)
    ensures |s| == count && TotalWeight(s) == count
    ensures forall i :: 0 <= i < count ==> s[i] == BoxParticle(at, launch(i), style)
  {
    if count == 0 then []
    else
      var init := Boxes(at, count - 1, style, launch);
      TotalWeightAppend(init, [BoxParticle(at, launch(count - 1), style)]);
      assert [BoxParticle(at, launch(count - 1), style)][1..] == [];
      init + [BoxParticle(at, launch(count - 1), style)]
  }

  /** The hit flash: still, at the hit, 64 pixels on a critical hit and 24 otherwise,
      gone after a second, with no callback. */
  function HitFlash(at: Vec, isCritical: bool): (p: Particle)
    ensures p.x == at.x && p.y == at.y && p.vx == 0.0 && p.vy == 0.0 && p.gravity == 0.0
    ensures p.size == (if isCritical then 64.0 else 24.0)
    ensures p.sprite == (if isCritical then HitCritical else HitBasic)
    ensures p.timeLeft == Finite(1000.0) && p.onDestroy == NoAction && p.destroyCondition == None
  {
    Particle(at.x, at.y, 0.0, 0.0, if isCritical then 64.0 else 24.0, 1.0, 0.005,
             if isCritical then HitCritical else HitBasic, Finite(1000.0), 0.0, None, NoAction)
  }

  /** What the particles an effect appends weigh (the frame loop's measure). A change of
      sanity appends nothing: the panic hooks it may run only write sanity. */
  function EffectWeight(e: Effect): nat
  {
    match e
    case SpawnBoxes(_, n, _) => if n < 0 then 0 else n
    case SpawnSpider(_) => 1
    case AddParticle(p) => Weight(p)
    case _ => 0
  }

  function EffectsWeight(es: seq<Effect>): nat
  {
    if |es| == 0 then 0 else EffectWeight(es[0]) + EffectsWeight(es[1..])
  }

  /** Appending one more effect adds its weight. */
  lemma {:induction false} EffectsWeightSnoc(es: seq<Effect>, e: Effect)
    ensures EffectsWeight(es + [e]) == EffectsWeight(es) + EffectWeight(e)
  {
    if |es| == 0 {
      assert es + [e] == [e];
      assert [e][1..] == [];
    } else {
      assert (es + [e])[1..] == es[1..] + [e];
      assert (es + [e])[0] == es[0];
      EffectsWeightSnoc(es[1..], e);
    }
  }

  // ---------------------------------------------------------------------------
  // Spiders and the bonus they grant

  /** The Red Eyes spiders among the particles. */
  function Spiders(items: seq<Particle>): nat
  {
    if |items| == 0 then 0 else (if items[0].onDestroy == SpiderGone then 1 else 0) + Spiders(items[1..])
  }

  lemma {:induction false} SpidersAppend(a: seq<Particle>, b: seq<Particle>)
    ensures Spiders(a + b) == Spiders(a) + Spiders(b)
  {
    if |a| == 0 {
      assert a + b == b;
    } else {
      assert (a + b)[1..] == a[1..] + b;
      assert (a + b)[0] == a[0];
      SpidersAppend(a[1..], b);
    }
  }

  /** Boxes are not spiders. */
  lemma {:induction false} NoSpiderBoxes(at: Vec, count: nat, style: BoxStyle, launch: nat -> Vec)
    ensures Spiders(Boxes(at, count, style, launch)) == 0
  {
    if count > 0 {
      NoSpiderBoxes(at, count - 1, style, launch);
      var last := BoxParticle(at, launch(count - 1), style);
      SpidersAppend(Boxes(at, count - 1, style, launch), [last]);
      assert [last][1..] == [];
    }
  }

  /** A list of one particle holds a spider exactly when that particle is one. */
  lemma SpidersOne(p: Particle)
    ensures Spiders([p]) == if p.onDestroy == SpiderGone then 1 else 0
  {
    assert [p][1..] == [];
  }

  /** Taking out the particle at `i` takes out its spider, if it is one. */
  lemma SpidersRemove(items: seq<Particle>, i: nat)
    requires i < |items|
    ensures Spiders(items) == Spiders(items[..i] + items[i + 1..]) + Spiders([items[i]])
  {
    SplitAt(items, i);
    SpidersSplit(items[..i], items[i], items[i + 1..]);
  }

  lemma SpidersSplit(pre: seq<Particle>, p: Particle, post: seq<Particle>)
    ensures Spiders(pre + ([p] + post)) == Spiders(pre + post) + Spiders([p])
  {
    SpidersAppend(pre, [p] + post);
    SpidersAppend([p], post);
    SpidersAppend(pre, post);
  }

  /** Writing back a particle with the same callback keeps the count. */
  lemma SpidersUpdate(items: seq<Particle>, i: nat, q: Particle)
    requires i < |items| && q.onDestroy == items[i].onDestroy
    ensures Spiders(items[i := q]) == Spiders(items)
  {
    SpidersRemove(items, i);
    SpidersRemove(items[i := q], i);
    assert items[i := q][..i] == items[..i] && items[i := q][i + 1..] == items[i + 1..];
    SpidersOne(q);
    SpidersOne(items[i]);
  }

  /** The temperance bonus of `n` living spiders. */
  function SpiderBonuses(n: int): (s: Stats)
    ensures s.temperance == n && s.fortitude == 0 && s.prudence == 0 && s.justice == 0
  {
    Stats(0, 0, n, 0)
  }

  /** Adding `delta` to a bonus made of a pending part and a spider part is the same as
      adding it to the pending part. */
  lemma Regroup(pending: Stats, spiders: Stats, delta: Stats)
    ensures pending.Plus(spiders).Plus(delta) == pending.Plus(delta).Plus(spiders)
  {
    PlusAssoc(pending, spiders, delta);
    PlusIsAxisWise(spiders, delta);
    PlusAssoc(pending, delta, spiders);
  }

  /** Negating twice gives back the bonus. */
  lemma NegNeg(s: Stats)
    ensures s.Neg().Neg() == s
  {
    StatsHaveFourAxes(s.Neg().Neg(), s);
  }

  // ---------------------------------------------------------------------------
  // Cues

  /** The chance that the hurt cue plays, or `None` when it cannot play (sanity at half
      or more). */
  function HurtChance(current: int, maxSanity: int): (c: Option<real>)
    requires maxSanity > 0
    ensures c.None? <==> 2 * current >= maxSanity
    ensures c.Some? && current >= 0 ==> 0.25 < c.value <= 0.75
    ensures c.Some? && current == 0 ==> c.value == 0.75
  {
    var p := current as real / maxSanity as real;
    RatioFacts(current, maxSanity);
    if p >= 0.5 then None
    else
      var ratio := if p / 0.5 < 1.0 then p / 0.5 else 1.0;
      Some(0.25 + 0.5 * (1.0 - ratio))
  }

  /** Sanity over its maximum is at least one half exactly when twice sanity reaches the
      maximum; it is zero at zero sanity and not negative for non-negative sanity. */
  lemma RatioFacts(current: int, maxSanity: int)
    requires maxSanity > 0
    ensures var p := current as real / maxSanity as real;
      (p >= 0.5 <==> 2 * current >= maxSanity) && (current >= 0 ==> p >= 0.0) && (current == 0 ==> p == 0.0)
  {
    var m := maxSanity as real;
    var p := current as real / m;
    assert p * m == current as real;
    if p >= 0.5 {
      assert p * m >= 0.5 * m;
    } else {
      assert p * m < 0.5 * m;
    }
  }

  /** Division by a positive number keeps the order. */
  lemma DivMonotone(a: real, b: real, m: real)
    requires m > 0.0 && a <= b
    ensures a / m <= b / m
  {
    assert b / m - a / m == (b - a) / m;
    assert (b - a) / m * m == b - a;
  }

  /** Whether the hurt cue plays for the draw `u`. */
  predicate HurtPlays(current: int, maxSanity: int, u: Unit)
    requires maxSanity > 0
  {
    match HurtChance(current, maxSanity)
    case None => false
    case Some(c) => !(u > c)
  }

  /** The cue never plays at half sanity or more; below half it always plays for a draw
      up to 0.25 and never for one above 0.75; and lower sanity never lowers the chance. */
  lemma HurtCueBounds(current: int, current2: int, maxSanity: int, u: Unit)
    requires maxSanity > 0
    ensures 2 * current >= maxSanity ==> !HurtPlays(current, maxSanity, u)
    ensures 0 <= current && 2 * current < maxSanity && u <= 0.25 ==> HurtPlays(current, maxSanity, u)
    ensures 0 <= current && u > 0.75 ==> !HurtPlays(current, maxSanity, u)
    ensures current2 <= current && HurtChance(current, maxSanity).Some? ==>
      HurtChance(current2, maxSanity).Some? && HurtChance(current2, maxSanity).value >= HurtChance(current, maxSanity).value
  {
    if current2 <= current && HurtChance(current, maxSanity).Some? {
      DivMonotone(current2 as real, current as real, maxSanity as real);
    }
  }

  /** The idle scheduler's outcome: the new next-cue time, and whether the cue plays. */
  datatype IdleOutcome = IdleOutcome(next: Option<real>, plays: bool)

  const IdleQuiet: real := 5000.0

  /** `playIdleSound` at time `now`: quiet for 5 s after a hit, with the schedule
      cleared; otherwise a missing schedule is set 5 to 10 s ahead (draw `u1`), and once
      `now` reaches it the cue plays and is rescheduled 5 to 10 s ahead (draw `u2`). */
  function IdleStep(now: real, lastHit: real, next: Option<real>, u1: Unit, u2: Unit): (r: IdleOutcome)
    ensures now < lastHit + IdleQuiet ==> r == IdleOutcome(None, false)
    ensures r.plays <==> now >= lastHit + IdleQuiet && next.Some? && now >= next.value
    ensures r.plays ==> r.next.Some? && now + 5000.0 <= r.next.value < now + 10000.0
    ensures now >= lastHit + IdleQuiet && !r.plays ==> r.next.Some? && now < r.next.value
    ensures now >= lastHit + IdleQuiet && !r.plays && next.Some? ==> r.next == next
    ensures now >= lastHit + IdleQuiet && next.None? ==> r.next.Some? && now + 5000.0 <= r.next.value < now + 10000.0
  {
    if now < lastHit + IdleQuiet then IdleOutcome(None, false)
    else
      var due := if next.None? then now + Utils.Scaled(u1, 5000.0) + 5000.0 else next.value;
      if now < due then IdleOutcome(Some(due), false)
      else IdleOutcome(Some(now + Utils.Scaled(u2, 5000.0) + 5000.0), true)
  }

  /** The first time at which the scheduler plays over a run of frames, if it does. */
  function FirstIdleCue(nows: seq<real>, lastHit: real, next: Option<real>, u1: seq<Unit>, u2: seq<Unit>): Option<real>
    requires |u1| == |nows| && |u2| == |nows|
  {
    if |nows| == 0 then None
    else
      var r := IdleStep(nows[0], lastHit, next, u1[0], u2[0]);
      if r.plays then Some(nows[0])
      else FirstIdleCue(nows[1..], lastHit, r.next, u1[1..], u2[1..])
  }

  /** With no hit for 5 s and a schedule not before `bound`, the scheduler does not
      play before `bound`. */
  lemma {:induction false} IdleNotBefore(nows: seq<real>, lastHit: real, next: Option<real>, u1: seq<Unit>, u2: seq<Unit>, bound: real)
    requires |u1| == |nows| && |u2| == |nows|
    requires forall i :: 0 <= i < |nows| ==> nows[i] >= lastHit + IdleQuiet
    requires next.Some? && next.value >= bound
    ensures FirstIdleCue(nows, lastHit, next, u1, u2).Some? ==> FirstIdleCue(nows, lastHit, next, u1, u2).value >= bound
    decreases |nows|
  {
    if |nows| > 0 {
      var r := IdleStep(nows[0], lastHit, next, u1[0], u2[0]);
      if !r.plays {
        IdleNotBefore(nows[1..], lastHit, r.next, u1[1..], u2[1..], bound);
      }
    }
  }

  /** Two idle cues with no hit in between are at least 5 s apart, whatever the frames
      in between: a schedule is only ever set at least 5 s ahead and kept until due. */
  lemma IdleCuesSpaced(now: real, nows: seq<real>, lastHit: real, next: Option<real>, u1: Unit, u2: Unit, us1: seq<Unit>, us2: seq<Unit>)
    requires |us1| == |nows| && |us2| == |nows|
    requires forall i :: 0 <= i < |nows| ==> now <= nows[i]
    requires IdleStep(now, lastHit, next, u1, u2).plays
    ensures FirstIdleCue(nows, lastHit, IdleStep(now, lastHit, next, u1, u2).next, us1, us2).Some? ==>
      FirstIdleCue(nows, lastHit, IdleStep(now, lastHit, next, u1, u2).next, us1, us2).value >= now + 5000.0
  {
    IdleNotBefore(nows, lastHit, IdleStep(now, lastHit, next, u1, u2).next, us1, us2, now + 5000.0);
  }

  // ---------------------------------------------------------------------------
  // Sanity written by panic hooks

  /** The sanity after a panic hook's writes: the last value written, or `current`. */
  function AfterWrites(es: seq<Effect>, current: int): (v: int)
    ensures v == current || exists i :: 0 <= i < |es| && es[i].SetSanity? && v == es[i].value
  {
    if |es| == 0 then current
    else AfterWrites(es[1..], if es[0].SetSanity? then es[0].value else current)
  }
}
