/** The reward game's Game object (src/stores/glupo/game/game.ts). It owns the sanity state
    and the particle list, drives the store and the shared weapon counters, and hands its
    callbacks to the host's timers. Every method is proved to change these objects as the
    matching function of game_world.dfy says; the invariant is kept by the lemmas there.
    Time and every random draw are parameters. */
module Game {
  import opened Types
  import opened Particles
  import opened Hooks
  import opened GameRules
  import opened Sanity
  import opened GameWorld
  import Utils
  import Economy
  import Store
  import Weapons
  import StoreRules
  import RedEyesWeapon
  import MagicBulletWeapon

  /** What a hit returns to its caller: the boxes drawn, whether it was critical, and
      whether the hurt cue plays. */
  datatype HitOutcome = HitOutcome(boxes: int, isCritical: bool, hurtCue: bool)

  /** Whether a mouse move hits: the pointer is within half of Glupo's larger side of its
      centre, moves faster than 20 pixels, and the cooldown has passed since the last hit. */
  predicate HitAllowed(distance: real, glupoSize: real, mouseSpeed: real, sinceLastHit: real, cooldown: real)
  {
    distance < glupoSize / 2.0 && mouseSpeed > 20.0 && sinceLastHit > cooldown
  }

  /** Two hits are always more than a cooldown apart, and a slow move never hits. */
  lemma HitsAreSpaced(distance: real, glupoSize: real, mouseSpeed: real, lastHit: real, now: real, cooldown: real)
    ensures HitAllowed(distance, glupoSize, mouseSpeed, now - lastHit, cooldown) ==> now > lastHit + cooldown
    ensures mouseSpeed <= 20.0 ==> !HitAllowed(distance, glupoSize, mouseSpeed, now - lastHit, cooldown)
  {
  }

  class Game {
    const store: Store.GlupoStore
    const particles: Particles
    const instances: Weapons.Instances

    var sanityState: SanityState
    var timers: seq<Timer>          // the callbacks pending with the host
    var nextTimerId: nat
    var lastTimestamp: real
    var lastHitTimestamp: real
    var nextIdleSoundTimestamp: Option<real>

    /** The game's state as one value. */
    function State(): World
      reads this, store, particles, instances
    {
      World(store.gameData, store.bonusStats, Clock(sanityState, timers, nextTimerId),
            instances.spiderCount, instances.bulletsFired, particles.items)
    }

    predicate Valid()
      reads this, store, particles, instances
    {
      WorldValid(State())
    }

    /** A game over a loaded store without bonus and the shared weapon instances without
        spiders: sanity 100, no panic, no timer, no particle. */
    constructor (store: Store.GlupoStore, instances: Weapons.Instances)
      requires store.Valid() && store.bonusStats == Zero && instances.spiderCount == 0
      ensures this.store == store && this.instances == instances && fresh(particles)
      ensures State() == World(store.gameData, Zero, Initial, 0, instances.bulletsFired, [])
      ensures lastTimestamp == 0.0 && lastHitTimestamp == 0.0 && nextIdleSoundTimestamp.None?
      ensures Valid()
    {
      this.store := store;
      this.instances := instances;
      particles := new Particles();
      sanityState := Initial.sanity;
      timers := [];
      nextTimerId := Initial.nextTimerId;
      lastTimestamp := 0.0;
      lastHitTimestamp := 0.0;
      nextIdleSoundTimestamp := None;
      new;
      // The frame facts first: the lemma below brings constant bonus arithmetic into scope.
      assert lastTimestamp == 0.0 && lastHitTimestamp == 0.0 && nextIdleSoundTimestamp.None?;
      assert State() == World(store.gameData, Zero, Initial, 0, instances.bulletsFired, []);
      InitialWorldValid(store.gameData, instances.bulletsFired);
    }

    /** `init`: full sanity, no panic, no regeneration id. It cancels nothing; it runs once,
        when the store has loaded, before any timer exists. */
    method Init()
      modifies this
      ensures sanityState == SanityState(store.Derived().maxSanity, false, None)
      ensures timers == old(timers) && nextTimerId == old(nextTimerId)
      ensures lastTimestamp == old(lastTimestamp) && lastHitTimestamp == old(lastHitTimestamp)
      ensures nextIdleSoundTimestamp == old(nextIdleSoundTimestamp)
      ensures old(Valid()) && old(timers) == [] ==> Valid()
    {
      ghost var w := State();
      sanityState := SanityState(store.Derived().maxSanity, false, None);
      assert State() == w.(clock := w.clock.(sanity := sanityState));
      if old(Valid()) && old(timers) == [] {
        ResetKeepsValid(w, sanityState.current);
      }
    }

    /** `setTimeout`: a timer with a fresh id. */
    method Schedule(deadline: real, action: TimerAction) returns (id: nat)
      modifies this
      ensures id == old(nextTimerId) && nextTimerId == id + 1
      ensures timers == old(timers) + [Timer(id, deadline, action)]
      ensures sanityState == old(sanityState)
      ensures lastTimestamp == old(lastTimestamp) && lastHitTimestamp == old(lastHitTimestamp)
      ensures nextIdleSoundTimestamp == old(nextIdleSoundTimestamp)
    {
      id := nextTimerId;
      timers := timers + [Timer(id, deadline, action)];
      nextTimerId := nextTimerId + 1;
    }

    /** The panic hooks' direct writes of sanity, in order. */
    method RunWrites(effects: seq<Effect>)
      modifies this
      ensures sanityState == old(sanityState).(current := AfterWrites(effects, old(sanityState).current))
      ensures timers == old(timers) && nextTimerId == old(nextTimerId)
      ensures lastTimestamp == old(lastTimestamp) && lastHitTimestamp == old(lastHitTimestamp)
      ensures nextIdleSoundTimestamp == old(nextIdleSoundTimestamp)
    {
      var i := 0;
      while i < |effects|
        invariant 0 <= i <= |effects|
        invariant AfterWrites(effects[i..], sanityState.current) == AfterWrites(effects, old(sanityState).current)
        invariant sanityState == old(sanityState).(current := sanityState.current)
        invariant timers == old(timers) && nextTimerId == old(nextTimerId)
        invariant lastTimestamp == old(lastTimestamp) && lastHitTimestamp == old(lastHitTimestamp)
        invariant nextIdleSoundTimestamp == old(nextIdleSoundTimestamp)
      {
        assert effects[i..][1..] == effects[i + 1..];
        if effects[i].SetSanity? {
          sanityState := sanityState.(current := effects[i].value);
        }
        i := i + 1;
      }
    }

    /** `changeSanity(amount)` at time `now`, the panic hooks drawing `panicDraws`. */
    method ChangeSanity(amount: int, now: real, panicDraws: HookDraws, scene: Scene)
      modifies this
      ensures State() == old(State()).(clock := ChangeSanityRule(old(State()).clock, amount, now, Derived(old(State())), PanicEffects(old(State()), scene, panicDraws)))
      ensures lastTimestamp == old(lastTimestamp) && lastHitTimestamp == old(lastHitTimestamp)
      ensures nextIdleSoundTimestamp == old(nextIdleSoundTimestamp)
    {
      if sanityState.isPanic {
        return;
      }
      var d := store.Derived();
      AdjustSanity(amount, now, d, panicDraws, scene);
    }

    /** The part of `changeSanity` past the panic guard, on the game's clock alone. */
    method AdjustSanity(amount: int, now: real, d: Economy.Derived, panicDraws: HookDraws, scene: Scene)
      requires !sanityState.isPanic
      modifies this
      ensures Clock(sanityState, timers, nextTimerId) == ChangeSanityRule(Clock(old(sanityState), old(timers), old(nextTimerId)), amount, now, d, PanicEffects(old(State()), scene, panicDraws))
      ensures lastTimestamp == old(lastTimestamp) && lastHitTimestamp == old(lastHitTimestamp)
      ensures nextIdleSoundTimestamp == old(nextIdleSoundTimestamp)
    {
      if sanityState.current + amount <= 0 {
        FallIntoPanic(amount, now, d, panicDraws, scene);
        return;
      }
      ghost var c := Clock(sanityState, timers, nextTimerId);
      sanityState := sanityState.(current := sanityState.current + amount);
      if sanityState.current > d.maxSanity {
        sanityState := sanityState.(current := d.maxSanity);
      }
      if sanityState.current == d.maxSanity {
        return;
      }
      RestartRegeneration(now, d);
      assert Clock(sanityState, timers, nextTimerId) == ChangeSanityRule(c, amount, now, d, []);
    }

    /** `changeSanity` when the change takes sanity to 0 or below. */
    method FallIntoPanic(amount: int, now: real, d: Economy.Derived, panicDraws: HookDraws, scene: Scene)
      requires !sanityState.isPanic && sanityState.current + amount <= 0
      modifies this
      ensures Clock(sanityState, timers, nextTimerId) == ChangeSanityRule(Clock(old(sanityState), old(timers), old(nextTimerId)), amount, now, d, PanicEffects(old(State()), scene, panicDraws))
      ensures lastTimestamp == old(lastTimestamp) && lastHitTimestamp == old(lastHitTimestamp)
      ensures nextIdleSoundTimestamp == old(nextIdleSoundTimestamp)
    {
      ghost var w := State();
      sanityState := sanityState.(current := sanityState.current + amount);
      assert View(State(), scene).(current := 0) == View(w, scene).(current := 0);
      StartPanic(now, d, panicDraws, scene);
    }

    /** The panic branch of `changeSanity`: sanity 0 and panic, the pending regeneration
        cancelled, the panic hooks run on that state, then the first panic step. */
    method StartPanic(now: real, d: Economy.Derived, panicDraws: HookDraws, scene: Scene)
      modifies this
      ensures sanityState == SanityState(AfterWrites(PanicEffects(old(State()), scene, panicDraws), 0), true, old(sanityState).restoreTimer)
      ensures timers == CancelRestore(old(timers), old(sanityState).restoreTimer) + [Timer(old(nextTimerId), now + d.panicRestoreDelay, PanicStep)]
      ensures nextTimerId == old(nextTimerId) + 1
      ensures lastTimestamp == old(lastTimestamp) && lastHitTimestamp == old(lastHitTimestamp)
      ensures nextIdleSoundTimestamp == old(nextIdleSoundTimestamp)
    {
      sanityState := sanityState.(current := 0, isPanic := true);
      if sanityState.restoreTimer.Some? {
        timers := Cancel(timers, sanityState.restoreTimer.value);
      }
      var effects := StoreRules.ProcessPanic(store.gameData.selectedWeapon, store.gameData.selectedArmor, View(State(), scene), panicDraws);
      assert effects == PanicEffects(old(State()), scene, panicDraws);
      RunWrites(effects);
      var _ := Schedule(now + d.panicRestoreDelay, PanicStep);
    }

    /** The regeneration branch of `changeSanity`: the pending regeneration is replaced by
        one that restores `d.maxSanity` after `d.regenerationDelay`. */
    method RestartRegeneration(now: real, d: Economy.Derived)
      modifies this
      ensures sanityState == old(sanityState).(restoreTimer := Some(old(nextTimerId)))
      ensures timers == CancelRestore(old(timers), old(sanityState).restoreTimer) + [Timer(old(nextTimerId), now + d.regenerationDelay, Regenerate(d.maxSanity))]
      ensures nextTimerId == old(nextTimerId) + 1
      ensures lastTimestamp == old(lastTimestamp) && lastHitTimestamp == old(lastHitTimestamp)
      ensures nextIdleSoundTimestamp == old(nextIdleSoundTimestamp)
    {
      if sanityState.restoreTimer.Some? {
        timers := Cancel(timers, sanityState.restoreTimer.value);
      }
      var id := Schedule(now + d.regenerationDelay, Regenerate(d.maxSanity));
      sanityState := sanityState.(restoreTimer := Some(id));
    }

    /** `spawnBoxes`: `count` boxes at `at`, the `i`-th launched with `launch(i)`. */
    method SpawnBoxes(at: Vec, count: int, style: BoxStyle, launch: nat -> Vec)
      modifies particles
      ensures particles.items == old(particles.items) + Boxes(at, if count < 0 then 0 else count, style, launch)
    {
      var i: nat := 0;
      while i < count
        invariant i <= (if count < 0 then 0 else count)
        invariant particles.items == old(particles.items) + Boxes(at, i, style, launch)
      {
        particles.AddParticle(BoxParticle(at, launch(i), style));
        i := i + 1;
      }
    }

    /** One call of an item hook, performed on the game's objects. */
    method ApplyEffect(e: Effect, now: real, draws: Draws, scene: Scene)
      requires store.Valid()
      modifies this, store, particles, instances
      ensures State() == EffectRule(old(State()), e, now, draws, scene) && store.Valid()
      ensures lastTimestamp == old(lastTimestamp) && lastHitTimestamp == old(lastHitTimestamp)
      ensures nextIdleSoundTimestamp == old(nextIdleSoundTimestamp)
    {
      match e
      case ChangeSanity(a) =>
        ChangeSanity(a, now, draws.panic, scene);
      case AddBalance(a) =>
        store.AddBalance(a);
      case AddBoxes(n, m) =>
        store.AddBoxes(n, m);
      case SpawnBoxes(at, n, style) =>
        SpawnBoxes(at, n, style, draws.launch);
      case SpawnSpider(at) =>
        instances.spiderCount := instances.spiderCount + 1;
        store.AddBonusStats(RedEyesWeapon.SpiderBonus);
        particles.AddParticle(RedEyesWeapon.Spider(at));
      case AddParticle(p) =>
        particles.AddParticle(p);
      case SetSanity(v) =>
        sanityState := sanityState.(current := v);
      case TemporaryBonus(delta, delay) =>
        store.AddBonusStats(delta);
        var _ := Schedule(now + delay, BonusReversal(delta.Neg()));
    }

    /** The calls of a hook, in order. */
    method ApplyEffects(es: seq<Effect>, now: real, draws: Draws, scene: Scene)
      requires store.Valid()
      modifies this, store, particles, instances
      ensures State() == EffectsRule(old(State()), es, now, draws, scene) && store.Valid()
      ensures lastTimestamp == old(lastTimestamp) && lastHitTimestamp == old(lastHitTimestamp)
      ensures nextIdleSoundTimestamp == old(nextIdleSoundTimestamp)
    {
      var i := 0;
      while i < |es|
        invariant 0 <= i <= |es|
        invariant State() == EffectsRule(old(State()), es[..i], now, draws, scene) && store.Valid()
        invariant lastTimestamp == old(lastTimestamp) && lastHitTimestamp == old(lastHitTimestamp)
        invariant nextIdleSoundTimestamp == old(nextIdleSoundTimestamp)
      {
        EffectsStep(old(State()), es, i, now, draws, scene);
        ApplyEffect(es[i], now, draws, scene);
        i := i + 1;
      }
      assert es[..i] == es;
    }

    /** `handleHit(position)`: ignored in panic; otherwise the hit time is noted, the
        strike is made, the hooks run, and the hurt cue is decided on the sanity and
        maxSanity after them. */
    method HandleHit(at: Vec, now: real, uCount: Unit, uCrit: Unit, uHurt: Unit, draws: Draws, scene: Scene)
      returns (outcome: Option<HitOutcome>)
      requires Valid()
      modifies this, store, particles, instances
      ensures old(sanityState.isPanic) ==> outcome.None? && State() == old(State()) && lastHitTimestamp == old(lastHitTimestamp)
      ensures !old(sanityState.isPanic) ==>
        State() == HitRule(old(State()), at, uCount, uCrit, now, draws, scene)
        && lastHitTimestamp == now
        && outcome == Some(HitOutcome(HitCount(old(State()), uCount), HitIsCritical(old(State()), uCrit),
                                      HurtPlays(sanityState.current, store.Derived().maxSanity, uHurt)))
      ensures lastTimestamp == old(lastTimestamp) && nextIdleSoundTimestamp == old(nextIdleSoundTimestamp)
      ensures Valid()
    {
      if sanityState.isPanic {
        return None;
      }
      ghost var w := State();
      lastHitTimestamp := now;
      var count, isCritical := Hit(at, uCount, uCrit, now, draws, scene);
      var hurt := HurtPlays(sanityState.current, store.Derived().maxSanity, uHurt);
      outcome := Some(HitOutcome(count, isCritical, hurt));
      assert lastTimestamp == old(lastTimestamp) && nextIdleSoundTimestamp == old(nextIdleSoundTimestamp);
      assert lastHitTimestamp == now && State() == HitRule(w, at, uCount, uCrit, now, draws, scene);
      HitKeepsValid(w, at, uCount, uCrit, now, draws, scene);
    }

    /** A hit past the panic test: the strike, then the selected items' hit hooks. */
    method Hit(at: Vec, uCount: Unit, uCrit: Unit, now: real, draws: Draws, scene: Scene)
      returns (count: int, isCritical: bool)
      requires store.Valid()
      modifies this, store, particles, instances
      ensures State() == HitRule(old(State()), at, uCount, uCrit, now, draws, scene) && store.Valid()
      ensures count == HitCount(old(State()), uCount) && isCritical == HitIsCritical(old(State()), uCrit)
      ensures lastTimestamp == old(lastTimestamp) && lastHitTimestamp == old(lastHitTimestamp)
      ensures nextIdleSoundTimestamp == old(nextIdleSoundTimestamp)
    {
      var d := store.Derived();
      count := Utils.RandomRangeInt(uCount, d.minBoxes, d.maxBoxes);
      isCritical := uCrit < d.criticalChance;
      Strike(at, count, isCritical, draws);
      var effects := StoreRules.ProcessHit(store.gameData.selectedWeapon, store.gameData.selectedArmor,
                                           View(State(), scene), HitParams(isCritical, at), draws.hit);
      ApplyEffects(effects, now, draws, scene);
    }

    /** The part of a hit before the hooks: the drawn boxes are credited at the critical
        multiplier, their tier of sprites is shown when boxes are worth anything, and a
        flash marks the spot. */
    method Strike(at: Vec, count: int, isCritical: bool, draws: Draws)
      requires store.Valid()
      modifies store, particles
      ensures State() == StrikeRule(old(State()), at, count, isCritical, draws) && store.Valid()
    {
      ghost var w := State();
      var d := store.Derived();
      var multiplier := if isCritical then d.criticalMultiplier else 1.0;
      store.AddBoxes(count, multiplier);
      assert State() == w.(data := StoreRules.AddBoxes(w.data, w.bonus, count, multiplier));
      var bps := BoxesPerSecond(d);
      ShowHit(at, TierCount(bps, count), isCritical, store.Derived().boxPrice > 0.0,
              HitBoxStyle(isCritical, draws.log2(d.boxPrice + 1.0), bps), draws.launch);
    }

    /** The boxes a hit shows, when `show`, then the hit flash. */
    method ShowHit(at: Vec, shown: int, isCritical: bool, show: bool, style: BoxStyle, launch: nat -> Vec)
      modifies particles
      ensures particles.items == old(particles.items)
        + (if show then Boxes(at, if shown < 0 then 0 else shown, style, launch) else []) + [HitFlash(at, isCritical)]
    {
      if show {
        SpawnBoxes(at, shown, style, launch);
      }
      particles.AddParticle(HitFlash(at, isCritical));
    }

    /** `handleMouseMove`, with the two distances it measures passed in: the pointer's
        distance to Glupo's centre and the length of its move. */
    method HandleMouseMove(distance: real, glupoSize: real, mouseSpeed: real, now: real,
                           uCount: Unit, uCrit: Unit, uHurt: Unit, draws: Draws, scene: Scene)
      returns (outcome: Option<HitOutcome>)
      requires Valid()
      modifies this, store, particles, instances
      ensures !HitAllowed(distance, glupoSize, mouseSpeed, now - old(lastHitTimestamp), Derived(old(State())).realCooldown) ==>
        outcome.None? && State() == old(State()) && lastHitTimestamp == old(lastHitTimestamp)
      ensures HitAllowed(distance, glupoSize, mouseSpeed, now - old(lastHitTimestamp), Derived(old(State())).realCooldown) ==>
        (outcome.Some? <==> !old(sanityState.isPanic))
        && (!old(sanityState.isPanic) ==> State() == HitRule(old(State()), scene.mouse, uCount, uCrit, now, draws, scene) && lastHitTimestamp == now)
      ensures lastTimestamp == old(lastTimestamp) && nextIdleSoundTimestamp == old(nextIdleSoundTimestamp)
      ensures Valid()
    {
      var cooldown := store.Derived().realCooldown;
      if HitAllowed(distance, glupoSize, mouseSpeed, now - lastHitTimestamp, cooldown) {
        outcome := HandleHit(scene.mouse, now, uCount, uCrit, uHurt, draws, scene);
      } else {
        outcome := None;
      }
    }

    /** `playIdleSound` at time `now`; says whether the idle cue plays. */
    method PlayIdleSound(now: real, u1: Unit, u2: Unit) returns (plays: bool)
      modifies this
      ensures IdleOutcome(nextIdleSoundTimestamp, plays) == IdleStep(now, old(lastHitTimestamp), old(nextIdleSoundTimestamp), u1, u2)
      ensures State() == old(State())
      ensures lastTimestamp == old(lastTimestamp) && lastHitTimestamp == old(lastHitTimestamp)
    {
      if now < lastHitTimestamp + IdleQuiet {
        nextIdleSoundTimestamp := None;
        return false;
      }
      if nextIdleSoundTimestamp.None? {
        nextIdleSoundTimestamp := Some(now + Utils.Scaled(u1, 5000.0) + 5000.0);
      }
      if now < nextIdleSoundTimestamp.value {
        return false;
      }
      nextIdleSoundTimestamp := Some(now + Utils.Scaled(u2, 5000.0) + 5000.0);
      plays := true;
    }

    /** The timer at `i` fires (the host drops it as it runs it). */
    method FireTimer(i: nat, now: real, draws: Draws, scene: Scene)
      requires Valid() && i < |timers|
      modifies this, store, particles, instances
      ensures State() == FireRule(old(State()), i, now, draws, scene)
      ensures lastTimestamp == old(lastTimestamp) && lastHitTimestamp == old(lastHitTimestamp)
      ensures nextIdleSoundTimestamp == old(nextIdleSoundTimestamp)
      ensures Valid()
    {
      ghost var w := State();
      match timers[i].action {
        case Regenerate(target) =>
          timers := Fired(timers, i);
          sanityState := sanityState.(current := target);
        case BonusReversal(rev) =>
          timers := Fired(timers, i);
          store.AddBonusStats(rev);
        case PanicStep =>
          RunPanicStep(i, now, draws, scene);
      }
      assert State() == FireRule(w, i, now, draws, scene);
      assert lastTimestamp == old(lastTimestamp) && lastHitTimestamp == old(lastHitTimestamp);
      assert nextIdleSoundTimestamp == old(nextIdleSoundTimestamp);
      FireKeepsValid(w, i, now, draws, scene);
    }

    /** A panic step: sanity rises by one; at the current maxSanity the panic ends and the
        panic-end hooks run, otherwise the next step is scheduled. */
    method RunPanicStep(i: nat, now: real, draws: Draws, scene: Scene)
      requires store.Valid() && i < |timers| && timers[i].action.PanicStep?
      modifies this, store, particles, instances
      ensures State() == FireRule(old(State()), i, now, draws, scene) && store.Valid()
      ensures lastTimestamp == old(lastTimestamp) && lastHitTimestamp == old(lastHitTimestamp)
      ensures nextIdleSoundTimestamp == old(nextIdleSoundTimestamp)
    {
      var d := store.Derived();
      var ended := StepPanic(i, now, d.maxSanity, d.panicRestoreDelay);
      if ended {
        var effects := StoreRules.ProcessPanicEnd(store.gameData.selectedWeapon, store.gameData.selectedArmor, View(State(), scene), draws.panic);
        ApplyEffects(effects, now, draws, scene);
      }
    }

    /** The clock part of a panic step, with `target` the maxSanity and `delay` the
        panicRestoreDelay of now; `ended` tells whether the panic is over. */
    method StepPanic(i: nat, now: real, target: int, delay: real) returns (ended: bool)
      requires i < |timers|
      modifies this
      ensures Clock(sanityState, timers, nextTimerId) == PanicStepRule(Clock(old(sanityState), old(timers), old(nextTimerId)), i, target, delay, now)
      ensures ended <==> old(sanityState).current + 1 >= target
      ensures lastTimestamp == old(lastTimestamp) && lastHitTimestamp == old(lastHitTimestamp)
      ensures nextIdleSoundTimestamp == old(nextIdleSoundTimestamp)
    {
      timers := Fired(timers, i);
      sanityState := sanityState.(current := sanityState.current + 1);
      ended := sanityState.current >= target;
      if ended {
        sanityState := SanityState(target, false, None);
      } else {
        var _ := Schedule(now + delay, PanicStep);
      }
    }

    /** The destroy callback of the particle `q`, just taken out of the list. */
    method RunDestroy(q: Particle, reason: Option<Reason>, now: real, draws: Draws, scene: Scene)
      requires store.Valid()
      modifies this, store, particles, instances
      ensures State() == DestroyRule(old(State()), q, reason, now, draws, scene) && store.Valid()
      ensures lastTimestamp == old(lastTimestamp) && lastHitTimestamp == old(lastHitTimestamp)
      ensures nextIdleSoundTimestamp == old(nextIdleSoundTimestamp)
    {
      match q.onDestroy
      case NoAction =>
      case BoxPickup =>
      case SpiderGone =>
        instances.spiderCount := instances.spiderCount - 1;
        store.AddBonusStats(Stats(0, 0, -1, 0));
      case FireBullet(from) =>
        var view := View(State(), scene);
        var seventh := MagicBulletWeapon.IsSeventh(instances.bulletsFired);
        particles.AddParticle(MagicBulletWeapon.Bullet(from, MagicBulletWeapon.Target(view), seventh));
        instances.bulletsFired := instances.bulletsFired + 1;
      case BulletLands(seventh) =>
        var es := MagicBulletWeapon.OnBulletDestroyed(seventh, reason, Vec(q.x, q.y), View(State(), scene), draws.landing);
        ApplyEffects(es, now, draws, scene);
    }

    /** The particle loop of one frame (`particles.draw`). */
    method DrawParticles(f: FrameView, now: real, draws: Draws, scene: Scene)
      requires Valid()
      modifies this, store, particles, instances
      ensures State() == FrameFrom(old(State()), 0, f, now, draws, scene)
      ensures lastTimestamp == old(lastTimestamp) && lastHitTimestamp == old(lastHitTimestamp)
      ensures nextIdleSoundTimestamp == old(nextIdleSoundTimestamp)
      ensures Valid()
    {
      FrameKeepsValid(State(), 0, f, now, draws, scene);
      var i: nat := 0;
      while i < |particles.items|
        invariant FrameFrom(State(), i, f, now, draws, scene) == FrameFrom(old(State()), 0, f, now, draws, scene)
        invariant store.Valid()
        invariant lastTimestamp == old(lastTimestamp) && lastHitTimestamp == old(lastHitTimestamp)
        invariant nextIdleSoundTimestamp == old(nextIdleSoundTimestamp)
        decreases TotalWeight(particles.items[Min(i, |particles.items|)..])
      {
        i := StepParticle(i, f, now, draws, scene);
      }
    }

    /** One turn of the particle loop at index `i`: the particle moves and is written
        back, or it is taken out and its callback runs; returns the index visited next. */
    method StepParticle(i: nat, f: FrameView, now: real, draws: Draws, scene: Scene) returns (next: nat)
      requires store.Valid() && i < |particles.items|
      modifies this, store, particles, instances
      ensures Turn(State(), next) == FrameTurn(old(State()), i, f, now, draws, scene)
      ensures store.Valid()
      ensures lastTimestamp == old(lastTimestamp) && lastHitTimestamp == old(lastHitTimestamp)
      ensures nextIdleSoundTimestamp == old(nextIdleSoundTimestamp)
    {
      var p := particles.items[i];
      match Step(p, f)
      case Kept(q) =>
        particles.Update(i, q);
        next := i + 1;
      case Removed(q, reason, revisit) =>
        particles.RemoveAt(i);
        RunDestroy(q, reason, now, draws, scene);
        next := if revisit then i else i + 1;
    }

    /** `drawFrame` at `timestamp`, `now` being the wall clock the idle cue reads: nothing
        while the store loads; otherwise the first frame has no elapsed time, the
        particles run with the elapsed time, the idle cue is decided, and the timestamp
        is kept. */
    method DrawFrame(timestamp: real, now: real, loading: bool, f: FrameView, u1: Unit, u2: Unit, draws: Draws, scene: Scene)
      returns (idleCue: bool)
      requires Valid()
      modifies this, store, particles, instances
      ensures loading ==> !idleCue && State() == old(State()) && lastTimestamp == old(lastTimestamp)
                          && nextIdleSoundTimestamp == old(nextIdleSoundTimestamp)
      ensures !loading ==>
        State() == FrameFrom(old(State()), 0, Elapsed(f, old(lastTimestamp), timestamp), now, draws, scene)
        && lastTimestamp == timestamp
        && IdleOutcome(nextIdleSoundTimestamp, idleCue) == IdleStep(now, old(lastHitTimestamp), old(nextIdleSoundTimestamp), u1, u2)
      ensures lastHitTimestamp == old(lastHitTimestamp)
      ensures Valid()
    {
      if loading {
        return false;
      }
      idleCue := RunFrame(Elapsed(f, lastTimestamp, timestamp), timestamp, now, u1, u2, draws, scene);
    }

    /** The frame as the particles see it: the time elapsed since the last frame, none
        on the first frame (no timestamp recorded yet). */
    static function Elapsed(f: FrameView, lastTimestamp: real, timestamp: real): (r: FrameView)
      ensures r.deltaTime == if lastTimestamp == 0.0 then 0.0 else timestamp - lastTimestamp
      ensures r == f.(deltaTime := r.deltaTime)
    {
      f.(deltaTime := timestamp - (if lastTimestamp == 0.0 then timestamp else lastTimestamp))
    }

    /** A frame past the loading test, `frame` carrying the elapsed time: the particles
        run, the idle cue is decided, and the timestamp is kept. */
    method RunFrame(frame: FrameView, timestamp: real, now: real, u1: Unit, u2: Unit, draws: Draws, scene: Scene)
      returns (idleCue: bool)
      requires Valid()
      modifies this, store, particles, instances
      ensures State() == FrameFrom(old(State()), 0, frame, now, draws, scene)
      ensures lastTimestamp == timestamp && lastHitTimestamp == old(lastHitTimestamp)
      ensures IdleOutcome(nextIdleSoundTimestamp, idleCue) == IdleStep(now, old(lastHitTimestamp), old(nextIdleSoundTimestamp), u1, u2)
      ensures Valid()
    {
      DrawParticles(frame, now, draws, scene);
      idleCue := PlayIdleSound(now, u1, u2);
      lastTimestamp := timestamp;
    }
  }
}
