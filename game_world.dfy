/** The state the reward game's Game object (src/stores/glupo/game/game.ts) works on, as
    one value: the store's save record and bonus, sanity with its timers, the shared
    weapon counters and the particle list. Each thing the game does — an item hook's call,
    a timer firing, a particle's destroy callback, a hit, one frame of the particle loop —
    is a function from the old value to the new one. `Game.Game` (game.dfy) changes its
    objects in place and is proved to follow these functions. */
module GameWorld {
  import opened Types
  import opened Particles
  import opened Hooks
  import opened GameRules
  import opened Sanity
  import Utils
  import Economy
  import ConfigV2
  import Weapons
  import Armors
  import StoreRules
  import RedEyesWeapon
  import MagicBulletWeapon
  import PenitenceWeapon
  import HarvestWeapon
  import HeavenWeapon
  import GoldRushWeapon
  import SmileWeapon
  import TwilightWeapon
  import PenitenceArmor
  import TwilightArmor

  /** What the game reads of the scene at an event: Glupo's centre, the mouse and the
      weapon sprite's angle. */
  datatype Scene = Scene(glupoCenter: Vec, mouse: Vec, weaponAngle: real)

  /** The host's draws for one event: those the hit hooks, the panic hooks and a bullet's
      landing consume, the launch velocity of the `i`-th box of a spawn (a random
      direction times a random speed of 8 to 23, lifted by 10), and `Math.log2`. */
  datatype Draws = Draws(hit: HookDraws, panic: HookDraws, landing: HookDraws, launch: nat -> Vec, log2: real -> real)

  datatype World = World(
    data: ConfigV2.GameData,   // the store's save record
    bonus: Stats,              // the store's temporary bonus
    clock: Clock,              // sanity and the pending timers
    spiderCount: int,          // the Red Eyes instance's live spiders
    bulletsFired: nat,         // the Magic Bullet instance's shots
    items: seq<Particle>)      // the particle list

  /** `store.stats`. */
  function Derived(w: World): Economy.Derived
  {
    Economy.Derive(w.data, w.bonus)
  }

  /** What the item hooks read. */
  function View(w: World, scene: Scene): HookView
  {
    var d := Derived(w);
    HookView(w.clock.sanity.current, d.maxSanity, Economy.PlayerStats(w.data, w.bonus), d.minBoxes, d.maxBoxes,
             scene.weaponAngle, w.spiderCount, w.bulletsFired, scene.glupoCenter, scene.mouse)
  }

  /** The bonus bookkeeping, with `detached` spiders taken out of the list and their
      callbacks still to run: each spider is counted once, and the temporary bonus is what
      the pending reversals will take back plus one temperance per spider. */
  predicate Accounted(w: World, detached: nat)
  {
    w.spiderCount == Spiders(w.items) + detached
    && w.bonus == PendingBonus(w.clock.timers).Plus(SpiderBonuses(w.spiderCount))
  }

  /** The store's invariant on the save record. */
  predicate SaveValid(d: ConfigV2.GameData)
  {
    ConfigV2.Consistent(d) && Economy.WithinCap(d.balance, d.riskLevel)
  }

  /** The game's invariant. */
  predicate WorldValid(w: World)
  {
    SaveValid(w.data) && ClockValid(w.clock) && Accounted(w, 0)
  }

  /** With no reversal pending and no spider alive the bonus is exactly zero: temporary
      bonuses leave no trace. */
  lemma BonusLeavesNoTrace(w: World)
    requires Accounted(w, 0)
    requires forall t :: t in w.clock.timers ==> !t.action.BonusReversal?
    requires Spiders(w.items) == 0
    ensures w.bonus == Zero
  {
    NothingHeld(w.clock.timers);
    assert Spiders([]) == 0;
    assert SpiderBonuses(w.spiderCount) == Zero;
    PlusZero(Zero);
  }

  /** A new game over a valid save record, with no bonus, sanity 100, no timer, no
      spider and no particle, is valid. */
  lemma InitialWorldValid(data: ConfigV2.GameData, bulletsFired: nat)
    requires SaveValid(data)
    ensures WorldValid(World(data, Zero, Initial, 0, bulletsFired, []))
  {
    InitialIsValid();
    EmptyAccounted(World(data, Zero, Initial, 0, bulletsFired, []));
  }

  lemma EmptyAccounted(w: World)
    requires w.bonus == Zero && w.clock.timers == [] && w.spiderCount == 0 && w.items == []
    ensures Accounted(w, 0)
  {
    assert w.spiderCount == Spiders(w.items);
    NoBonusAccounted(w.clock.timers, w.spiderCount, w.bonus);
  }

  lemma NoBonusAccounted(timers: seq<Timer>, n: int, bonus: Stats)
    requires timers == [] && n == 0 && bonus == Zero
    ensures bonus == PendingBonus(timers).Plus(SpiderBonuses(n))
  {
    PlusZero(PendingBonus(timers));
  }

  /** Resetting sanity without panic or regeneration keeps the invariant when no timer is
      pending. */
  lemma ResetKeepsValid(w: World, v: int)
    requires WorldValid(w) && w.clock.timers == []
    ensures WorldValid(w.(clock := w.clock.(sanity := SanityState(v, false, None))))
  {
    var c := w.clock.(sanity := SanityState(v, false, None));
    assert CountOf(c.timers, IsRegenerate) == 0 && CountOf(c.timers, IsPanicStep) == 0;
  }

  lemma {:induction false} NothingHeld(timers: seq<Timer>)
    requires forall t :: t in timers ==> !t.action.BonusReversal?
    ensures PendingBonus(timers) == Zero
  {
    if |timers| > 0 {
      assert timers[0] in timers;
      assert forall t :: t in timers[1..] ==> t in timers;
      NothingHeld(timers[1..]);
    }
  }

  // ---------------------------------------------------------------------------
  // The calls item hooks make

  /** What the panic hooks do, as they see the game: sanity already set to 0. */
  function PanicEffects(w: World, scene: Scene, draws: HookDraws): seq<Effect>
  {
    StoreRules.ProcessPanic(w.data.selectedWeapon, w.data.selectedArmor, View(w, scene).(current := 0), draws)
  }

  /** The particles one call appends. */
  function Added(e: Effect, launch: nat -> Vec): (s: seq<Particle>)
    ensures TotalWeight(s) == EffectWeight(e)
  {
    match e
    case SpawnBoxes(at, n, style) => Boxes(at, if n < 0 then 0 else n, style, launch)
    case SpawnSpider(at) => SingleWeight(RedEyesWeapon.Spider(at)); [RedEyesWeapon.Spider(at)]
    case AddParticle(p) => SingleWeight(p); [p]
    case _ => []
  }

  lemma SingleWeight(p: Particle)
    ensures TotalWeight([p]) == Weight(p)
  {
    assert [p][1..] == [];
  }

  /** One call of an item hook: `changeSanity` (whose panic hooks see `draws.panic`),
      `addBalance`, `addBoxes`, `spawnBoxes` (boxes launched by `draws.launch`), a Red
      Eyes spider (one more spider, +1 temperance, the spider particle), `addParticle`, a
      direct write of sanity, or a temporary bonus (granted now, its reversal scheduled). */
  function EffectRule(w: World, e: Effect, now: real, draws: Draws, scene: Scene): (r: World)
    ensures r.items == w.items + Added(e, draws.launch)
  {
    match e
    case ChangeSanity(a) => w.(clock := ChangeSanityRule(w.clock, a, now, Derived(w), PanicEffects(w, scene, draws.panic)))
    case AddBalance(a) => w.(data := StoreRules.AddBalance(w.data, a))
    case AddBoxes(n, m) => w.(data := StoreRules.AddBoxes(w.data, w.bonus, n, m))
    case SpawnBoxes(at, n, style) => w.(items := w.items + Boxes(at, if n < 0 then 0 else n, style, draws.launch))
    case SpawnSpider(at) =>
      w.(spiderCount := w.spiderCount + 1, bonus := w.bonus.Plus(RedEyesWeapon.SpiderBonus),
         items := w.items + [RedEyesWeapon.Spider(at)])
    case AddParticle(p) => w.(items := w.items + [p])
    case SetSanity(v) => w.(clock := w.clock.(sanity := w.clock.sanity.(current := v)))
    case TemporaryBonus(delta, delay) => w.(bonus := w.bonus.Plus(delta), clock := GrantRule(w.clock, delta, delay, now))
  }

  /** A call that does not slip in a spider's particle without its count and bonus. */
  predicate NoStraySpider(e: Effect)
  {
    e.AddParticle? ==> e.particle.onDestroy != SpiderGone
  }

  /** Every call keeps the invariant. */
  lemma EffectKeepsValid(w: World, e: Effect, now: real, draws: Draws, scene: Scene)
    requires WorldValid(w) && NoStraySpider(e)
    ensures WorldValid(EffectRule(w, e, now, draws, scene))
  {
    match e
    case ChangeSanity(a) => SanityEffectKeepsValid(w, a, now, draws, scene);
    case SpawnBoxes(at, n, style) => ParticleEffectKeepsValid(w, e, now, draws, scene);
    case AddParticle(q) => ParticleEffectKeepsValid(w, e, now, draws, scene);
    case SpawnSpider(at) => SpiderEffectKeepsValid(w, at, now, draws, scene);
    case TemporaryBonus(delta, delay) => BonusEffectKeepsValid(w, delta, delay, now, draws, scene);
    case AddBalance(_) => PlainEffectKeepsValid(w, e, now, draws, scene);
    case AddBoxes(_, _) => PlainEffectKeepsValid(w, e, now, draws, scene);
    case SetSanity(_) => PlainEffectKeepsValid(w, e, now, draws, scene);
  }

  lemma SanityEffectKeepsValid(w: World, a: int, now: real, draws: Draws, scene: Scene)
    requires WorldValid(w)
    ensures WorldValid(EffectRule(w, ChangeSanity(a), now, draws, scene))
  {
    ChangeSanityKeepsClock(w.clock, a, now, Derived(w), PanicEffects(w, scene, draws.panic));
  }

  lemma PlainEffectKeepsValid(w: World, e: Effect, now: real, draws: Draws, scene: Scene)
    requires WorldValid(w) && (e.AddBalance? || e.AddBoxes? || e.SetSanity?)
    ensures WorldValid(EffectRule(w, e, now, draws, scene))
  {
    var r := EffectRule(w, e, now, draws, scene);
    assert r.items == w.items && r.spiderCount == w.spiderCount && r.bonus == w.bonus && r.clock.timers == w.clock.timers;
  }

  lemma ParticleEffectKeepsValid(w: World, e: Effect, now: real, draws: Draws, scene: Scene)
    requires WorldValid(w) && (e.SpawnBoxes? || e.AddParticle?) && NoStraySpider(e)
    ensures WorldValid(EffectRule(w, e, now, draws, scene))
  {
    var added := Added(e, draws.launch);
    SpidersAppend(w.items, added);
    if e.SpawnBoxes? {
      NoSpiderBoxes(e.at, if e.count < 0 then 0 else e.count, e.style, draws.launch);
    } else {
      SpidersOne(e.particle);
    }
  }

  lemma SpiderEffectKeepsValid(w: World, at: Vec, now: real, draws: Draws, scene: Scene)
    requires WorldValid(w)
    ensures WorldValid(EffectRule(w, SpawnSpider(at), now, draws, scene))
  {
    var r := EffectRule(w, SpawnSpider(at), now, draws, scene);
    SpidersAppend(w.items, [RedEyesWeapon.Spider(at)]);
    SpidersOne(RedEyesWeapon.Spider(at));
    SpiderAccounted(w, r, 1);
  }

  /** A change of the spider count by `d`, with the bonus moved by `d` temperance and
      nothing pending changed, keeps the bonus accounted for. */
  lemma SpiderAccounted(w: World, r: World, d: int)
    requires w.bonus == PendingBonus(w.clock.timers).Plus(SpiderBonuses(w.spiderCount))
    requires r.clock.timers == w.clock.timers && r.spiderCount == w.spiderCount + d
    requires r.bonus == w.bonus.Plus(Stats(0, 0, d, 0))
    ensures r.bonus == PendingBonus(r.clock.timers).Plus(SpiderBonuses(r.spiderCount))
  {
    BonusShift(PendingBonus(w.clock.timers), w.spiderCount, d);
  }

  /** One spider more or fewer moves the spider part of the bonus by one temperance. */
  lemma BonusShift(pending: Stats, n: int, d: int)
    ensures pending.Plus(SpiderBonuses(n)).Plus(Stats(0, 0, d, 0)) == pending.Plus(SpiderBonuses(n + d))
  {
  }

  lemma BonusEffectKeepsValid(w: World, delta: Stats, delay: real, now: real, draws: Draws, scene: Scene)
    requires WorldValid(w)
    ensures WorldValid(EffectRule(w, TemporaryBonus(delta, delay), now, draws, scene))
  {
    GrantOutcome(w.clock, delta, delay, now);
    Regroup(PendingBonus(w.clock.timers), SpiderBonuses(w.spiderCount), delta);
  }

  /** Several calls, in order. */
  function EffectsRule(w: World, es: seq<Effect>, now: real, draws: Draws, scene: Scene): (r: World)
    ensures r.items == w.items + AddedAll(es, draws.launch)
    decreases |es|
  {
    if |es| == 0 then w
    else EffectRule(EffectsRule(w, es[..|es| - 1], now, draws, scene), es[|es| - 1], now, draws, scene)
  }

  /** Running one call more is running the prefix, then that call. */
  lemma EffectsStep(w: World, es: seq<Effect>, i: nat, now: real, draws: Draws, scene: Scene)
    requires i < |es|
    ensures EffectsRule(w, es[..i + 1], now, draws, scene) == EffectRule(EffectsRule(w, es[..i], now, draws, scene), es[i], now, draws, scene)
  {
    assert es[..i + 1][..i] == es[..i];
  }

  function AddedAll(es: seq<Effect>, launch: nat -> Vec): (s: seq<Particle>)
    decreases |es|
  {
    if |es| == 0 then [] else AddedAll(es[..|es| - 1], launch) + Added(es[|es| - 1], launch)
  }

  /** What several calls append weighs what they weigh. */
  lemma {:induction false} AddedAllWeight(es: seq<Effect>, launch: nat -> Vec)
    ensures TotalWeight(AddedAll(es, launch)) == EffectsWeight(es)
    decreases |es|
  {
    if |es| > 0 {
      var init, last := es[..|es| - 1], es[|es| - 1];
      AddedAllWeight(init, launch);
      TotalWeightAppend(AddedAll(init, launch), Added(last, launch));
      assert init + [last] == es;
      EffectsWeightSnoc(init, last);
    }
  }

  predicate NoStraySpiders(es: seq<Effect>)
  {
    forall i :: 0 <= i < |es| ==> NoStraySpider(es[i])
  }

  /** Several calls keep the invariant. */
  lemma {:induction false} EffectsKeepValid(w: World, es: seq<Effect>, now: real, draws: Draws, scene: Scene)
    requires WorldValid(w) && NoStraySpiders(es)
    ensures WorldValid(EffectsRule(w, es, now, draws, scene))
    decreases |es|
  {
    if |es| > 0 {
      var init := es[..|es| - 1];
      assert NoStraySpiders(init) by {
        forall i | 0 <= i < |init| ensures NoStraySpider(init[i]) {
          assert init[i] == es[i];
        }
      }
      EffectsKeepValid(w, init, now, draws, scene);
      EffectKeepsValid(EffectsRule(w, init, now, draws, scene), es[|es| - 1], now, draws, scene);
    }
  }

  /** No item hook adds a spider's particle directly: spiders only come with their count
      and bonus. */
  lemma HitHooksAddNoStraySpider(w: Weapons.WeaponId, a: Armors.ArmorId, view: HookView, hit: HitParams, hd: HookDraws)
    ensures NoStraySpiders(StoreRules.ProcessHit(w, a, view, hit, hd))
  {
    var es := StoreRules.ProcessHit(w, a, view, hit, hd);
    if w == Weapons.MagicBullet {
      assert es == MagicBulletWeapon.OnHit(view, hit, hd);
    } else {
      HitHooksAddNoParticle(w, a, view, hit, hd);
    }
  }

  /** Apart from the magic bullet's, the hit hooks add no particle at all. */
  lemma HitHooksAddNoParticle(w: Weapons.WeaponId, a: Armors.ArmorId, view: HookView, hit: HitParams, hd: HookDraws)
    requires w != Weapons.MagicBullet
    ensures var es := StoreRules.ProcessHit(w, a, view, hit, hd); forall i :: 0 <= i < |es| ==> !es[i].AddParticle?
  {
    match w
    case Penitence => assert StoreRules.ProcessHit(w, a, view, hit, hd) == PenitenceWeapon.OnHit(view, hit, hd);
    case RedEyes => assert StoreRules.ProcessHit(w, a, view, hit, hd) == RedEyesWeapon.OnHit(view, hit, hd);
    case Harvest => assert StoreRules.ProcessHit(w, a, view, hit, hd) == HarvestWeapon.OnHit(view, hit, hd);
    case Heaven => assert StoreRules.ProcessHit(w, a, view, hit, hd) == HeavenWeapon.OnHit(view, hit, hd);
    case GoldRush => assert StoreRules.ProcessHit(w, a, view, hit, hd) == GoldRushWeapon.OnHit(view, hit, hd);
    case Smile => assert StoreRules.ProcessHit(w, a, view, hit, hd) == SmileWeapon.OnHit(view, hit, hd);
    case Twilight => assert StoreRules.ProcessHit(w, a, view, hit, hd) == TwilightWeapon.OnHit(view, hit, hd);
  }

  /** The panic-end hooks and a bullet's landing add no particle at all. */
  lemma OtherHooksAddNoStraySpider(w: Weapons.WeaponId, a: Armors.ArmorId, view: HookView, hd: HookDraws, seventh: bool, reason: Option<Reason>, at: Vec)
    ensures NoStraySpiders(StoreRules.ProcessPanicEnd(w, a, view, hd))
    ensures NoStraySpiders(MagicBulletWeapon.OnBulletDestroyed(seventh, reason, at, view, hd))
  {
    var lands := MagicBulletWeapon.OnBulletDestroyed(seventh, reason, at, view, hd);
    assert forall i :: 0 <= i < |lands| ==> !lands[i].AddParticle?;
  }

  // ---------------------------------------------------------------------------
  // Timers

  /** The timer at `i` fires. A regeneration writes its sanity; a reversal gives its
      stats back to the bonus; a panic step moves sanity towards the maxSanity of now and,
      when that ends the panic, runs the panic-end hooks on the new state. */
  function FireRule(w: World, i: nat, now: real, draws: Draws, scene: Scene): (r: World)
    requires i < |w.clock.timers|
  {
    match w.clock.timers[i].action
    case Regenerate(_) => w.(clock := RegenerateRule(w.clock, i))
    case BonusReversal(rev) => w.(clock := ReversalRule(w.clock, i), bonus := w.bonus.Plus(rev))
    case PanicStep =>
      var d := Derived(w);
      var w1 := w.(clock := PanicStepRule(w.clock, i, d.maxSanity, d.panicRestoreDelay, now));
      if w.clock.sanity.current + 1 < d.maxSanity then w1
      else EffectsRule(w1, StoreRules.ProcessPanicEnd(w1.data.selectedWeapon, w1.data.selectedArmor, View(w1, scene), draws.panic), now, draws, scene)
  }

  /** Firing a timer keeps the invariant. */
  lemma FireKeepsValid(w: World, i: nat, now: real, draws: Draws, scene: Scene)
    requires WorldValid(w) && i < |w.clock.timers|
    ensures WorldValid(FireRule(w, i, now, draws, scene))
  {
    match w.clock.timers[i].action
    case Regenerate(_) =>
      RegenerateOutcome(w.clock, i);
    case BonusReversal(rev) =>
      ReversalOutcome(w.clock, i);
      Regroup(PendingBonus(w.clock.timers), SpiderBonuses(w.spiderCount), rev);
    case PanicStep =>
      PanicFireKeepsValid(w, i, now, draws, scene);
  }

  lemma PanicFireKeepsValid(w: World, i: nat, now: real, draws: Draws, scene: Scene)
    requires WorldValid(w) && i < |w.clock.timers| && w.clock.timers[i].action.PanicStep?
    ensures WorldValid(FireRule(w, i, now, draws, scene))
  {
    var d := Derived(w);
    PanicStepOutcome(w.clock, i, d.maxSanity, d.panicRestoreDelay, now);
    var w1 := w.(clock := PanicStepRule(w.clock, i, d.maxSanity, d.panicRestoreDelay, now));
    assert WorldValid(w1);
    if w.clock.sanity.current + 1 >= d.maxSanity {
      OtherHooksAddNoStraySpider(w1.data.selectedWeapon, w1.data.selectedArmor, View(w1, scene), draws.panic, false, None, scene.mouse);
      EffectsKeepValid(w1, StoreRules.ProcessPanicEnd(w1.data.selectedWeapon, w1.data.selectedArmor, View(w1, scene), draws.panic), now, draws, scene);
    }
  }

  // ---------------------------------------------------------------------------
  // Destroy callbacks

  /** What a removed particle's callback does, given the particle as removed and the
      reason. A box and the hit flash change no state (the box plays its cue). A spider
      takes its count and its temperance back. A magic circle fires a bullet from where
      it appeared, at the mouse if it is a seventh one and at Glupo otherwise, and counts
      it. A bullet runs its landing. */
  function DestroyRule(w: World, q: Particle, reason: Option<Reason>, now: real, draws: Draws, scene: Scene): (r: World)
  {
    match q.onDestroy
    case NoAction => w
    case BoxPickup => w
    case SpiderGone => w.(spiderCount := w.spiderCount - 1, bonus := w.bonus.Plus(Stats(0, 0, -1, 0)))
    case FireBullet(from) =>
      var view := View(w, scene);
      w.(items := w.items + [MagicBulletWeapon.Bullet(from, MagicBulletWeapon.Target(view), MagicBulletWeapon.IsSeventh(w.bulletsFired))],
         bulletsFired := w.bulletsFired + 1)
    case BulletLands(seventh) =>
      EffectsRule(w, MagicBulletWeapon.OnBulletDestroyed(seventh, reason, Vec(q.x, q.y), View(w, scene), draws.landing), now, draws, scene)
  }

  /** A bullet's landing adds at most seven boxes' weight. */
  lemma LandingWeight(seventh: bool, reason: Option<Reason>, at: Vec, view: HookView, hd: HookDraws)
    ensures EffectsWeight(MagicBulletWeapon.OnBulletDestroyed(seventh, reason, at, view, hd)) <= 7
  {
    var es := MagicBulletWeapon.OnBulletDestroyed(seventh, reason, at, view, hd);
    if !seventh && (reason == Some(HitOn(Glupo)) || reason == Some(Default)) {
      var tail := es[1..];
      assert tail[1..] == [];
      assert EffectsWeight(tail) == EffectWeight(tail[0]);
      assert tail[0].SpawnBoxes? && tail[0].count <= 7;
      assert EffectWeight(es[0]) == 0;
    } else if |es| == 1 {
      assert es[1..] == [];
    }
  }

  /** A callback only appends, and what it appends weighs less than the particle that
      ran it: the frame loop comes to an end. */
  lemma DestroyAppendsLess(w: World, q: Particle, reason: Option<Reason>, now: real, draws: Draws, scene: Scene)
    ensures var r := DestroyRule(w, q, reason, now, draws, scene);
      |w.items| <= |r.items| && r.items[..|w.items|] == w.items
      && TotalWeight(r.items[|w.items|..]) < Weight(q)
  {
    var r := DestroyRule(w, q, reason, now, draws, scene);
    match q.onDestroy
    case NoAction => assert r.items[|w.items|..] == [];
    case BoxPickup => assert r.items[|w.items|..] == [];
    case SpiderGone => assert r.items[|w.items|..] == [];
    case FireBullet(from) =>
      var b := r.items[|w.items|];
      assert r.items[|w.items|..] == [b];
      SingleWeight(b);
    case BulletLands(seventh) =>
      var es := MagicBulletWeapon.OnBulletDestroyed(seventh, reason, Vec(q.x, q.y), View(w, scene), draws.landing);
      assert r.items[|w.items|..] == AddedAll(es, draws.launch);
      AddedAllWeight(es, draws.launch);
      LandingWeight(seventh, reason, Vec(q.x, q.y), View(w, scene), draws.landing);
  }

  /** A callback run on a particle just taken out of the list restores the invariant. */
  lemma DestroyKeepsValid(w: World, q: Particle, reason: Option<Reason>, now: real, draws: Draws, scene: Scene)
    requires SaveValid(w.data) && ClockValid(w.clock) && Accounted(w, Spiders([q]))
    ensures WorldValid(DestroyRule(w, q, reason, now, draws, scene))
  {
    SpidersOne(q);
    match q.onDestroy
    case NoAction =>
    case BoxPickup =>
    case SpiderGone =>
      SpiderGoneKeepsValid(w, q, reason, now, draws, scene);
    case FireBullet(from) =>
      FireBulletKeepsValid(w, q, reason, now, draws, scene);
    case BulletLands(seventh) =>
      LandingKeepsValid(w, q, reason, now, draws, scene);
  }

  lemma SpiderGoneKeepsValid(w: World, q: Particle, reason: Option<Reason>, now: real, draws: Draws, scene: Scene)
    requires SaveValid(w.data) && ClockValid(w.clock) && Accounted(w, Spiders([q])) && q.onDestroy.SpiderGone?
    ensures WorldValid(DestroyRule(w, q, reason, now, draws, scene))
  {
    var r := DestroyRule(w, q, reason, now, draws, scene);
    SpidersOne(q);
    SpiderAccounted(w, r, -1);
  }

  lemma FireBulletKeepsValid(w: World, q: Particle, reason: Option<Reason>, now: real, draws: Draws, scene: Scene)
    requires WorldValid(w) && q.onDestroy.FireBullet?
    ensures WorldValid(DestroyRule(w, q, reason, now, draws, scene))
  {
    var b := DestroyRule(w, q, reason, now, draws, scene).items[|w.items|];
    SpidersAppend(w.items, [b]);
    SpidersOne(b);
  }

  lemma LandingKeepsValid(w: World, q: Particle, reason: Option<Reason>, now: real, draws: Draws, scene: Scene)
    requires WorldValid(w) && q.onDestroy.BulletLands?
    ensures WorldValid(DestroyRule(w, q, reason, now, draws, scene))
  {
    var seventh := q.onDestroy.isSeventh;
    OtherHooksAddNoStraySpider(w.data.selectedWeapon, w.data.selectedArmor, View(w, scene), draws.landing, seventh, reason, Vec(q.x, q.y));
    EffectsKeepValid(w, MagicBulletWeapon.OnBulletDestroyed(seventh, reason, Vec(q.x, q.y), View(w, scene), draws.landing), now, draws, scene);
  }

  // ---------------------------------------------------------------------------
  // One frame of the particle loop

  function Min(a: int, b: int): int { if a < b then a else b }

  /** Where the particle loop stands: the game and the index it visits next. */
  datatype Turn = Turn(world: World, next: nat)

  /** One turn of the particle loop at index `i`: a kept particle is written back and the
      loop moves on; a removed one is taken out and its callback runs; after a collision
      the same index is visited again, after any other removal the loop moves on, so the
      particle that took the removed one's place waits for the next frame. What is left
      to visit always weighs less after the turn, so the loop ends. */
  function FrameTurn(w: World, i: nat, f: FrameView, now: real, draws: Draws, scene: Scene): (t: Turn)
    requires i < |w.items|
    ensures TotalWeight(t.world.items[Min(t.next, |t.world.items|)..]) < TotalWeight(w.items[Min(i, |w.items|)..])
  {
    StepKeepsCallback(w.items[i], f);
    match Step(w.items[i], f)
    case Kept(q) =>
      KeptShrinks(w.items, i, q);
      Turn(w.(items := w.items[i := q]), i + 1)
    case Removed(q, reason, revisit) =>
      var w1 := w.(items := w.items[..i] + w.items[i + 1..]);
      var w2 := DestroyRule(w1, q, reason, now, draws, scene);
      DestroyAppendsLess(w1, q, reason, now, draws, scene);
      RemovedShrinks(w.items, i, w2.items);
      Turn(w2, if revisit then i else i + 1)
  }

  /** The particle loop from index `i` on. */
  function FrameFrom(w: World, i: nat, f: FrameView, now: real, draws: Draws, scene: Scene): World
    decreases TotalWeight(w.items[Min(i, |w.items|)..])
  {
    if i >= |w.items| then w
    else
      var t := FrameTurn(w, i, f, now, draws, scene);
      FrameFrom(t.world, t.next, f, now, draws, scene)
  }

  lemma KeptShrinks(s: seq<Particle>, i: nat, q: Particle)
    requires i < |s| && Weight(q) == Weight(s[i])
    ensures TotalWeight(s[i := q][Min(i + 1, |s|)..]) < TotalWeight(s[Min(i, |s|)..])
  {
    assert s[i := q][i + 1..] == s[i + 1..];
    assert s[i..] == [s[i]] + s[i + 1..];
    TotalWeightAppend([s[i]], s[i + 1..]);
    SingleWeight(s[i]);
  }

  lemma RemovedShrinks(s: seq<Particle>, i: nat, t: seq<Particle>)
    requires i < |s|
    requires |s| - 1 <= |t| && t[..|s| - 1] == s[..i] + s[i + 1..]
    requires TotalWeight(t[|s| - 1..]) < Weight(s[i])
    ensures TotalWeight(t[Min(i + 1, |t|)..]) < TotalWeight(s[Min(i, |s|)..])
    ensures TotalWeight(t[Min(i, |t|)..]) < TotalWeight(s[Min(i, |s|)..])
  {
    assert t[i..] == s[i + 1..] + t[|s| - 1..] by {
      assert t == t[..|s| - 1] + t[|s| - 1..];
    }
    TotalWeightAppend(s[i + 1..], t[|s| - 1..]);
    assert s[i..] == [s[i]] + s[i + 1..];
    TotalWeightAppend([s[i]], s[i + 1..]);
    SingleWeight(s[i]);
    if i + 1 <= |t| {
      assert t[i..] == [t[i]] + t[i + 1..];
      TotalWeightAppend([t[i]], t[i + 1..]);
    }
  }

  /** A frame keeps the invariant. */
  lemma {:induction false} FrameKeepsValid(w: World, i: nat, f: FrameView, now: real, draws: Draws, scene: Scene)
    requires WorldValid(w)
    ensures WorldValid(FrameFrom(w, i, f, now, draws, scene))
    decreases TotalWeight(w.items[Min(i, |w.items|)..])
  {
    if i < |w.items| {
      TurnKeepsValid(w, i, f, now, draws, scene);
      var t := FrameTurn(w, i, f, now, draws, scene);
      FrameKeepsValid(t.world, t.next, f, now, draws, scene);
    }
  }

  /** One turn of the loop keeps the invariant. */
  lemma TurnKeepsValid(w: World, i: nat, f: FrameView, now: real, draws: Draws, scene: Scene)
    requires WorldValid(w) && i < |w.items|
    ensures WorldValid(FrameTurn(w, i, f, now, draws, scene).world)
  {
    StepKeepsCallback(w.items[i], f);
    match Step(w.items[i], f)
    case Kept(q) =>
      KeptKeepsValid(w, i, q);
    case Removed(q, reason, revisit) =>
      RemovedKeepsValid(w, i, q, reason, now, draws, scene);
  }

  /** Writing back a moved particle with the same callback keeps the invariant. */
  lemma KeptKeepsValid(w: World, i: nat, q: Particle)
    requires WorldValid(w) && i < |w.items| && q.onDestroy == w.items[i].onDestroy
    ensures WorldValid(w.(items := w.items[i := q]))
  {
    SpidersUpdate(w.items, i, q);
  }

  /** Taking out the particle at `i` and running the callback of its last state keeps the invariant. */
  lemma RemovedKeepsValid(w: World, i: nat, q: Particle, reason: Option<Reason>, now: real, draws: Draws, scene: Scene)
    requires WorldValid(w) && i < |w.items| && q.onDestroy == w.items[i].onDestroy
    ensures WorldValid(DestroyRule(w.(items := w.items[..i] + w.items[i + 1..]), q, reason, now, draws, scene))
  {
    SpidersRemove(w.items, i);
    SpidersOne(q);
    SpidersOne(w.items[i]);
    DestroyKeepsValid(w.(items := w.items[..i] + w.items[i + 1..]), q, reason, now, draws, scene);
  }

  // ---------------------------------------------------------------------------
  // A hit

  /** `handleHit` up to the hooks, with `count` boxes drawn and the critical draw made:
      the boxes are credited at the critical multiplier; when the weapon pays for boxes,
      the tier's share of them is shown, sized by the critical flag and the box price;
      then the hit flash. */
  function StrikeRule(w: World, at: Vec, count: int, isCritical: bool, draws: Draws): World
  {
    var d := Derived(w);
    var w1 := w.(data := StoreRules.AddBoxes(w.data, w.bonus, count, if isCritical then d.criticalMultiplier else 1.0));
    var bps := BoxesPerSecond(d);
    var shown := TierCount(bps, count);
    var boxes := if Derived(w1).boxPrice > 0.0
      then Boxes(at, if shown < 0 then 0 else shown, HitBoxStyle(isCritical, draws.log2(d.boxPrice + 1.0), bps), draws.launch)
      else [];
    w1.(items := w1.items + boxes + [HitFlash(at, isCritical)])
  }

  /** The boxes a hit draws, whether it is critical, and the whole hit: the strike,
      then the selected items' hit hooks, run on the state after the strike. */
  function HitCount(w: World, uCount: Unit): int
  {
    Utils.RandomRangeInt(uCount, Derived(w).minBoxes, Derived(w).maxBoxes)
  }

  predicate HitIsCritical(w: World, uCrit: Unit)
  {
    uCrit < Derived(w).criticalChance
  }

  function HitEffects(w: World, at: Vec, isCritical: bool, scene: Scene, hd: HookDraws): seq<Effect>
  {
    StoreRules.ProcessHit(w.data.selectedWeapon, w.data.selectedArmor, View(w, scene), HitParams(isCritical, at), hd)
  }

  function HitRule(w: World, at: Vec, uCount: Unit, uCrit: Unit, now: real, draws: Draws, scene: Scene): World
  {
    var isCritical := HitIsCritical(w, uCrit);
    var w1 := StrikeRule(w, at, HitCount(w, uCount), isCritical, draws);
    EffectsRule(w1, HitEffects(w1, at, isCritical, scene, draws.hit), now, draws, scene)
  }

  /** What a hit shows and pays before the hooks: it credits the boxes it drew (within
      the cap), shows at least one box and no more than it drew when the weapon pays for
      boxes, none otherwise, and then one flash; sanity, timers and spiders are untouched. */
  lemma StrikeOutcome(w: World, at: Vec, uCount: Unit, uCrit: Unit, draws: Draws)
    requires WorldValid(w)
    ensures var count := HitCount(w, uCount);
      var isCritical := HitIsCritical(w, uCrit);
      var r := StrikeRule(w, at, count, isCritical, draws);
      var added := r.items[|w.items|..];
      WorldValid(r) && |w.items| < |r.items| && r.items[..|w.items|] == w.items
      && Derived(w).minBoxes <= count <= Derived(w).maxBoxes
      && r.data == StoreRules.AddBoxes(w.data, w.bonus, count, if isCritical then Derived(w).criticalMultiplier else 1.0)
      && r.clock == w.clock && r.spiderCount == w.spiderCount && r.bonus == w.bonus
      && added[|added| - 1] == HitFlash(at, isCritical)
      && (Derived(w).boxPrice > 0.0 ==> 1 <= |added| - 1 <= count)
      && (Derived(w).boxPrice <= 0.0 ==> |added| == 1)
  {
    var count := HitCount(w, uCount);
    var isCritical := HitIsCritical(w, uCrit);
    StrikeShows(w, at, count, isCritical, draws);
    StrikeKeepsValid(w, at, count, isCritical, draws);
  }

  /** What a strike appends: the boxes it shows, between one and `count` of them when
      boxes have a price and none otherwise, then the flash; no spider among them. */
  lemma StrikeShows(w: World, at: Vec, count: int, isCritical: bool, draws: Draws)
    requires WorldValid(w) && count >= 1
    ensures var r := StrikeRule(w, at, count, isCritical, draws);
      var added := r.items[|w.items|..];
      |w.items| < |r.items| && r.items[..|w.items|] == w.items
      && r.data == StoreRules.AddBoxes(w.data, w.bonus, count, if isCritical then Derived(w).criticalMultiplier else 1.0)
      && r.clock == w.clock && r.spiderCount == w.spiderCount && r.bonus == w.bonus
      && added[|added| - 1] == HitFlash(at, isCritical)
      && (Derived(w).boxPrice > 0.0 ==> 1 <= |added| - 1 <= count)
      && (Derived(w).boxPrice <= 0.0 ==> |added| == 1)
      && Spiders(r.items) == Spiders(w.items)
  {
    var d := Derived(w);
    var w1 := w.(data := StoreRules.AddBoxes(w.data, w.bonus, count, if isCritical then d.criticalMultiplier else 1.0));
    assert Derived(w1).boxPrice == d.boxPrice;
    var bps := BoxesPerSecond(d);
    var shown := TierCount(bps, count);
    TierShrinks(bps, bps, count);
    var style := HitBoxStyle(isCritical, draws.log2(d.boxPrice + 1.0), bps);
    var boxes := if d.boxPrice > 0.0 then Boxes(at, shown, style, draws.launch) else [];
    NoSpiderBoxes(at, shown, style, draws.launch);
    assert StrikeRule(w, at, count, isCritical, draws).items == w.items + boxes + [HitFlash(at, isCritical)];
    AppendedShape(w.items, boxes, HitFlash(at, isCritical));
  }

  /** A run of particles and one more, appended to a list, as seen from the list. */
  lemma AppendedShape(items: seq<Particle>, boxes: seq<Particle>, last: Particle)
    requires Spiders(boxes) == 0 && last.onDestroy != SpiderGone
    ensures var r := items + boxes + [last];
      |r| == |items| + |boxes| + 1 && r[..|items|] == items && r[|r| - 1] == last
      && Spiders(r) == Spiders(items)
  {
    SpidersAppend(items, boxes);
    SpidersAppend(items + boxes, [last]);
    SpidersOne(last);
  }

  /** A strike keeps the invariant. */
  lemma StrikeKeepsValid(w: World, at: Vec, count: int, isCritical: bool, draws: Draws)
    requires WorldValid(w)
    requires var r := StrikeRule(w, at, count, isCritical, draws);
      r.data == StoreRules.AddBoxes(w.data, w.bonus, count, if isCritical then Derived(w).criticalMultiplier else 1.0)
      && r.clock == w.clock && r.spiderCount == w.spiderCount && r.bonus == w.bonus
      && Spiders(r.items) == Spiders(w.items)
    ensures WorldValid(StrikeRule(w, at, count, isCritical, draws))
  {
  }

  /** A hit keeps the invariant. */
  lemma HitKeepsValid(w: World, at: Vec, uCount: Unit, uCrit: Unit, now: real, draws: Draws, scene: Scene)
    requires WorldValid(w)
    ensures WorldValid(HitRule(w, at, uCount, uCrit, now, draws, scene))
  {
    var isCritical := HitIsCritical(w, uCrit);
    StrikeOutcome(w, at, uCount, uCrit, draws);
    var w1 := StrikeRule(w, at, HitCount(w, uCount), isCritical, draws);
    HitHooksAddNoStraySpider(w1.data.selectedWeapon, w1.data.selectedArmor, View(w1, scene), HitParams(isCritical, at), draws.hit);
    EffectsKeepValid(w1, HitEffects(w1, at, isCritical, scene, draws.hit), now, draws, scene);
  }

  // ---------------------------------------------------------------------------
  // What the panic hooks leave

  /** The sanity a panic leaves before its first step. With Penitence armor it is 20, or
      maxSanity when that is lower; with Twilight armor and a draw below one half it is
      maxSanity, so the first panic step already ends the panic; with any other armor it
      stays 0. */
  lemma PanicHooksRestore(w: World, scene: Scene, hd: HookDraws)
    ensures var v := View(w, scene).(current := 0);
      var after := AfterWrites(PanicEffects(w, scene, hd), 0);
      (w.data.selectedArmor == Armors.Penitence ==> after == if v.maxSanity < 20 then v.maxSanity else 20)
      && (w.data.selectedArmor == Armors.Twilight && hd.u1 < 0.5 ==> after == v.maxSanity)
      && (w.data.selectedArmor == Armors.Twilight && hd.u1 >= 0.5 ==> after == 0)
      && (w.data.selectedArmor != Armors.Penitence && w.data.selectedArmor != Armors.Twilight ==> after == 0)
  {
    var v := View(w, scene).(current := 0);
    var es := PanicEffects(w, scene, hd);
    assert Derived(w).maxSanity >= 60;
    if w.data.selectedArmor == Armors.Penitence {
      assert es == PenitenceArmor.OnPanic(v, hd);
      PenitenceArmor.PanicRestoreRaises(v, hd);
      assert es[1..] == [];
    } else if w.data.selectedArmor == Armors.Twilight {
      assert es == TwilightArmor.OnPanic(v, hd);
      if hd.u1 < 0.5 {
        assert es[1..] == [];
      }
    }
  }
}
